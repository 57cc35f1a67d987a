/** Checkpoint directories as objects under a prefix, the manifest written last
    (internal/snapshotstore/store.go). */
module SnapshotDir {
  import opened Types
  import opened Bytes
  import opened SparseCodec
  import opened Codec

  const MANIFEST := "manifest.json"

  /** encoding/json on the manifest's list of names. */
  datatype Json = Json(marshal: seq<string> -> seq<byte>, unmarshal: seq<byte> -> Option<seq<string>>)

  ghost predicate Faithful(j: Json) {
    forall names :: j.unmarshal(j.marshal(names)) == Some(names)
  }

  /** One path met by the walk, relative to the directory; only regular files carry content. */
  datatype Entry = Entry(rel: string, regular: bool, file: SparseFile)

  ghost predicate WellFormed(dir: seq<Entry>) {
    && (forall i, j :: 0 <= i < j < |dir| ==> dir[i].rel != dir[j].rel)
    && forall i :: 0 <= i < |dir| ==> HolesAreZero(dir[i].file)
  }

  /** There is something to upload: a regular file other than a root manifest.json. */
  ghost predicate HasFiles(dir: seq<Entry>) {
    exists e :: e in dir && e.regular && e.rel != "." && e.rel != "manifest.json"
  }

  predicate Listed(e: Entry) {
    e.regular && e.rel != "." && e.rel != MANIFEST
  }

  // ----- keys -----

  function TrimSlash(prefix: string): string {
    if prefix != [] && prefix[|prefix| - 1] == '/' then prefix[..|prefix| - 1] else prefix
  }

  function ObjectPath(prefix: string, name: string): string {
    TrimSlash(prefix) + "/" + name
  }

  function FileKey(prefix: string, name: string): string {
    ObjectPath(prefix, name + ".zstd")
  }

  function ManifestKey(prefix: string): string {
    ObjectPath(prefix, MANIFEST)
  }

  function ObjectKeyFor(id: string): string {
    "sandboxes/" + id
  }

  /** Under one prefix, different files have different keys, and none has the manifest's. */
  lemma KeysApart(prefix: string, a: string, b: string)
    ensures FileKey(prefix, a) == FileKey(prefix, b) ==> a == b
    ensures FileKey(prefix, a) != ManifestKey(prefix)
  {
    var head := TrimSlash(prefix) + "/";
    assert FileKey(prefix, a) == head + (a + ".zstd") && FileKey(prefix, b) == head + (b + ".zstd");
    assert ManifestKey(prefix) == head + MANIFEST;
    assert FileKey(prefix, a)[|head|..] == a + ".zstd" && FileKey(prefix, b)[|head|..] == b + ".zstd";
    assert ManifestKey(prefix)[|head|..] == MANIFEST;
    if FileKey(prefix, a) == FileKey(prefix, b) {
      assert |a| == |b|;
      assert (a + ".zstd")[..|a|] == a && (b + ".zstd")[..|b|] == b;
    }
    assert (a + ".zstd")[|a + ".zstd"| - 1] == 'd' && MANIFEST[|MANIFEST| - 1] == 'n';
  }

  /** Two sandboxes never share a prefix. */
  lemma PrefixesApart(a: string, b: string)
    requires ObjectKeyFor(a) == ObjectKeyFor(b)
    ensures a == b
  {
    assert ObjectKeyFor(a)[|"sandboxes/"|..] == a && ObjectKeyFor(b)[|"sandboxes/"|..] == b;
  }

  predicate NoSlash(id: string) {
    id != "" && '/' !in id
  }

  /** Nor any object, when ids are not empty and have no slash: whatever the names, a key tells whose it is. */
  lemma SandboxesApart(a: string, b: string, x: string, y: string)
    requires NoSlash(a) && NoSlash(b) && ObjectPath(ObjectKeyFor(a), x) == ObjectPath(ObjectKeyFor(b), y)
    ensures a == b && x == y
  {
    KeyStartsWithId(a, x);
    KeyStartsWithId(b, y);
    FirstSlash(a, x, b, y);
  }

  lemma KeyStartsWithId(id: string, name: string)
    requires NoSlash(id)
    ensures ObjectPath(ObjectKeyFor(id), name)[|"sandboxes/"|..] == id + "/" + name
  {
    var prefix := ObjectKeyFor(id);
    assert prefix[|prefix| - 1] == id[|id| - 1];
    assert TrimSlash(prefix) == prefix;
    assert ObjectPath(prefix, name) == "sandboxes/" + (id + "/" + name);
  }

  lemma FirstSlash(a: string, x: string, b: string, y: string)
    requires '/' !in a && '/' !in b && a + "/" + x == b + "/" + y
    ensures a == b && x == y
  {
    NotShorter(a, x, b, y);
    NotShorter(b, y, a, x);
    var s, t := a + "/" + x, b + "/" + y;
    assert s[..|a|] == a && t[..|b|] == b && s[|a| + 1..] == x && t[|b| + 1..] == y;
  }

  lemma NotShorter(a: string, x: string, b: string, y: string)
    requires '/' !in b && a + "/" + x == b + "/" + y
    ensures |a| >= |b|
  {
    var s := a + "/" + x;
    assert s[|a|] == '/';
    assert forall k :: 0 <= k < |b| ==> s[k] == b[k];
  }

  /** No file and no manifest of one sandbox has the key of a file or a manifest of another. */
  lemma NoKeyShared(a: string, b: string, x: string, y: string)
    requires NoSlash(a) && NoSlash(b) && a != b
    ensures FileKey(ObjectKeyFor(a), x) != FileKey(ObjectKeyFor(b), y)
    ensures FileKey(ObjectKeyFor(a), x) != ManifestKey(ObjectKeyFor(b))
    ensures ManifestKey(ObjectKeyFor(a)) != ManifestKey(ObjectKeyFor(b))
  {
    if FileKey(ObjectKeyFor(a), x) == FileKey(ObjectKeyFor(b), y) {
      SandboxesApart(a, b, x + ".zstd", y + ".zstd");
    }
    if FileKey(ObjectKeyFor(a), x) == ManifestKey(ObjectKeyFor(b)) {
      SandboxesApart(a, b, x + ".zstd", MANIFEST);
    }
    if ManifestKey(ObjectKeyFor(a)) == ManifestKey(ObjectKeyFor(b)) {
      SandboxesApart(a, b, MANIFEST, MANIFEST);
    }
  }

  /** Where the objects of a sandbox are. */
  lemma KeyLayout(id: string, name: string)
    requires NoSlash(id)
    ensures FileKey(ObjectKeyFor(id), name) == "sandboxes/" + id + "/" + name + ".zstd"
    ensures ManifestKey(ObjectKeyFor(id)) == "sandboxes/" + id + "/manifest.json"
  {
    var prefix := ObjectKeyFor(id);
    assert prefix[|prefix| - 1] == id[|id| - 1];
    assert TrimSlash(prefix) == prefix;
  }

  /** A slash at the end of a prefix makes no difference. */
  lemma SlashIgnored(prefix: string, name: string)
    requires prefix == [] || prefix[|prefix| - 1] != '/'
    ensures FileKey(prefix + "/", name) == FileKey(prefix, name) == prefix + "/" + name + ".zstd"
    ensures ManifestKey(prefix + "/") == ManifestKey(prefix) == prefix + "/manifest.json"
  {
    assert TrimSlash(prefix + "/") == prefix && TrimSlash(prefix) == prefix;
  }

  /** No upload of a sandbox touches an object of the golden template. */
  lemma GoldenApart(id: string, x: string, y: string)
    requires NoSlash(id)
    ensures FileKey("templates/default/golden", x) !in {FileKey(ObjectKeyFor(id), y), ManifestKey(ObjectKeyFor(id))}
    ensures ManifestKey("templates/default/golden") !in {FileKey(ObjectKeyFor(id), y), ManifestKey(ObjectKeyFor(id))}
  {
    KeyLayout(id, y);
    SlashIgnored("templates/default/golden", x);
    assert FileKey("templates/default/golden", x)[0] == 't' == ManifestKey("templates/default/golden")[0];
    assert FileKey(ObjectKeyFor(id), y)[0] == 's' == ManifestKey(ObjectKeyFor(id))[0];
  }

  // ----- uploads -----

  type Objects = map<string, seq<byte>>

  datatype PutOp = PutOp(key: string, value: seq<byte>)

  function ListFiles(dir: seq<Entry>): seq<Entry> {
    if dir == [] then []
    else
      var front, last := ListFiles(dir[..|dir| - 1]), dir[|dir| - 1];
      if Listed(last) then front + [last] else front
  }

  function Names(files: seq<Entry>): (names: seq<string>)
    ensures |names| == |files| && forall i :: 0 <= i < |files| ==> names[i] == files[i].rel
  {
    seq(|files|, i requires 0 <= i < |files| => files[i].rel)
  }

  ghost predicate AllSound(files: seq<Entry>) {
    forall i :: 0 <= i < |files| ==> HolesAreZero(files[i].file)
  }

  /** The puts of an upload, in order: the files as walked, then the manifest. */
  function Puts(files: seq<Entry>, prefix: string, z: Zstd, j: Json): (ops: seq<PutOp>)
    requires AllSound(files)
    ensures |ops| == |files| + 1
    ensures forall i :: 0 <= i < |files| ==>
              ops[i] == PutOp(FileKey(prefix, files[i].rel), Encoded(FromFile(files[i].file), z))
    ensures ops[|files|] == PutOp(ManifestKey(prefix), j.marshal(Names(files)))
  {
    seq(|files|, i requires 0 <= i < |files| =>
      PutOp(FileKey(prefix, files[i].rel), Encoded(FromFile(files[i].file), z)))
    + [PutOp(ManifestKey(prefix), j.marshal(Names(files)))]
  }

  function AfterPuts(objects: Objects, ops: seq<PutOp>): Objects {
    if ops == [] then objects
    else
      var last := ops[|ops| - 1];
      AfterPuts(objects, ops[..|ops| - 1])[last.key := last.value]
  }

  class ObjectStore {
    var objects: Objects

    constructor (objects: Objects)
      ensures this.objects == objects
    {
      this.objects := objects;
    }

    method Put(key: string, value: seq<byte>)
      modifies this
      ensures objects == old(objects)[key := value]
    {
      objects := objects[key := value];
    }
  }

  method ListRegularFiles(dir: seq<Entry>) returns (files: seq<Entry>)
    ensures files == ListFiles(dir)
    ensures WellFormed(dir) ==>
              forall e :: e in files <==> e in dir && e.regular && e.rel != "." && e.rel != "manifest.json"
  {
    files := [];
    var i := 0;
    while i < |dir|
      invariant 0 <= i <= |dir| && files == ListFiles(dir[..i])
    {
      assert dir[..i + 1][..i] == dir[..i];
      if dir[i].regular && dir[i].rel != "." && dir[i].rel != MANIFEST {
        files := files + [dir[i]];
      }
      i := i + 1;
    }
    assert dir[..i] == dir;
    if WellFormed(dir) {
      ListedFiles(dir);
    }
  }

  /** `lasts` is how many puts the store takes before it fails. */
  method UploadDir(st: ObjectStore, dir: seq<Entry>, prefix: string, z: Zstd, j: Json, lasts: nat)
    returns (ok: bool, total: nat)
    requires WellFormed(dir)
    modifies st
    ensures AllSound(ListFiles(dir))
    ensures var ops := Puts(ListFiles(dir), prefix, z, j);
            var done := if ListFiles(dir) == [] then [] else ops[..if lasts < |ops| then lasts else |ops|];
            && (ok <==> ListFiles(dir) != [] && lasts >= |ops|)
            && st.objects == AfterPuts(old(st.objects), done) && total == TotalBytes(done)
    ensures ok ==> HasFiles(dir)
    ensures lasts > |dir| && HasFiles(dir) ==> ok
  {
    ListedSound(dir);
    SomeListed(dir);
    var files := ListRegularFiles(dir);
    if |files| == 0 {
      return false, 0;
    }
    ghost var ops := Puts(files, prefix, z, j);
    var sum := 0;
    var i := 0;
    assert ops[..0] == [];
    while i < |files|
      invariant 0 <= i <= |files| && i <= lasts
      invariant st.objects == AfterPuts(old(st.objects), ops[..i]) && sum == TotalBytes(ops[..i])
    {
      if i >= lasts {
        return false, sum;
      }
      var value, _, _ := WriteContent(FromFile(files[i].file), z);
      st.Put(FileKey(prefix, files[i].rel), value);
      sum := sum + |value|;
      OnePut(old(st.objects), ops, i);
      i := i + 1;
    }
    if i >= lasts {
      return false, sum;
    }
    var manifest := j.marshal(Names(files));
    st.Put(ManifestKey(prefix), manifest);
    OnePut(old(st.objects), ops, i);
    assert ops[..i + 1] == ops[..|ops|];
    return true, sum + |manifest|;
  }

  function TotalBytes(ops: seq<PutOp>): nat {
    if ops == [] then 0 else TotalBytes(ops[..|ops| - 1]) + |ops[|ops| - 1].value|
  }

  lemma OnePut(objects: Objects, ops: seq<PutOp>, i: nat)
    requires i < |ops|
    ensures AfterPuts(objects, ops[..i + 1]) == AfterPuts(objects, ops[..i])[ops[i].key := ops[i].value]
    ensures TotalBytes(ops[..i + 1]) == TotalBytes(ops[..i]) + |ops[i].value|
  {
    assert ops[..i + 1][..i] == ops[..i];
  }

  lemma {:induction false} ListedFiles(dir: seq<Entry>)
    requires WellFormed(dir)
    ensures forall e :: e in ListFiles(dir) <==> e in dir && e.regular && e.rel != "." && e.rel != "manifest.json"
    ensures forall i, j :: 0 <= i < j < |ListFiles(dir)| ==> ListFiles(dir)[i].rel != ListFiles(dir)[j].rel
    decreases |dir|
  {
    if dir != [] {
      var front, last := dir[..|dir| - 1], dir[|dir| - 1];
      ListedFiles(front);
      assert dir == front + [last];
      var files := ListFiles(front);
      forall i | 0 <= i < |files|
        ensures files[i].rel != last.rel
      {
        assert files[i] in files;
      }
    }
  }

  lemma SomeListed(dir: seq<Entry>)
    requires WellFormed(dir)
    ensures ListFiles(dir) != [] <==> HasFiles(dir)
    ensures |ListFiles(dir)| <= |dir|
  {
    ListedFiles(dir);
    NotMoreListed(dir);
    if ListFiles(dir) != [] {
      assert ListFiles(dir)[0] in ListFiles(dir);
    }
  }

  lemma {:induction false} NotMoreListed(dir: seq<Entry>)
    ensures |ListFiles(dir)| <= |dir|
  {
    if dir != [] {
      NotMoreListed(dir[..|dir| - 1]);
    }
  }

  /** The files keep the order in which the walk met them. */
  lemma {:induction false} ListedInOrder(dir: seq<Entry>, i: nat, j: nat) returns (a: nat, b: nat)
    requires i < j < |ListFiles(dir)|
    ensures a < b < |dir| && ListFiles(dir)[i] == dir[a] && ListFiles(dir)[j] == dir[b]
    decreases |dir|
  {
    var front := dir[..|dir| - 1];
    if j < |ListFiles(front)| {
      a, b := ListedInOrder(front, i, j);
    } else {
      a := ListedAt(front, i);
      b := |dir| - 1;
    }
  }

  lemma {:induction false} ListedAt(dir: seq<Entry>, i: nat) returns (a: nat)
    requires i < |ListFiles(dir)|
    ensures a < |dir| && ListFiles(dir)[i] == dir[a]
    decreases |dir|
  {
    if i < |ListFiles(dir[..|dir| - 1])| {
      a := ListedAt(dir[..|dir| - 1], i);
    } else {
      a := |dir| - 1;
    }
  }

  lemma ListedSound(dir: seq<Entry>)
    requires WellFormed(dir)
    ensures AllSound(ListFiles(dir))
  {
    ListedFiles(dir);
    forall i | 0 <= i < |ListFiles(dir)|
      ensures HolesAreZero(ListFiles(dir)[i].file)
    {
      assert ListFiles(dir)[i] in dir;
    }
  }

  // ----- downloads -----

  function ManifestOf(objects: Objects, prefix: string, j: Json): Option<seq<string>> {
    if ManifestKey(prefix) !in objects then None
    else
      match j.unmarshal(objects[ManifestKey(prefix)])
      case None => None
      case Some(names) => if names == [] then None else Some(names)
  }

  function FileOf(objects: Objects, prefix: string, z: Zstd, name: string): Option<seq<byte>> {
    if FileKey(prefix, name) !in objects then None else Decoded(objects[FileKey(prefix, name)], [], z)
  }

  /** A download of this prefix goes through. */
  predicate Complete(objects: Objects, prefix: string, z: Zstd, j: Json) {
    var names := ManifestOf(objects, prefix, j);
    names.Some? && forall i :: 0 <= i < |names.value| ==> FileOf(objects, prefix, z, names.value[i]).Some?
  }

  class LocalDir {
    var files: map<string, seq<byte>>

    constructor (files: map<string, seq<byte>>)
      ensures this.files == files
    {
      this.files := files;
    }
  }

  /** The destination is created before the object is asked for, so a failure leaves a file behind. */
  method DownloadFile(objects: Objects, key: string, z: Zstd) returns (ok: bool, content: seq<byte>)
    ensures ok <==> key in objects && Decoded(objects[key], [], z).Some?
    ensures ok ==> Some(content) == Decoded(objects[key], [], z)
  {
    var dst := new File();
    if key !in objects {
      return false, dst.bytes;
    }
    var size;
    ok, size := DecodeContent(dst, objects[key], z);
    content := dst.bytes;
  }

  /** A directory that holds exactly the named files, each as it decodes. */
  ghost predicate Fetched(files: map<string, seq<byte>>, names: seq<string>, objects: Objects, prefix: string,
                          z: Zstd) {
    && (forall name :: name in files <==> name in names)
    && (forall name :: name in files ==> Some(files[name]) == FileOf(objects, prefix, z, name))
  }

  lemma FetchedNext(files: map<string, seq<byte>>, names: seq<string>, i: nat, objects: Objects, prefix: string,
                    z: Zstd)
    requires i < |names| && Fetched(files, names[..i], objects, prefix, z)
    requires FileOf(objects, prefix, z, names[i]).Some?
    ensures Fetched(files[names[i] := FileOf(objects, prefix, z, names[i]).value], names[..i + 1], objects, prefix, z)
  {
    var next := files[names[i] := FileOf(objects, prefix, z, names[i]).value];
    forall name
      ensures name in names[..i + 1] <==> name in names[..i] || name == names[i]
    {
      assert names[..i + 1] == names[..i] + [names[i]];
    }
    forall name | name in next
      ensures Some(next[name]) == FileOf(objects, prefix, z, name)
    {
      assert name != names[i] ==> next[name] == files[name];
    }
  }

  lemma FetchedAll(files: map<string, seq<byte>>, names: seq<string>, objects: Objects, prefix: string, z: Zstd)
    requires Fetched(files, names, objects, prefix, z)
    ensures forall i :: 0 <= i < |names| ==> FileOf(objects, prefix, z, names[i]).Some?
  {
    forall i | 0 <= i < |names|
      ensures FileOf(objects, prefix, z, names[i]).Some?
    {
      assert names[i] in files;
    }
  }

  /** What a download that failed at its `i`-th file leaves behind: the files before it, and that one with whatever
      had been written. */
  ghost predicate BrokenOff(files: map<string, seq<byte>>, names: seq<string>, i: nat, objects: Objects,
                            prefix: string, z: Zstd) {
    && i < |names| && FileOf(objects, prefix, z, names[i]).None?
    && (forall name :: name in files <==> name in names[..i + 1])
    && (forall name :: name in files && name != names[i] ==> Some(files[name]) == FileOf(objects, prefix, z, name))
  }

  lemma LeftPartial(files: map<string, seq<byte>>, names: seq<string>, i: nat, content: seq<byte>, objects: Objects,
                    prefix: string, z: Zstd)
    requires i < |names| && Fetched(files, names[..i], objects, prefix, z)
    requires FileOf(objects, prefix, z, names[i]).None?
    ensures BrokenOff(files[names[i] := content], names, i, objects, prefix, z)
  {
    assert names[..i + 1] == names[..i] + [names[i]];
  }

  method DownloadDir(objects: Objects, prefix: string, local: LocalDir, z: Zstd, j: Json) returns (ok: bool)
    modifies local
    ensures ok <==> Complete(objects, prefix, z, j)
    ensures ok ==>
              var names := ManifestOf(objects, prefix, j).value;
              Fetched(local.files, names, objects, prefix, z)
    ensures ManifestOf(objects, prefix, j).None? ==> local.files == old(local.files)
    ensures ManifestOf(objects, prefix, j).None? <==>
              ManifestKey(prefix) !in objects || j.unmarshal(objects[ManifestKey(prefix)]) in {None, Some([])}
    ensures !ok && ManifestOf(objects, prefix, j).Some? ==>
              exists i :: BrokenOff(local.files, ManifestOf(objects, prefix, j).value, i, objects, prefix, z)
  {
    if ManifestKey(prefix) !in objects {
      return false;
    }
    var parsed := j.unmarshal(objects[ManifestKey(prefix)]);
    if parsed.None? || |parsed.value| == 0 {
      return false;
    }
    var names := parsed.value;
    local.files := map[];
    var i := 0;
    while i < |names|
      invariant 0 <= i <= |names|
      invariant Fetched(local.files, names[..i], objects, prefix, z)
    {
      var fetched, content := DownloadFile(objects, FileKey(prefix, names[i]), z);
      if fetched {
        FetchedNext(local.files, names, i, objects, prefix, z);
      } else {
        LeftPartial(local.files, names, i, content, objects, prefix, z);
      }
      local.files := local.files[names[i] := content];
      if !fetched {
        return false;
      }
      i := i + 1;
    }
    assert names[..i] == names;
    FetchedAll(local.files, names, objects, prefix, z);
    return true;
  }

  // ----- the two together -----

  lemma {:induction false} AfterPutsOther(objects: Objects, ops: seq<PutOp>, key: string)
    requires forall i :: 0 <= i < |ops| ==> ops[i].key != key
    ensures key in AfterPuts(objects, ops) <==> key in objects
    ensures key in objects ==> AfterPuts(objects, ops)[key] == objects[key]
    decreases |ops|
  {
    if ops != [] {
      AfterPutsOther(objects, ops[..|ops| - 1], key);
    }
  }

  /** With distinct keys, every put is there afterwards. */
  lemma {:induction false} AfterPutsHas(objects: Objects, ops: seq<PutOp>, k: nat)
    requires k < |ops| && forall i, j :: 0 <= i < j < |ops| ==> ops[i].key != ops[j].key
    ensures ops[k].key in AfterPuts(objects, ops) && AfterPuts(objects, ops)[ops[k].key] == ops[k].value
    decreases |ops|
  {
    if k < |ops| - 1 {
      AfterPutsHas(objects, ops[..|ops| - 1], k);
    }
  }

  lemma PutKeysApart(files: seq<Entry>, prefix: string, z: Zstd, j: Json)
    requires AllSound(files) && forall i, k :: 0 <= i < k < |files| ==> files[i].rel != files[k].rel
    ensures var ops := Puts(files, prefix, z, j);
            forall i, k :: 0 <= i < k < |ops| ==> ops[i].key != ops[k].key
  {
    var ops := Puts(files, prefix, z, j);
    forall i, k | 0 <= i < k < |ops|
      ensures ops[i].key != ops[k].key
    {
      if k < |files| {
        KeysApart(prefix, files[i].rel, files[k].rel);
      } else {
        KeysApart(prefix, files[i].rel, files[i].rel);
      }
    }
  }

  /** After the first `k` files of an upload, those files are the new ones; names not yet reached, and the
      manifest, are as they were. */
  lemma UploadedSoFar(objects: Objects, files: seq<Entry>, prefix: string, z: Zstd, j: Json, k: nat)
    requires AllSound(files) && Lossless(z) && k <= |files|
    requires forall a, b :: 0 <= a < b < |files| ==> files[a].rel != files[b].rel
    ensures var after := AfterPuts(objects, Puts(files, prefix, z, j)[..k]);
            && ManifestOf(after, prefix, j) == ManifestOf(objects, prefix, j)
            && (forall i :: 0 <= i < k ==> FileOf(after, prefix, z, files[i].rel) == Some(files[i].file.bytes))
            && (forall i :: k <= i < |files| ==>
                  FileOf(after, prefix, z, files[i].rel) == FileOf(objects, prefix, z, files[i].rel))
  {
    var ops := Puts(files, prefix, z, j);
    var after := AfterPuts(objects, ops[..k]);
    PutKeysApart(files, prefix, z, j);
    assert forall i :: 0 <= i < k ==> ops[..k][i] == ops[i];
    AfterPutsOther(objects, ops[..k], ops[|files|].key);
    forall i | 0 <= i < |files|
      ensures FileOf(after, prefix, z, files[i].rel) ==
              if i < k then Some(files[i].file.bytes) else FileOf(objects, prefix, z, files[i].rel)
    {
      if i < k {
        AfterPutsHas(objects, ops[..k], i);
        ContentRoundTrip(FromFile(files[i].file), z);
      } else {
        AfterPutsOther(objects, ops[..k], ops[i].key);
      }
    }
  }

  ghost predicate NamesExactly(names: seq<string>, dir: seq<Entry>) {
    forall name :: name in names <==>
                     exists e :: e in dir && e.regular && e.rel != "." && e.rel != "manifest.json" && e.rel == name
  }

  /** Directory round trip: once an upload is through, a download rebuilds exactly the regular files, the root
      manifest.json aside, with their contents. */
  lemma DirectoryRoundTrip(objects: Objects, dir: seq<Entry>, prefix: string, z: Zstd, j: Json)
    requires WellFormed(dir) && Lossless(z) && Faithful(j) && HasFiles(dir)
    ensures AllSound(ListFiles(dir))
    ensures var after := AfterPuts(objects, Puts(ListFiles(dir), prefix, z, j));
            && Complete(after, prefix, z, j)
            && NamesExactly(ManifestOf(after, prefix, j).value, dir)
            && forall e :: e in dir && e.regular && e.rel != "." && e.rel != "manifest.json" ==>
                 FileOf(after, prefix, z, e.rel) == Some(e.file.bytes)
  {
    ListedSound(dir);
    ListedFiles(dir);
    var files := ListFiles(dir);
    AfterUpload(objects, files, prefix, z, j);
    NamesListed(dir);
    forall e | e in dir && e.regular && e.rel != "." && e.rel != "manifest.json"
      ensures FileOf(AfterPuts(objects, Puts(files, prefix, z, j)), prefix, z, e.rel) == Some(e.file.bytes)
    {
      var i :| 0 <= i < |files| && files[i] == e;
    }
  }

  /** So whatever a successful download leaves is the directory that was uploaded: its listed files, and no others. */
  lemma DownloadRebuilds(objects: Objects, dir: seq<Entry>, prefix: string, z: Zstd, j: Json,
                         files: map<string, seq<byte>>)
    requires WellFormed(dir) && Lossless(z) && Faithful(j) && HasFiles(dir)
    requires AllSound(ListFiles(dir))
    requires var after := AfterPuts(objects, Puts(ListFiles(dir), prefix, z, j));
             ManifestOf(after, prefix, j).Some? && Fetched(files, ManifestOf(after, prefix, j).value, after, prefix, z)
    ensures forall name :: name in files <==>
              exists e :: e in dir && e.regular && e.rel != "." && e.rel != "manifest.json" && e.rel == name
    ensures forall e :: e in dir && e.regular && e.rel != "." && e.rel != "manifest.json" ==>
              e.rel in files && files[e.rel] == e.file.bytes
  {
    DirectoryRoundTrip(objects, dir, prefix, z, j);
    forall e | e in dir && e.regular && e.rel != "." && e.rel != "manifest.json"
      ensures e.rel in files && files[e.rel] == e.file.bytes
    {
      assert e.rel in files;
    }
  }

  lemma NamesListed(dir: seq<Entry>)
    requires WellFormed(dir)
    ensures NamesExactly(Names(ListFiles(dir)), dir)
  {
    ListedFiles(dir);
    var files := ListFiles(dir);
    forall name
      ensures name in Names(files) <==>
              exists e :: e in dir && e.regular && e.rel != "." && e.rel != "manifest.json" && e.rel == name
    {
      if name in Names(files) {
        var i :| 0 <= i < |files| && Names(files)[i] == name;
        assert files[i] in files;
      }
      if e :| e in dir && e.regular && e.rel != "." && e.rel != "manifest.json" && e.rel == name {
        var i :| 0 <= i < |files| && files[i] == e;
        assert Names(files)[i] == name;
      }
    }
  }

  lemma AfterUpload(objects: Objects, files: seq<Entry>, prefix: string, z: Zstd, j: Json)
    requires AllSound(files) && Lossless(z) && Faithful(j) && files != []
    requires forall a, b :: 0 <= a < b < |files| ==> files[a].rel != files[b].rel
    ensures var after := AfterPuts(objects, Puts(files, prefix, z, j));
            && ManifestOf(after, prefix, j) == Some(Names(files)) && Complete(after, prefix, z, j)
            && forall i :: 0 <= i < |files| ==>
                 FileOf(after, prefix, z, files[i].rel) == Some(files[i].file.bytes)
  {
    var ops := Puts(files, prefix, z, j);
    var n := |files|;
    var before := AfterPuts(objects, ops[..n]);
    var after := AfterPuts(objects, ops);
    UploadedSoFar(objects, files, prefix, z, j, n);
    assert after == before[ManifestKey(prefix) := j.marshal(Names(files))];
    assert |Names(files)| == n;
    forall i | 0 <= i < n
      ensures FileOf(after, prefix, z, files[i].rel) == Some(files[i].file.bytes)
    {
      KeysApart(prefix, files[i].rel, files[i].rel);
      assert FileOf(after, prefix, z, files[i].rel) == FileOf(before, prefix, z, files[i].rel);
    }
  }

  /** Exactly when an interrupted upload leaves something a download accepts: the manifest of an earlier upload
      is still there, and each file it names was either written this time or could be read before. */
  lemma InterruptedUpload(objects: Objects, files: seq<Entry>, prefix: string, z: Zstd, j: Json, k: nat)
    requires AllSound(files) && Lossless(z) && k <= |files|
    requires forall a, b :: 0 <= a < b < |files| ==> files[a].rel != files[b].rel
    ensures Complete(AfterPuts(objects, Puts(files, prefix, z, j)[..k]), prefix, z, j) <==>
            var names := ManifestOf(objects, prefix, j);
            names.Some? && forall i :: 0 <= i < |names.value| ==>
              names.value[i] in Names(files)[..k] || FileOf(objects, prefix, z, names.value[i]).Some?
  {
    UploadedSoFar(objects, files, prefix, z, j, k);
    var ops := Puts(files, prefix, z, j);
    var after := AfterPuts(objects, ops[..k]);
    forall name
      ensures FileOf(after, prefix, z, name).Some? <==>
              name in Names(files)[..k] || FileOf(objects, prefix, z, name).Some?
    {
      if i :| 0 <= i < k && files[i].rel == name {
        assert Names(files)[..k][i] == name;
      } else {
        forall i | 0 <= i < k
          ensures ops[..k][i].key != FileKey(prefix, name)
        {
          KeysApart(prefix, files[i].rel, name);
        }
        AfterPutsOther(objects, ops[..k], FileKey(prefix, name));
      }
    }
  }

  /** On a fresh prefix, an upload stopped anywhere before its last put leaves nothing a download accepts. */
  lemma InterruptedUploadIsRefused(objects: Objects, files: seq<Entry>, prefix: string, z: Zstd, j: Json, k: nat)
    requires AllSound(files) && Lossless(z) && k <= |files| && ManifestKey(prefix) !in objects
    requires forall a, b :: 0 <= a < b < |files| ==> files[a].rel != files[b].rel
    ensures !Complete(AfterPuts(objects, Puts(files, prefix, z, j)[..k]), prefix, z, j)
  {
    UploadedSoFar(objects, files, prefix, z, j, k);
  }

  /** On a used prefix it is otherwise: the old manifest is still there, and when it names the same files a
      download goes through and returns the first `k` of them new and the others old. */
  lemma InterruptedReuploadMixes(objects: Objects, files: seq<Entry>, prefix: string, z: Zstd, j: Json, k: nat)
    requires AllSound(files) && Lossless(z) && k <= |files|
    requires forall a, b :: 0 <= a < b < |files| ==> files[a].rel != files[b].rel
    requires Complete(objects, prefix, z, j) && ManifestOf(objects, prefix, j) == Some(Names(files))
    ensures var after := AfterPuts(objects, Puts(files, prefix, z, j)[..k]);
            && Complete(after, prefix, z, j)
            && (forall i :: 0 <= i < k ==> FileOf(after, prefix, z, files[i].rel) == Some(files[i].file.bytes))
            && (forall i :: k <= i < |files| ==>
                  FileOf(after, prefix, z, files[i].rel) == FileOf(objects, prefix, z, files[i].rel))
  {
    UploadedSoFar(objects, files, prefix, z, j, k);
    var after := AfterPuts(objects, Puts(files, prefix, z, j)[..k]);
    forall i | 0 <= i < |files|
      ensures FileOf(after, prefix, z, Names(files)[i]).Some?
    {
      assert FileOf(objects, prefix, z, Names(files)[i]).Some?;
    }
  }
}
