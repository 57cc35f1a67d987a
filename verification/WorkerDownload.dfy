/** What a Worker's download of a checkpoint does to its directory, in the terms of the agent and the protocol
    (internal/workerserver/server.go:229-246, internal/snapshotstore/store.go:75-111). */
module WorkerDownload {
  import opened Types
  import opened Bytes
  import opened SparseCodec
  import opened WorkerAgent
  import SnapshotDir

  type Files = map<string, seq<byte>>

  /** How a download of this prefix ends. */
  function FateOf(objects: SnapshotDir.Objects, prefix: string, z: Zstd, j: SnapshotDir.Json): RestoreFate {
    if SnapshotDir.ManifestOf(objects, prefix, j).None? then Untouched
    else if SnapshotDir.Complete(objects, prefix, z, j) then RestoreFate.Complete
    else Partial
  }

  /** What the prefix holds, if all of it can be read. */
  function Content(objects: SnapshotDir.Objects, prefix: string, z: Zstd, j: SnapshotDir.Json): Files
    requires SnapshotDir.Complete(objects, prefix, z, j)
  {
    map name | name in SnapshotDir.ManifestOf(objects, prefix, j).value &&
               SnapshotDir.FileOf(objects, prefix, z, name).Some?
      :: SnapshotDir.FileOf(objects, prefix, z, name).value
  }

  /** A directory with these files is that image, `full` being what the checkpoint wrote: an empty one counts as none,
      and a whole one has every file as it was. */
  ghost predicate Depicts(files: Files, image: Option<Image>, full: Files) {
    && (image.None? <==> files == map[])
    && (image.Some? ==> (image.value.whole <==> files == full))
  }

  /** So is what lies under a prefix. */
  ghost predicate Stands(objects: SnapshotDir.Objects, prefix: string, z: Zstd, j: SnapshotDir.Json, remote: Image,
                         full: Files) {
    remote.whole <==> SnapshotDir.Complete(objects, prefix, z, j) && Content(objects, prefix, z, j) == full
  }

  function At(images: map<Path, Image>, dir: Path): Option<Image> {
    if dir in images then Some(images[dir]) else None
  }

  lemma FetchedIsContent(files: Files, objects: SnapshotDir.Objects, prefix: string, z: Zstd, j: SnapshotDir.Json)
    requires SnapshotDir.Complete(objects, prefix, z, j)
    requires SnapshotDir.Fetched(files, SnapshotDir.ManifestOf(objects, prefix, j).value, objects, prefix, z)
    ensures files == Content(objects, prefix, z, j) && files != map[]
  {
    var names := SnapshotDir.ManifestOf(objects, prefix, j).value;
    assert names[0] in names;
    assert names[0] in files;
  }

  ghost predicate Broken(files: Files, objects: SnapshotDir.Objects, prefix: string, z: Zstd) {
    files != map[] && exists name :: name in files && SnapshotDir.FileOf(objects, prefix, z, name).None?
  }

  lemma BrokenOffIsBroken(files: Files, names: seq<string>, i: nat, objects: SnapshotDir.Objects, prefix: string,
                          z: Zstd)
    requires SnapshotDir.BrokenOff(files, names, i, objects, prefix, z)
    ensures Broken(files, objects, prefix, z)
  {
    assert names[..i + 1][i] == names[i];
    assert names[i] in files;
  }

  /** Downloading into a directory that is absent or empty leaves there what the protocol says for that ending. One that
      broke off leaves files behind, at least one of them unreadable in the store; only if they happen to be the whole
      checkpoint, the failure having come after its last byte, does the protocol think worse of them than they are. */
  method DownloadInto(objects: SnapshotDir.Objects, prefix: string, local: SnapshotDir.LocalDir, z: Zstd,
                      j: SnapshotDir.Json, ghost images: map<Path, Image>, ghost dir: Path, ghost remote: Image,
                      ghost full: Files)
    returns (ok: bool)
    requires local.files == map[] && dir !in images && Stands(objects, prefix, z, j, remote, full)
    modifies local
    ensures var fate := FateOf(objects, prefix, z, j);
            && (ok <==> fate == RestoreFate.Complete)
            && (fate == Partial ==> Broken(local.files, objects, prefix, z))
            && (fate != Partial || local.files != full ==>
                  Depicts(local.files, At(AfterDownload(images, dir, remote, fate), dir), full))
            && (fate == Partial && local.files == full ==>
                  Depicts(local.files, Some(Image(remote.version, true)), full))
  {
    ok := SnapshotDir.DownloadDir(objects, prefix, local, z, j);
    if ok {
      FetchedIsContent(local.files, objects, prefix, z, j);
    } else if SnapshotDir.ManifestOf(objects, prefix, j).Some? {
      ghost var names := SnapshotDir.ManifestOf(objects, prefix, j).value;
      ghost var i :| SnapshotDir.BrokenOff(local.files, names, i, objects, prefix, z);
      BrokenOffIsBroken(local.files, names, i, objects, prefix, z);
    }
  }
}
