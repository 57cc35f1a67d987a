/** One Worker agent: the slot it guards and the checkpoint directories on its disk
    (internal/workerserver/server.go). */
module WorkerAgent {
  import opened Types

  /** Who may hold a slot: a sandbox, or one boot of the golden template, named by a fresh uuid. */
  datatype Occupant = Box(id: string) | GoldenBoot(boot: int)

  /** A checkpoint image: how many successful checkpoints it reflects, and whether every file is there. */
  datatype Image = Image(version: nat, whole: bool)

  predicate MayClaim(alive: set<Occupant>, o: Occupant) {
    alive == {} || o in alive
  }

  /** How a checkpoint request ends: done; broken, the image directory being as it was, or cleared, or holding part of
      an image; or taken, after which the upload failed with the slot still held - before its first put, or for want
      of a store (Unsent), or in the middle (Torn). */
  datatype CheckpointFate = Done | Broken(left: Remains) | Unsent | Torn

  datatype Remains = AsBefore | Cleared | Part

  /** How far a restore request gets once the slot is claimed. */
  datatype RestoreFate = Started | Untouched | Wiped | Partial | Complete

  class Agent {
    var alive: set<Occupant>
    var images: map<Path, Image>

    ghost predicate Valid()
      reads this
    {
      forall a, b :: a in alive && b in alive ==> a == b
    }

    constructor ()
      ensures Valid() && alive == {} && images == map[]
    {
      alive, images := {}, map[];
    }

    /** At most one sandbox: a claim succeeds on an empty slot, or for the sandbox already in it. */
    method Claim(o: Occupant) returns (ok: bool)
      requires Valid()
      modifies this`alive
      ensures Valid()
      ensures ok <==> MayClaim(old(alive), o)
      ensures ok ==> alive == {o}
      ensures !ok ==> alive == old(alive) && o !in alive
    {
      if |alive| > 0 {
        if o !in alive {
          return false;
        }
      }
      alive := alive + {o};
      return true;
    }

    method Release(o: Occupant)
      requires Valid()
      modifies this`alive
      ensures Valid()
      ensures alive == old(alive) - {o}
    {
      alive := alive - {o};
    }

    method HandleBoot(o: Occupant, booted: bool) returns (ok: bool)
      requires Valid()
      modifies this`alive
      ensures Valid()
      ensures ok <==> MayClaim(old(alive), o) && booted
      ensures alive == if ok then {o} else if MayClaim(old(alive), o) then {} else old(alive)
    {
      ok := Claim(o);
      if ok && !booted {
        Release(o);
        ok := false;
      }
    }

    /** The slot is given back only by a checkpoint that succeeds as a whole. */
    method HandleCheckpoint(o: Occupant, dir: Path, taken: nat, fate: CheckpointFate) returns (ok: bool)
      requires Valid()
      modifies this
      ensures Valid()
      ensures ok <==> fate == Done
      ensures alive == if ok then old(alive) - {o} else old(alive)
      ensures images == AfterCheckpoint(old(images), dir, taken, fate)
    {
      if fate == Broken(AsBefore) {
        return false;
      }
      images := images - {dir};
      if fate.Broken? {
        if fate.left == Part {
          images := images[dir := Image(taken, false)];
        }
        return false;
      }
      images := images[dir := Image(taken, true)];
      if fate != Done {
        return false;
      }
      Release(o);
      return true;
    }

    /** A directory that is already there suppresses the download whatever it holds; `remote`
        is the image behind the object key, if one was given and the store is configured. */
    method HandleRestore(o: Occupant, dir: Path, remote: Option<Image>, fate: RestoreFate)
      returns (restored: Option<Image>)
      requires Valid()
      modifies this
      ensures Valid()
      ensures restored.Some? <==>
                MayClaim(old(alive), o) && fate == Started && (dir in old(images) || remote.Some?)
      ensures restored.Some? ==>
                restored.value == if dir in old(images) then old(images)[dir] else remote.value
      ensures alive == if restored.Some? then {o}
                       else if MayClaim(old(alive), o) then {} else old(alive)
      ensures images == if !MayClaim(old(alive), o) || dir in old(images) || remote.None? then old(images)
                        else AfterDownload(old(images), dir, remote.value, fate)
    {
      var claimed := Claim(o);
      if !claimed {
        return None;
      }
      if dir !in images {
        if remote.None? {
          Release(o);
          return None;
        }
        images := AfterDownload(images, dir, remote.value, fate);
        if fate != Started && fate != Complete {
          Release(o);
          return None;
        }
      }
      if fate != Started {
        Release(o);
        return None;
      }
      return Some(images[dir]);
    }

    method HandleDelete(o: Occupant)
      requires Valid()
      modifies this`alive
      ensures Valid()
      ensures alive == old(alive) - {o}
    {
      Release(o);
    }
  }

  /** The directories after a checkpoint request: cleared first, then written, in whole or in part. */
  function AfterCheckpoint(images: map<Path, Image>, dir: Path, taken: nat, fate: CheckpointFate): map<Path, Image> {
    if fate == Broken(AsBefore) then images
    else if fate == Broken(Cleared) then images - {dir}
    else images[dir := Image(taken, !fate.Broken?)]
  }

  /** Only a checkpoint that was taken, uploaded or not, leaves a whole image; the other directories never change. */
  lemma CheckpointLeaves(images: map<Path, Image>, dir: Path, taken: nat, fate: CheckpointFate)
    ensures var after := AfterCheckpoint(images, dir, taken, fate);
            && (fate in {Done, Unsent, Torn} ==> dir in after && after[dir] == Image(taken, true))
            && (fate == Broken(Part) ==> dir in after && after[dir] == Image(taken, false))
            && (fate == Broken(Cleared) ==> dir !in after)
            && (fate == Broken(AsBefore) ==> after == images)
            && forall d :: d != dir ==> (d in after <==> d in images) && (d in after ==> after[d] == images[d])
  {
  }

  /** A download that was finished leaves the image as it is in the store, one that broke off part of it. */
  lemma DownloadLeaves(images: map<Path, Image>, dir: Path, remote: Image, fate: RestoreFate)
    ensures var after := AfterDownload(images, dir, remote, fate);
            && (fate in {Started, Complete} ==> dir in after && after[dir] == remote)
            && (fate == Partial ==> dir in after && after[dir] == Image(remote.version, false))
            && (fate == Wiped ==> dir !in after)
            && (fate == Untouched ==> after == images)
            && forall d :: d != dir ==> (d in after <==> d in images) && (d in after ==> after[d] == images[d])
  {
  }

  /** The directory a download leaves behind: untouched when the manifest is unavailable, wiped when
      the first file cannot be created, part of the files when a later one fails. */
  function AfterDownload(images: map<Path, Image>, dir: Path, remote: Image, fate: RestoreFate): map<Path, Image> {
    match fate
    case Untouched => images
    case Wiped => images - {dir}
    case Partial => images[dir := Image(remote.version, false)]
    case _ => images[dir := remote]
  }
}
