// The staging directory as the worker changes it, file by file.
module Staging {
  import opened Wrappers
  import opened Release

  class Root {
    var disk: Disk
    const digest: Digest
    ghost var calls: seq<Call>

    ghost predicate Valid()
      reads this
    {
      Release.Valid(digest, disk, calls)
    }

    constructor (d: Digest)
      ensures Valid() && digest == d && disk == map[] && calls == []
    {
      disk, digest, calls := map[], d, [];
    }

    // Create a file that is never changed again; the same bytes may be there.
    method ImmutableFile(path: Path, raw: string, io: Io) returns (error: Option<StageError>)
      modifies this`disk
      ensures (disk, error) == PutOnce(old(disk), path, raw, io)
    {
      if io.Refused? { return Some(StageError.Io); }
      if path in disk {
        if disk[path] != raw { return Some(VersionConflict); }
        return None;
      }
      disk := disk[path := ""];
      if io.Torn? {
        disk := disk[path := Prefix(raw, io.written)];
        assert disk == old(disk)[path := Prefix(raw, io.written)];
        return Some(StageError.Io);
      }
      disk := disk[path := raw];
      assert disk == old(disk)[path := raw];
      return None;
    }

    method Remove(temp: Path, dies: bool)
      modifies this`disk
      ensures disk == if dies then old(disk) else old(disk) - {temp}
    {
      if !dies { disk := disk - {temp}; }
    }

    // The call's plan says what the system calls answer and where the process
    // ends; the lock keeps other calls out until then.
    method StageRelease(c: Call) returns (r: Result<string, StageError>)
      requires Valid()
      modifies this
      ensures Valid() && calls == old(calls) + [c]
      ensures (disk, r) == Stage(digest, old(disk), c)
    {
      hide Release.Valid, PutOnce, Permitted;
      ghost var before := disk;
      StageKeeps(digest, disk, calls, c);
      calls := calls + [c];
      if !c.absolute { return Err(Forbidden); }
      if !c.plan.lock.Fine? { return Err(Locked); }
      var sha := digest(c.manifest);
      var error := ImmutableFile(Manifest(sha), c.manifest, c.plan.manifest);
      if error.Some? { return Err(error.value); }
      error := ImmutableFile(Archive(sha), c.archive, c.plan.archive);
      if error.Some? { return Err(error.value); }
      if !c.plan.readOld.Fine? { return Err(StageError.Io); }
      var present := if Current in disk then disk[Current] else "";
      PermittedMeans(digest, present, c);
      if present != c.manifest
         && ((present == "" && c.expected != "") || (present != "" && digest(present) != c.expected)) {
        return Err(Differs);
      }
      r := this.Switch(c);
    }

    method Switch(c: Call) returns (r: Result<string, StageError>)
      modifies this`disk
      ensures (disk, r) == Release.Switch(old(disk), c)
    {
      var temp := Temp(c.temp);
      if c.plan.temp.Refused? || temp in disk { return Err(StageError.Io); }
      disk := disk[temp := ""];
      if c.plan.temp.Torn? {
        disk := disk[temp := Prefix(c.manifest, c.plan.temp.written)];
        assert disk == old(disk)[temp := Prefix(c.manifest, c.plan.temp.written)];
        Remove(temp, c.plan.dies);
        return Err(StageError.Io);
      }
      disk := disk[temp := c.manifest];
      assert disk == old(disk)[temp := c.manifest];
      if !c.plan.rename.Fine? {
        Remove(temp, c.plan.dies);
        return Err(StageError.Io);
      }
      disk := (disk - {temp})[Current := disk[temp]];
      if !c.plan.readBack.Fine? { return Err(StageError.Io); }
      return Ok(disk[Current]);
    }

    lemma PermittedMeans(digest: Digest, present: string, c: Call)
      ensures Permitted(digest, present, c) <==>
                !(present != c.manifest
                  && ((present == "" && c.expected != "") || (present != "" && digest(present) != c.expected)))
    {
    }
  }
}
