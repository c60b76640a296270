// Staging a release on disk: immutable release files, then an atomic switch
// of current.json, with the process able to stop at every step.
module Release {
  import opened Wrappers

  // The files below the staging root; a release lives in the directory named
  // by the digest of its manifest.
  datatype Path = Manifest(sha: string) | Archive(sha: string) | Current | Temp(n: nat)

  type Disk = map<Path, string>

  // What becomes of one step that touches the disk. A write that is cut short,
  // by an error or by the end of the process, leaves the bytes written so far.
  datatype Io = Fine | Refused | Torn(written: nat)

  // Where a call stops, and whether the process ends there.
  datatype Plan = Plan(lock: Io, manifest: Io, archive: Io, readOld: Io, temp: Io, rename: Io, readBack: Io, dies: bool)

  const SMOOTH := Plan(Fine, Fine, Fine, Fine, Fine, Fine, Fine, false)

  datatype Call = Call(absolute: bool, manifest: string, archive: string, expected: string, temp: nat, plan: Plan)

  datatype StageError = Forbidden | Locked | VersionConflict | Io | Differs

  type Digest = string -> string

  function Prefix(s: string, n: nat): string { if n <= |s| then s[..n] else s }

  // ------------------------------------------------------------ immutableFile

  function PutOnce(disk: Disk, path: Path, raw: string, io: Io): (Disk, Option<StageError>) {
    if io.Refused? then (disk, Some(StageError.Io))
    else if path in disk then (disk, if disk[path] == raw then None else Some(VersionConflict))
    else if io.Torn? then (disk[path := Prefix(raw, io.written)], Some(StageError.Io))
    else (disk[path := raw], None)
  }

  // ------------------------------------------------------------ stageRelease

  function Old(disk: Disk): string { if Current in disk then disk[Current] else "" }

  predicate Permitted(digest: Digest, present: string, c: Call) {
    || present == c.manifest
    || (present == "" && c.expected == "")
    || (present != "" && digest(present) == c.expected)
  }

  // The temporary file is removed unless the process ends first.
  function Abandon(disk: Disk, c: Call): Disk { if c.plan.dies then disk else disk - {Temp(c.temp)} }

  function Switch(disk: Disk, c: Call): (Disk, Result<string, StageError>) {
    if c.plan.temp.Refused? || Temp(c.temp) in disk then (disk, Err(StageError.Io))
    else if c.plan.temp.Torn? then
      (Abandon(disk[Temp(c.temp) := Prefix(c.manifest, c.plan.temp.written)], c), Err(StageError.Io))
    else
      var full := disk[Temp(c.temp) := c.manifest];
      if !c.plan.rename.Fine? then (Abandon(full, c), Err(StageError.Io))
      else
        var switched := (full - {Temp(c.temp)})[Current := c.manifest];
        (switched, if c.plan.readBack.Fine? then Ok(switched[Current]) else Err(StageError.Io))
  }

  function Stage(digest: Digest, disk: Disk, c: Call): (Disk, Result<string, StageError>) {
    if !c.absolute then (disk, Err(Forbidden))
    else if !c.plan.lock.Fine? then (disk, Err(Locked))
    else
      var sha := digest(c.manifest);
      var (one, first) := PutOnce(disk, Manifest(sha), c.manifest, c.plan.manifest);
      if first.Some? then (one, Err(first.value))
      else
        var (two, second) := PutOnce(one, Archive(sha), c.archive, c.plan.archive);
        if second.Some? then (two, Err(second.value))
        else if !c.plan.readOld.Fine? then (two, Err(StageError.Io))
        else if !Permitted(digest, Old(two), c) then (two, Err(Differs))
        else Switch(two, c)
  }

  function StageAll(digest: Digest, disk: Disk, calls: seq<Call>): Disk {
    if calls == [] then disk
    else Stage(digest, StageAll(digest, disk, calls[..|calls| - 1]), calls[|calls| - 1]).0
  }

  // ---------------------------------------------------------------- invariant

  predicate Stored(disk: Disk, path: Path, raw: string) { path in disk && disk[path] == raw }

  // The release a call stages is on disk whole.
  predicate Whole(digest: Digest, disk: Disk, c: Call) {
    Stored(disk, Manifest(digest(c.manifest)), c.manifest) && Stored(disk, Archive(digest(c.manifest)), c.archive)
  }

  // current.json is the manifest of a release that was staged whole.
  predicate Valid(digest: Digest, disk: Disk, calls: seq<Call>) {
    Current in disk ==> exists c | c in calls :: disk[Current] == c.manifest && Whole(digest, disk, c)
  }

  predicate Kept(before: Disk, after: Disk) {
    forall path | path in before && (path.Manifest? || path.Archive?) :: path in after && after[path] == before[path]
  }

  lemma {:induction false} PutOnceKeeps(disk: Disk, path: Path, raw: string, io: Io)
    ensures var (after, error) := PutOnce(disk, path, raw, io);
            && (forall p | p in disk :: p in after && after[p] == disk[p])
            && (forall p | p in after && p != path :: p in disk)
            && (error.None? ==> Stored(after, path, raw))
  {
  }

  lemma {:induction false} SwitchKeeps(disk: Disk, c: Call)
    ensures var (after, r) := Switch(disk, c);
            && Kept(disk, after)
            && (r.Ok? ==> r.value == c.manifest && Stored(after, Current, c.manifest))
            && (Old(after) != Old(disk) ==> Stored(after, Current, c.manifest))
            && (Current in after && !(Current in disk && disk[Current] == after[Current]) ==>
                  Stored(after, Current, c.manifest))
            && (Current in disk ==> Current in after)
  {
  }

  // One call, wherever it stops: release files stay as they are, and
  // current.json changes only to a whole release and only as permitted.
  lemma {:induction false} StageSafe(digest: Digest, disk: Disk, c: Call)
    ensures var (after, r) := Stage(digest, disk, c);
            && Kept(disk, after)
            && (Current in disk ==> Current in after)
            && (Current in after && !(Current in disk && disk[Current] == after[Current]) ==>
                  after[Current] == c.manifest && Whole(digest, after, c) && Permitted(digest, Old(disk), c))
            && (r.Ok? ==> r.value == c.manifest && Stored(after, Current, c.manifest) && Whole(digest, after, c))
  {
    hide PutOnce, Switch, Permitted;
    var sha := digest(c.manifest);
    PutOnceKeeps(disk, Manifest(sha), c.manifest, c.plan.manifest);
    var (one, first) := PutOnce(disk, Manifest(sha), c.manifest, c.plan.manifest);
    PutOnceKeeps(one, Archive(sha), c.archive, c.plan.archive);
    var (two, second) := PutOnce(one, Archive(sha), c.archive, c.plan.archive);
    assert Old(two) == Old(disk);
    SwitchKeeps(two, c);
  }

  // At every crash point of every sequence of calls current.json names a whole release.
  lemma {:induction false} StageKeeps(digest: Digest, disk: Disk, calls: seq<Call>, c: Call)
    requires Valid(digest, disk, calls)
    ensures Valid(digest, Stage(digest, disk, c).0, calls + [c])
  {
    hide Stage, Permitted;
    StageSafe(digest, disk, c);
    var after := Stage(digest, disk, c).0;
    if Current in after {
      if Current in disk && disk[Current] == after[Current] {
        var d :| d in calls && disk[Current] == d.manifest && Whole(digest, disk, d);
        assert d in calls + [c] && Whole(digest, after, d);
      } else {
        assert c in calls + [c];
      }
    }
  }

  lemma {:induction false} AllKeep(digest: Digest, calls: seq<Call>)
    ensures Valid(digest, StageAll(digest, map[], calls), calls)
  {
    hide Stage;
    if calls != [] {
      var init := calls[..|calls| - 1];
      AllKeep(digest, init);
      StageKeeps(digest, StageAll(digest, map[], init), init, calls[|calls| - 1]);
      assert calls == init + [calls[|calls| - 1]];
    }
  }

  lemma {:induction false} ReleasesStay(digest: Digest, disk: Disk, calls: seq<Call>)
    ensures Kept(disk, StageAll(digest, disk, calls))
  {
    hide Stage;
    if calls != [] {
      ReleasesStay(digest, disk, calls[..|calls| - 1]);
      StageSafe(digest, StageAll(digest, disk, calls[..|calls| - 1]), calls[|calls| - 1]);
    }
  }

  // ------------------------------------------------------------ repeated calls

  predicate SameRelease(a: Call, b: Call) { a.manifest == b.manifest && a.archive == b.archive }

  // Repeating a call that succeeded changes nothing: wherever the repetition
  // stops, whatever predecessor it expects, only a temporary file can be left.
  lemma {:induction false} RepeatChangesNothing(digest: Digest, disk: Disk, c: Call, again: Call)
    requires Stage(digest, disk, c).1.Ok? && SameRelease(c, again)
    ensures var once := Stage(digest, disk, c).0;
            var twice := Stage(digest, once, again).0;
            && (forall path :: path in once && !path.Temp? <==> path in twice && !path.Temp?)
            && (forall path | path in once && !path.Temp? :: twice[path] == once[path])
            && (again.absolute && again.plan == SMOOTH && Temp(again.temp) !in once ==>
                  twice == once && Stage(digest, once, again).1 == Ok(c.manifest))
  {
    hide Stage, Switch;
    StageSafe(digest, disk, c);
    var once := Stage(digest, disk, c).0;
    StoredAlready(digest, once, again);
    SwitchSame(once, again);
  }

  lemma {:induction false} StoredAlready(digest: Digest, disk: Disk, c: Call)
    requires Whole(digest, disk, c) && Stored(disk, Current, c.manifest)
    ensures Stage(digest, disk, c).0 == disk || Stage(digest, disk, c) == Switch(disk, c)
    ensures c.absolute && c.plan == SMOOTH ==> Stage(digest, disk, c) == Switch(disk, c)
  {
    hide Switch;
  }

  lemma {:induction false} SwitchSame(disk: Disk, c: Call)
    requires Stored(disk, Current, c.manifest)
    ensures var (after, r) := Switch(disk, c);
            && (forall path :: path in disk && !path.Temp? <==> path in after && !path.Temp?)
            && (forall path | path in disk && !path.Temp? :: after[path] == disk[path])
            && (c.plan == SMOOTH && Temp(c.temp) !in disk ==> after == disk && r == Ok(c.manifest))
  {
  }

  // ------------------------------------------------- when a call can succeed

  // A file of this release is there already with other bytes.
  predicate Spoilt(digest: Digest, disk: Disk, c: Call) {
    var sha := digest(c.manifest);
    || (Manifest(sha) in disk && disk[Manifest(sha)] != c.manifest)
    || (Archive(sha) in disk && disk[Archive(sha)] != c.archive)
  }

  // With nothing going wrong, a call succeeds exactly when no file of its
  // release is spoilt and its contract names the current release.
  lemma {:induction false} SmoothSucceedsIff(digest: Digest, disk: Disk, c: Call)
    requires c.absolute && c.plan == SMOOTH && Temp(c.temp) !in disk
    ensures Stage(digest, disk, c).1.Ok? <==> !Spoilt(digest, disk, c) && Permitted(digest, Old(disk), c)
  {
    hide Permitted;
  }

  // A spoilt release stays so: no later call can ever stage it.
  lemma {:induction false} SpoiltForever(digest: Digest, disk: Disk, calls: seq<Call>, c: Call)
    requires Spoilt(digest, disk, c)
    ensures Stage(digest, StageAll(digest, disk, calls), c).1.Err?
  {
    hide Permitted, Switch, StageAll;
    ReleasesStay(digest, disk, calls);
  }

  // A write of the manifest cut short on an empty disk does that to its own
  // release: the same call, with nothing going wrong, then always fails.
  lemma {:induction false} TornReleaseIsLost(digest: Digest, c: Call, written: nat, calls: seq<Call>, again: Call)
    requires c.absolute && c.plan == SMOOTH.(manifest := Torn(written)) && written < |c.manifest|
    requires SameRelease(c, again)
    ensures Stage(digest, StageAll(digest, Stage(digest, map[], c).0, calls), again).1.Err?
  {
    var torn := Stage(digest, map[], c).0;
    assert |torn[Manifest(digest(c.manifest))]| == written;
    SpoiltForever(digest, torn, calls, again);
  }

  // ------------------------------------------------ who may replace a release

  // Without an absolute root, or while another call holds the lock, nothing on
  // disk is touched.
  lemma LockedOut(digest: Digest, disk: Disk, c: Call)
    requires !c.absolute || !c.plan.lock.Fine?
    ensures Stage(digest, disk, c) == (disk, Err(if c.absolute then Locked else Forbidden))
  {
  }

  // A call succeeds only if it names the present release by its digest, or is
  // that release, or names none where there is none; and nothing else keeps a
  // call that nothing disturbs from succeeding.
  lemma {:induction false} NamesPresent(digest: Digest, disk: Disk, c: Call)
    ensures var present := if Current in disk then disk[Current] else "";
            var named := present == c.manifest
                         || if present == "" then c.expected == "" else digest(present) == c.expected;
            && (Stage(digest, disk, c).1.Ok? ==> named && c.absolute && c.plan.lock.Fine?)
            && (c.absolute && c.plan == SMOOTH && Temp(c.temp) !in disk && !Spoilt(digest, disk, c) ==>
                  (Stage(digest, disk, c).1.Ok? <==> named))
  {
    hide Spoilt, Switch;
    if c.absolute && c.plan == SMOOTH && Temp(c.temp) !in disk { SmoothSucceedsIff(digest, disk, c); }
    PutTwo(digest, disk, c);
  }

  lemma {:induction false} PutTwo(digest: Digest, disk: Disk, c: Call)
    ensures Stage(digest, disk, c).1.Ok? ==> Permitted(digest, Old(disk), c)
  {
    hide Switch, Permitted;
  }

  // Of two calls for different releases that name the same predecessor, only
  // the first can succeed: the second finds the first one's release.
  lemma {:induction false} NoLostUpdate(digest: Digest, disk: Disk, first: Call, second: Call)
    requires Stage(digest, disk, first).1.Ok? && first.manifest != "" && second.manifest != first.manifest
    requires second.expected != digest(first.manifest)
    ensures var (after, _) := Stage(digest, disk, first);
            && Stored(after, Current, first.manifest) && Stage(digest, after, second).1.Err?
            && Stored(Stage(digest, after, second).0, Current, first.manifest)
  {
    hide Stage, Spoilt, Whole, Kept;
    StageSafe(digest, disk, first);
    var after := Stage(digest, disk, first).0;
    StageSafe(digest, after, second);
    NamesPresent(digest, after, second);
  }

  // A call that ends by itself leaves no temporary file of its own.
  lemma {:induction false} NoLitter(digest: Digest, disk: Disk, c: Call)
    requires !c.plan.dies
    ensures forall n :: Temp(n) in Stage(digest, disk, c).0 <==> Temp(n) in disk
  {
    hide Permitted;
  }
}
