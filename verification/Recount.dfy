// Repairing the line counts of unified-diff hunk headers, and the check that a
// repair changed nothing else.
module Recount {
  import opened Wrappers
  import opened Text
  import opened Hunks

  datatype RecountError = NotTerminated | InvalidContent | NoHunks

  // The lines of a patch: its last element is what follows the last newline
  // and is never looked at.
  type Lines = seq<string>

  // A line that cannot belong to the hunk before it.
  predicate Breaks(lines: Lines, j: nat)
    requires j + 1 < |lines|
  {
    || IsHeader(lines[j])
    || HasPrefix(lines[j], "diff --git ")
    || (HasPrefix(lines[j], "--- ") && j + 2 < |lines| && HasPrefix(lines[j + 1], "+++ "))
  }

  function BodyEnd(lines: Lines, j: nat): (e: nat)
    requires j < |lines|
    ensures j <= e < |lines|
    decreases |lines| - j
  {
    if j + 1 >= |lines| || Breaks(lines, j) then j else BodyEnd(lines, j + 1)
  }

  // It is the first line at or after j that breaks the body, if any does.
  lemma {:induction false} BodyEndIsFirst(lines: Lines, j: nat)
    requires j < |lines|
    ensures forall k | j <= k < BodyEnd(lines, j) :: !Breaks(lines, k)
    ensures BodyEnd(lines, j) + 1 < |lines| ==> Breaks(lines, BodyEnd(lines, j))
    decreases |lines| - j
  {
    hide Breaks;
    if j + 1 < |lines| && !Breaks(lines, j) { BodyEndIsFirst(lines, j + 1); }
  }

  predicate OnOldSide(line: string) { HasPrefix(line, " ") || HasPrefix(line, "-") }

  predicate OnNewSide(line: string) { HasPrefix(line, " ") || HasPrefix(line, "+") }

  predicate Content(line: string) { OnOldSide(line) || OnNewSide(line) || line == MARKER }

  function OldCount(lines: Lines, from: nat, to: nat): nat
    requires from <= to <= |lines|
  {
    if from == to then 0 else OldCount(lines, from, to - 1) + if OnOldSide(lines[to - 1]) then 1 else 0
  }

  function NewCount(lines: Lines, from: nat, to: nat): nat
    requires from <= to <= |lines|
  {
    if from == to then 0 else NewCount(lines, from, to - 1) + if OnNewSide(lines[to - 1]) then 1 else 0
  }

  predicate HunkAt(lines: Lines, i: nat) {
    i + 1 < |lines| && IsHeader(lines[i])
  }

  predicate BodyValid(lines: Lines, i: nat)
    requires HunkAt(lines, i)
  {
    forall j | i < j < BodyEnd(lines, i + 1) :: Content(lines[j])
  }

  // The counts of the body of the hunk at i, if all of it is diff content.
  function BodyCounts(lines: Lines, i: nat): Option<(nat, nat)>
    requires HunkAt(lines, i)
  {
    var end := BodyEnd(lines, i + 1);
    if BodyValid(lines, i) then Some((OldCount(lines, i + 1, end), NewCount(lines, i + 1, end))) else None
  }

  predicate HasHunk(lines: Lines) { exists i | 0 <= i < |lines| :: HunkAt(lines, i) }

  predicate AllValid(lines: Lines) { forall i | 0 <= i < |lines| && HunkAt(lines, i) :: BodyValid(lines, i) }

  function RecountAt(lines: Lines, i: nat): string
    requires i < |lines|
  {
    if HunkAt(lines, i) then
      var end := BodyEnd(lines, i + 1);
      HeaderText(WithCounts(ParseHeader(lines[i]).value, OldCount(lines, i + 1, end), NewCount(lines, i + 1, end)))
    else lines[i]
  }

  function Recounted(lines: Lines): Lines {
    seq(|lines|, i requires 0 <= i < |lines| => RecountAt(lines, i))
  }

  lemma FlatHeader(h: Header, m: nat, n: nat)
    ensures "@@ -" + h.oldStart + "," + Itoa(m) + " +" + h.newStart + "," + Itoa(n) + " @@" + h.tail
            == HeaderText(WithCounts(h, m, n))
  {
    hide Itoa;
    var m1, n1 := "," + Itoa(m), "," + Itoa(n);
    var front := "@@ -" + h.oldStart;
    Regroup(front + "," + Itoa(m) + " +" + h.newStart, ",", Itoa(n), " @@" + h.tail);
    Regroup(front, ",", Itoa(m), " +" + (h.newStart + (n1 + (" @@" + h.tail))));
    Associate(front + m1 + " +" + h.newStart + n1, " @@", h.tail);
    Associate(front + m1, " +", h.newStart);
    Associate(front + m1, " +" + h.newStart, n1 + (" @@" + h.tail));
    Associate(" +", h.newStart, n1 + (" @@" + h.tail));
    Associate("@@ -", h.oldStart, m1 + (" +" + (h.newStart + (n1 + (" @@" + h.tail)))));
  }

  lemma Associate(a: string, b: string, c: string)
    ensures a + b + c == a + (b + c)
  {
  }

  lemma Regroup(a: string, b: string, c: string, d: string)
    ensures a + b + c == a + (b + c) && a + b + c + d == a + (b + c + d)
  {
    Associate(a, b, c);
    Associate(a, b + c, d);
  }

  // The counts of every recognized header are rewritten in place.
  method RecountHunks(patch: string) returns (r: Result<string, RecountError>)
    ensures r.Ok? <==> HasSuffix(patch, "\n") && AllValid(Split(patch)) && HasHunk(Split(patch))
    ensures r.Ok? ==> r.value == Join(Recounted(Split(patch)))
    ensures r == Err(NotTerminated) <==> !HasSuffix(patch, "\n")
    ensures r == Err(InvalidContent) <==> HasSuffix(patch, "\n") && !AllValid(Split(patch))
  {
    hide ParseHeader, BodyEnd, Content, HeaderText, Breaks, OldCount, NewCount, Split;
    if !HasSuffix(patch, "\n") { return Err(NotTerminated); }
    var lines := Split(patch);
    ghost var before := lines;
    var hunks := 0;
    for i := 0 to |lines| - 1
      invariant |lines| == |before|
      invariant forall k | 0 <= k < i :: lines[k] == RecountAt(before, k)
      invariant forall k | i <= k < |lines| :: lines[k] == before[k]
      invariant forall k | 0 <= k < i && HunkAt(before, k) :: BodyValid(before, k)
      invariant hunks >= 0 && (hunks > 0 <==> exists k | 0 <= k < i :: HunkAt(before, k))
    {
      var header := ParseHeader(lines[i]);
      if header.Some? {
        hunks := hunks + 1;
        var counted := CountBody(lines, i);
        SameHunk(lines, before, i);
        if counted.None? { return Err(InvalidContent); }
        var (oldCount, newCount) := counted.value;
        FlatHeader(header.value, oldCount, newCount);
        lines := lines[i := "@@ -" + header.value.oldStart + "," + Itoa(oldCount) + " +" + header.value.newStart
                            + "," + Itoa(newCount) + " @@" + header.value.tail];
        assert HunkAt(before, i) && lines[i] == RecountAt(before, i);
      }
    }
    if hunks == 0 { return Err(NoHunks); }
    assert lines == Recounted(before);
    return Ok(Join(lines));
  }

  // The inner loop: the body of the hunk at i, up to the first line that
  // cannot belong to it.
  method CountBody(lines: Lines, i: nat) returns (r: Option<(nat, nat)>)
    requires HunkAt(lines, i)
    ensures r == BodyCounts(lines, i)
  {
    hide ParseHeader;
    var oldCount, newCount, j := 0, 0, i + 1;
    while j < |lines| - 1
      invariant i < j < |lines|
      invariant BodyEnd(lines, i + 1) == BodyEnd(lines, j)
      invariant oldCount == OldCount(lines, i + 1, j) && newCount == NewCount(lines, i + 1, j)
      invariant forall k | i < k < j :: Content(lines[k])
    {
      var line := lines[j];
      if IsHeader(line) || HasPrefix(line, "diff --git ")
         || (HasPrefix(line, "--- ") && j + 1 < |lines| - 1 && HasPrefix(lines[j + 1], "+++ ")) {
        break;
      }
      if HasPrefix(line, " ") {
        oldCount, newCount := oldCount + 1, newCount + 1;
      } else if HasPrefix(line, "+") {
        newCount := newCount + 1;
      } else if HasPrefix(line, "-") {
        oldCount := oldCount + 1;
      } else if line != MARKER {
        assert !Content(lines[j]);
        return None;
      }
      j := j + 1;
    }
    return Some((oldCount, newCount));
  }

  // Counting the hunk at i looks at no line before i.
  lemma {:induction false} SameHunk(a: Lines, b: Lines, i: nat)
    requires |a| == |b| && HunkAt(a, i) && forall k | i <= k < |a| :: a[k] == b[k]
    ensures HunkAt(b, i) && BodyCounts(a, i) == BodyCounts(b, i)
  {
    hide BodyEnd, IsHeader, Content;
    SameEnd(a, b, i + 1);
    SameCounts(a, b, i + 1, BodyEnd(a, i + 1));
  }

  lemma {:induction false} SameEnd(a: Lines, b: Lines, j: nat)
    requires |a| == |b| && j < |a| && forall k | j <= k < |a| :: a[k] == b[k]
    ensures BodyEnd(a, j) == BodyEnd(b, j)
    decreases |a| - j
  {
    hide ParseHeader;
    if j + 1 < |a| { SameEnd(a, b, j + 1); }
  }

  lemma {:induction false} SameCounts(a: Lines, b: Lines, from: nat, to: nat)
    requires from <= to <= |a| && to <= |b| && forall k | from <= k < to :: a[k] == b[k]
    ensures OldCount(a, from, to) == OldCount(b, from, to) && NewCount(a, from, to) == NewCount(b, from, to)
  {
    if from < to { SameCounts(a, b, from, to - 1); }
  }

  // ------------------------------------------------- what recounting preserves

  lemma {:induction false} HeaderLine(line: string)
    requires IsHeader(line)
    ensures !HasPrefix(line, "diff --git ") && !HasPrefix(line, "--- ") && !HasPrefix(line, "+++ ")
  {
    assert line[0] == '@';
  }

  // Only recognized headers change, and of them only the counts.
  lemma {:induction false} OnlyCountsChange(lines: Lines, i: nat)
    requires PlainLines(lines) && i < |lines|
    ensures !HunkAt(lines, i) ==> Recounted(lines)[i] == lines[i]
    ensures HunkAt(lines, i) ==>
              var end := BodyEnd(lines, i + 1);
              ParseHeader(Recounted(lines)[i])
              == Some(WithCounts(ParseHeader(lines[i]).value, OldCount(lines, i + 1, end), NewCount(lines, i + 1, end)))
    ensures IsHeader(Recounted(lines)[i]) == IsHeader(lines[i]) && NoNewline(Recounted(lines)[i])
  {
    if HunkAt(lines, i) {
      var end := BodyEnd(lines, i + 1);
      RewrittenHeader(lines[i], OldCount(lines, i + 1, end), NewCount(lines, i + 1, end));
    }
  }

  lemma {:induction false} SameBreaks(lines: Lines, j: nat)
    requires PlainLines(lines) && j + 1 < |lines|
    ensures Breaks(Recounted(lines), j) == Breaks(lines, j)
  {
    OnlyCountsChange(lines, j);
    OnlyCountsChange(lines, j + 1);
    hide IsHeader, WithCounts, RecountAt;
    if IsHeader(lines[j]) {
    } else if IsHeader(lines[j + 1]) {
      HeaderLine(lines[j + 1]);
      HeaderLine(Recounted(lines)[j + 1]);
    }
  }

  lemma {:induction false} SameBodyEnd(lines: Lines, j: nat)
    requires PlainLines(lines) && j < |lines|
    ensures BodyEnd(Recounted(lines), j) == BodyEnd(lines, j)
    decreases |lines| - j
  {
    hide Recounted, Breaks;
    RecountedLength(lines);
    if j + 1 < |lines| {
      SameBreaks(lines, j);
      SameBodyEnd(lines, j + 1);
    }
  }

  lemma RecountedLength(lines: Lines)
    ensures |Recounted(lines)| == |lines|
  {
  }

  // The body of a hunk holds no header, so its lines are as they were.
  lemma {:induction false} SameBody(lines: Lines, i: nat)
    requires PlainLines(lines) && HunkAt(lines, i)
    ensures var end := BodyEnd(lines, i + 1);
            && BodyEnd(Recounted(lines), i + 1) == end
            && OldCount(Recounted(lines), i + 1, end) == OldCount(lines, i + 1, end)
            && NewCount(Recounted(lines), i + 1, end) == NewCount(lines, i + 1, end)
            && forall j | i < j < end :: Recounted(lines)[j] == lines[j]
  {
    SameBodyEnd(lines, i + 1);
    BodyEndIsFirst(lines, i + 1);
    var end := BodyEnd(lines, i + 1);
    forall j | i < j < end ensures Recounted(lines)[j] == lines[j] {
      assert !Breaks(lines, j);
    }
    SameCounts(Recounted(lines), lines, i + 1, end);
  }

  // Recounting twice is recounting once, and what was valid stays valid.
  lemma {:induction false} RecountIdempotent(lines: Lines)
    requires PlainLines(lines)
    ensures Recounted(Recounted(lines)) == Recounted(lines)
    ensures HasHunk(lines) ==> HasHunk(Recounted(lines))
    ensures AllValid(lines) ==> AllValid(Recounted(lines))
  {
    var once := Recounted(lines);
    forall i | 0 <= i < |lines|
      ensures Recounted(once)[i] == once[i] && HunkAt(once, i) == HunkAt(lines, i)
      ensures HunkAt(lines, i) && BodyValid(lines, i) ==> BodyValid(once, i)
    {
      OnlyCountsChange(lines, i);
      if HunkAt(lines, i) { SameBody(lines, i); }
    }
  }

  // On the patch text: success leaves a text that succeeds with itself.
  lemma {:induction false} RecountTwice(patch: string)
    requires HasSuffix(patch, "\n") && AllValid(Split(patch)) && HasHunk(Split(patch))
    ensures var once := Join(Recounted(Split(patch)));
            && HasSuffix(once, "\n") && AllValid(Split(once)) && HasHunk(Split(once))
            && Join(Recounted(Split(once))) == once
  {
    hide ParseHeader, Breaks, AllValid, HasHunk, RecountAt, BodyValid, HunkAt, Split, Join;
    var lines := Split(patch);
    RecountIdempotent(lines);
    forall i | 0 <= i < |lines| ensures NoNewline(Recounted(lines)[i]) { OnlyCountsChange(lines, i); }
    SplitJoin(Recounted(lines));
    LastLineEmpty(patch);
    assert Recounted(lines)[|lines| - 1] == "" by { OnlyCountsChange(lines, |lines| - 1); }
    EndsInNewline(Recounted(lines));
  }

  lemma {:induction false} LastLineEmpty(s: string)
    requires HasSuffix(s, "\n")
    ensures |Split(s)| >= 2 && Split(s)[|Split(s)| - 1] == ""
  {
    var rest := Split(s[1..]);
    if |s| > 1 {
      assert s[1..][|s[1..]| - 1..] == "\n";
      LastLineEmpty(s[1..]);
      if s[0] != '\n' { assert Split(s)[|rest| - 1] == rest[1..][|rest| - 2]; }
    }
  }

  lemma {:induction false} EndsInNewline(lines: Lines)
    requires |lines| >= 2 && lines[|lines| - 1] == ""
    ensures HasSuffix(Join(lines), "\n")
  {
    if |lines| > 2 { EndsInNewline(lines[1..]); }
  }

  // ------------------------------------------------------ the check of a repair

  predicate SameButCounts(a: string, b: string) {
    && IsHeader(a) && IsHeader(b)
    && var h, k := ParseHeader(a).value, ParseHeader(b).value;
       h.oldStart == k.oldStart && h.newStart == k.newStart && h.tail == k.tail
  }

  predicate CountsOnly(before: string, after: string) {
    var prior, next := Split(before), Split(after);
    && before != after && |prior| == |next|
    && forall i | 0 <= i < |prior| :: prior[i] == next[i] || SameButCounts(prior[i], next[i])
  }

  method HunkCountsOnly(before: string, after: string) returns (ok: bool)
    ensures ok <==> CountsOnly(before, after)
  {
    hide ParseHeader;
    var prior, next := Split(before), Split(after);
    if before == after || |prior| != |next| { return false; }
    for i := 0 to |prior|
      invariant forall k | 0 <= k < i :: prior[k] == next[k] || SameButCounts(prior[k], next[k])
    {
      if prior[i] != next[i] {
        var a, b := ParseHeader(prior[i]), ParseHeader(next[i]);
        if a.None? || b.None? || a.value.oldStart != b.value.oldStart || a.value.newStart != b.value.newStart
           || a.value.tail != b.value.tail {
          return false;
        }
      }
    }
    return true;
  }

  datatype Answer = Answer(patch: string, summary: string, lesson: string)

  datatype RepairVerdict = Accepted | Unchanged | SummaryChanged | LessonChanged | MoreThanCounts

  method CheckRepairAnswer(previous: Answer, corrected: Answer) returns (v: RepairVerdict)
    ensures v == Accepted <==>
              corrected.summary == previous.summary && corrected.lesson == previous.lesson
              && CountsOnly(previous.patch, corrected.patch)
    ensures v == Unchanged <==> previous == corrected
    ensures v == SummaryChanged <==> corrected.summary != previous.summary
    ensures v == LessonChanged <==> corrected.summary == previous.summary && corrected.lesson != previous.lesson
    ensures v == MoreThanCounts <==>
              corrected.summary == previous.summary && corrected.lesson == previous.lesson
              && corrected.patch != previous.patch && !CountsOnly(previous.patch, corrected.patch)
  {
    if previous.patch == corrected.patch && previous.summary == corrected.summary
       && previous.lesson == corrected.lesson {
      return Unchanged;
    }
    if corrected.summary != previous.summary { return SummaryChanged; }
    if corrected.lesson != previous.lesson { return LessonChanged; }
    var ok := HunkCountsOnly(previous.patch, corrected.patch);
    return if ok then Accepted else MoreThanCounts;
  }

  // A recounted patch is either the patch itself or passes the check.
  lemma {:induction false} RecountPassesCheck(patch: string)
    ensures var after := Join(Recounted(Split(patch)));
            after == patch || CountsOnly(patch, after)
  {
    var lines := Split(patch);
    var after := Recounted(lines);
    forall i | 0 <= i < |lines|
      ensures NoNewline(after[i]) && (lines[i] == after[i] || SameButCounts(lines[i], after[i]))
    {
      OnlyCountsChange(lines, i);
    }
    SplitJoin(after);
  }

  // ------------------------------------------------ what the check lets through

  lemma SameKind(a: string, b: string)
    requires a == b || SameButCounts(a, b)
    ensures IsHeader(a) == IsHeader(b)
    ensures IsHeader(a) ==>
              forall m, n :: WithCounts(ParseHeader(a).value, m, n) == WithCounts(ParseHeader(b).value, m, n)
    ensures !IsHeader(a) ==> a == b
  {
    hide ParseHeader;
  }

  predicate Alike(a: Lines, b: Lines) {
    |a| == |b| && forall i | 0 <= i < |a| :: a[i] == b[i] || SameButCounts(a[i], b[i])
  }

  lemma {:induction false} AlikeBreaks(a: Lines, b: Lines, j: nat)
    requires Alike(a, b) && j + 1 < |a|
    ensures Breaks(a, j) == Breaks(b, j)
  {
    hide IsHeader, SameButCounts;
    SameKind(a[j], b[j]);
    SameKind(a[j + 1], b[j + 1]);
    if IsHeader(a[j + 1]) {
      HeaderLine(a[j + 1]);
      HeaderLine(b[j + 1]);
    }
  }

  lemma {:induction false} AlikeEnds(a: Lines, b: Lines, j: nat)
    requires Alike(a, b) && j < |a|
    ensures BodyEnd(a, j) == BodyEnd(b, j)
    decreases |a| - j
  {
    hide Breaks, Alike;
    AlikeLength(a, b);
    if j + 1 < |a| {
      AlikeBreaks(a, b, j);
      AlikeEnds(a, b, j + 1);
    }
  }

  lemma AlikeLength(a: Lines, b: Lines)
    requires Alike(a, b)
    ensures |a| == |b|
  {
  }

  lemma {:induction false} AlikeCounts(a: Lines, b: Lines, i: nat)
    requires Alike(a, b) && HunkAt(a, i)
    ensures HunkAt(b, i) && RecountAt(a, i) == RecountAt(b, i)
  {
    hide IsHeader, HeaderText, BodyEnd, SameButCounts, WithCounts, ParseHeader, OldCount, NewCount;
    SameKind(a[i], b[i]);
    AlikeEnds(a, b, i + 1);
    BodyEndIsFirst(a, i + 1);
    var end := BodyEnd(a, i + 1);
    forall j | i < j < end ensures a[j] == b[j] {
      assert !Breaks(a, j);
      SameKind(a[j], b[j]);
    }
    SameCounts(a, b, i + 1, end);
  }

  // A changed patch passes the check exactly if it has as many lines and is
  // recounted to the same text.
  lemma {:induction false} CountsOnlyExactly(before: string, after: string)
    requires HasSuffix(before, "\n") && HasSuffix(after, "\n")
    ensures CountsOnly(before, after) <==>
              before != after && Recounted(Split(before)) == Recounted(Split(after))
  {
    hide IsHeader, SameButCounts, RecountAt, HunkAt, Split, Recounted;
    var a, b := Split(before), Split(after);
    LastLineEmpty(before);
    LastLineEmpty(after);
    RecountedLength(a);
    RecountedLength(b);
    if CountsOnly(before, after) { AlikeRecount(a, b); }
    if Recounted(a) == Recounted(b) {
      forall i | 0 <= i < |a| ensures a[i] == b[i] || SameButCounts(a[i], b[i]) { SameRecount(a, b, i); }
    }
  }

  lemma {:induction false} AlikeRecount(a: Lines, b: Lines)
    requires Alike(a, b) && |a| > 0 && a[|a| - 1] == b[|b| - 1]
    ensures Recounted(a) == Recounted(b)
  {
    hide SameButCounts, IsHeader, HunkAt;
    forall i | 0 <= i < |a| ensures RecountAt(a, i) == RecountAt(b, i) {
      if HunkAt(a, i) {
        AlikeCounts(a, b, i);
      } else {
        NotHunk(a, b, i);
      }
    }
  }

  lemma NotHunk(a: Lines, b: Lines, i: nat)
    requires Alike(a, b) && i < |a| && !HunkAt(a, i) && a[|a| - 1] == b[|b| - 1]
    ensures RecountAt(a, i) == RecountAt(b, i)
  {
    hide ParseHeader, HeaderText;
    SameKind(a[i], b[i]);
  }

  lemma {:induction false} SameRecount(a: Lines, b: Lines, i: nat)
    requires PlainLines(a) && PlainLines(b) && |a| == |b| && Recounted(a) == Recounted(b) && i < |a|
    requires a[|a| - 1] == "" == b[|b| - 1]
    ensures a[i] == b[i] || SameButCounts(a[i], b[i])
  {
    hide Recounted, ParseHeader, OldCount, NewCount, BodyEnd;
    OnlyCountsChange(a, i);
    OnlyCountsChange(b, i);
  }
}
