// When the patch printer and the count repair agree: a printed patch is left
// alone by recounting, except for one shape of file contents.
module PatchRecount {
  import opened Wrappers
  import opened Text
  import opened Hunks
  import opened Diff
  import opened Recount
  import opened Patch
  import opened Paths
  import opened Utf8

  // --------------------------------------------------- recounting in two parts

  lemma {:induction false} ShiftEnd(x: seq<string>, y: seq<string>, k: nat)
    requires k < |y|
    ensures BodyEnd(x + y, |x| + k) == |x| + BodyEnd(y, k)
    decreases |y| - k
  {
    hide IsHeader;
    if k + 1 < |y| {
      ShiftEnd(x, y, k + 1);
      assert Breaks(x + y, |x| + k) == Breaks(y, k);
    }
  }

  lemma {:induction false} ShiftCounts(x: seq<string>, y: seq<string>, from: nat, to: nat)
    requires from <= to <= |y|
    ensures OldCount(x + y, |x| + from, |x| + to) == OldCount(y, from, to)
    ensures NewCount(x + y, |x| + from, |x| + to) == NewCount(y, from, to)
  {
    if from < to { ShiftCounts(x, y, from, to - 1); }
  }

  // The later part is recounted as if it stood alone.
  lemma {:induction false} ShiftHunk(x: seq<string>, y: seq<string>, k: nat)
    requires k < |y|
    ensures HunkAt(x + y, |x| + k) == HunkAt(y, k)
    ensures RecountAt(x + y, |x| + k) == RecountAt(y, k)
    ensures HunkAt(y, k) ==> BodyValid(x + y, |x| + k) == BodyValid(y, k)
  {
    hide IsHeader, Breaks, Content, WithCounts, HeaderText;
    assert (x + y)[|x| + k] == y[k];
    if HunkAt(y, k) {
      ShiftEnd(x, y, k + 1);
      ShiftCounts(x, y, k + 1, BodyEnd(y, k + 1));
      ShiftValid(x, y, k);
    }
  }

  lemma {:induction false} ShiftValid(x: seq<string>, y: seq<string>, k: nat)
    requires HunkAt(y, k) && HunkAt(x + y, |x| + k)
    requires BodyEnd(x + y, |x| + k + 1) == |x| + BodyEnd(y, k + 1)
    ensures BodyValid(x + y, |x| + k) == BodyValid(y, k)
  {
    hide IsHeader, Breaks, Content, BodyEnd;
    if BodyValid(x + y, |x| + k) {
      forall j | k < j < BodyEnd(y, k + 1) ensures Content(y[j]) { assert (x + y)[|x| + j] == y[j]; }
    }
    if BodyValid(y, k) {
      forall j | |x| + k < j < BodyEnd(x + y, |x| + k + 1) ensures Content((x + y)[j]) {
        assert (x + y)[j] == y[j - |x|];
      }
    }
  }

  // What can follow a whole section: another one, or the end of the patch.
  predicate EndsBody(y: seq<string>) {
    y != [] && (HasPrefix(y[0], "diff --git ") || y == [""])
  }

  lemma {:induction false} FrontEnd(x: seq<string>, y: seq<string>, j: nat)
    requires EndsBody(y) && j <= |x|
    ensures BodyEnd(x + y, j) == BodyEnd(x + [""], j) <= |x|
    decreases |x| - j
  {
    hide IsHeader;
    var a, b := x + y, x + [""];
    if j < |x| {
      FrontEnd(x, y, j + 1);
      assert a[j] == x[j] && b[j] == x[j];
      assert !HasPrefix(y[0], "+++ ") by { assert y[0] != "" ==> y[0][0] == "diff --git "[0]; }
      assert j + 1 < |x| ==> a[j + 1] == b[j + 1];
      assert Breaks(a, j) == Breaks(b, j);
    } else if |y| > 1 {
      assert a[j] == y[0];
    }
  }

  // The earlier part is recounted as if the patch ended after it.
  lemma {:induction false} FrontHunk(x: seq<string>, y: seq<string>, i: nat)
    requires EndsBody(y) && i < |x|
    ensures HunkAt(x + y, i) == HunkAt(x + [""], i)
    ensures RecountAt(x + y, i) == RecountAt(x + [""], i)
    ensures HunkAt(x + y, i) ==> BodyValid(x + y, i) == BodyValid(x + [""], i)
  {
    hide IsHeader, Breaks, Content, WithCounts, HeaderText;
    var a, b := x + y, x + [""];
    assert a[i] == b[i];
    if HunkAt(a, i) {
      FrontEnd(x, y, i + 1);
      SameCounts(a, b, i + 1, BodyEnd(a, i + 1));
      FrontValid(x, y, i);
    }
  }

  lemma {:induction false} FrontValid(x: seq<string>, y: seq<string>, i: nat)
    requires HunkAt(x + y, i) && HunkAt(x + [""], i) && i < |x|
    requires BodyEnd(x + y, i + 1) == BodyEnd(x + [""], i + 1) <= |x|
    ensures BodyValid(x + y, i) == BodyValid(x + [""], i)
  {
    hide IsHeader, Breaks, Content, BodyEnd;
    assert forall j | 0 <= j < |x| :: (x + y)[j] == (x + [""])[j];
  }

  predicate Fixed(lines: Lines) {
    forall i | 0 <= i < |lines| :: RecountAt(lines, i) == lines[i]
  }

  lemma {:induction false} SplitFixed(x: seq<string>, y: seq<string>)
    requires EndsBody(y)
    ensures Fixed(x + y) <==> Fixed(x + [""]) && Fixed(y)
    ensures AllValid(x + y) <==> AllValid(x + [""]) && AllValid(y)
  {
    hide RecountAt, BodyValid, HunkAt;
    LastNotHunk(x + [""]);
    forall i | 0 <= i < |x|
      ensures RecountAt(x + y, i) == RecountAt(x + [""], i) && (x + y)[i] == (x + [""])[i]
      ensures HunkAt(x + y, i) == HunkAt(x + [""], i)
      ensures HunkAt(x + y, i) ==> BodyValid(x + y, i) == BodyValid(x + [""], i)
    {
      FrontHunk(x, y, i);
    }
    forall k | 0 <= k < |y|
      ensures RecountAt(x + y, |x| + k) == RecountAt(y, k) && (x + y)[|x| + k] == y[k]
      ensures HunkAt(x + y, |x| + k) == HunkAt(y, k)
      ensures HunkAt(y, k) ==> BodyValid(x + y, |x| + k) == BodyValid(y, k)
    {
      ShiftHunk(x, y, k);
    }
    if Fixed(x + y) {
      forall k | 0 <= k < |y| ensures RecountAt(y, k) == y[k] { assert RecountAt(x + y, |x| + k) == (x + y)[|x| + k]; }
    }
    if Fixed(x + [""]) && Fixed(y) {
      forall i | 0 <= i < |x + y| ensures RecountAt(x + y, i) == (x + y)[i] {
        if i >= |x| { assert RecountAt(y, i - |x|) == y[i - |x|]; }
      }
    }
    if AllValid(x + y) {
      forall k | 0 <= k < |y| && HunkAt(y, k) ensures BodyValid(y, k) { assert HunkAt(x + y, |x| + k); }
    }
    if AllValid(x + [""]) && AllValid(y) {
      forall i | 0 <= i < |x + y| && HunkAt(x + y, i) ensures BodyValid(x + y, i) {
        if i >= |x| { assert HunkAt(y, i - |x|); }
      }
    }
  }

  lemma LastNotHunk(lines: Lines)
    requires lines != []
    ensures !HunkAt(lines, |lines| - 1) && RecountAt(lines, |lines| - 1) == lines[|lines| - 1]
  {
  }

  // ------------------------------------------------------------ one section

  // The last old line reads like the old name of a file section and the first
  // new line like its new name.
  predicate LooksLikeNames(a: seq<Raw>, b: seq<Raw>) {
    && a != [] && b != []
    && a[|a| - 1].eol && HasPrefix(a[|a| - 1].text, "-- ")
    && HasPrefix(b[0].text, "++ ")
  }

  predicate BodyLine(line: string, prefix: char) {
    line == MARKER || (line != "" && line[0] == prefix)
  }

  lemma {:induction false} BodyLines(prefix: char, raws: seq<Raw>)
    ensures forall j | 0 <= j < |Body(prefix, raws)| :: BodyLine(Body(prefix, raws)[j], prefix)
  {
    if raws != [] {
      BodyLines(prefix, raws[1..]);
      var head := [[prefix] + raws[0].text] + if raws[0].eol then [] else [MARKER];
      var tail := Body(prefix, raws[1..]);
      assert Body(prefix, raws) == head + tail;
      hide Body;
      forall j | 0 <= j < |head + tail| ensures BodyLine((head + tail)[j], prefix) {
        if j >= |head| { assert (head + tail)[j] == tail[j - |head|]; }
      }
    }
  }

  lemma {:induction false} BodyEnds(prefix: char, raws: seq<Raw>)
    requires raws != []
    ensures Body(prefix, raws) != [] && Body(prefix, raws)[0] == [prefix] + raws[0].text
    ensures Body(prefix, raws)[|Body(prefix, raws)| - 1]
            == if raws[|raws| - 1].eol then [prefix] + raws[|raws| - 1].text else MARKER
  {
    var body, tail := Body(prefix, raws), Body(prefix, raws[1..]);
    var head := [[prefix] + raws[0].text] + if raws[0].eol then [] else [MARKER];
    assert body == head + tail;
    if |raws| == 1 { assert tail == []; } else { BodyEnds(prefix, raws[1..]); }
  }

  lemma {:induction false} CountsAdd(lines: Lines, from: nat, mid: nat, to: nat)
    requires from <= mid <= to <= |lines|
    ensures OldCount(lines, from, to) == OldCount(lines, from, mid) + OldCount(lines, mid, to)
    ensures NewCount(lines, from, to) == NewCount(lines, from, mid) + NewCount(lines, mid, to)
  {
    if mid < to { CountsAdd(lines, from, mid, to - 1); }
  }

  predicate SideCounted(prefix: char, raws: seq<Raw>) {
    var body := Body(prefix, raws);
    && OldCount(body, 0, |body|) == (if prefix == '-' then |raws| else 0)
    && NewCount(body, 0, |body|) == (if prefix == '+' then |raws| else 0)
  }

  // A printed side counts its own lines, on its own side.
  lemma {:induction false} SideCounts(prefix: char, raws: seq<Raw>)
    requires prefix == '-' || prefix == '+'
    ensures SideCounted(prefix, raws)
  {
    if raws != [] {
      hide SideCounted;
      SideCounts(prefix, raws[1..]);
      SideStep(prefix, raws);
    }
  }

  lemma {:induction false} SideStep(prefix: char, raws: seq<Raw>)
    requires raws != [] && (prefix == '-' || prefix == '+') && SideCounted(prefix, raws[1..])
    ensures SideCounted(prefix, raws)
  {
    hide OldCount, NewCount;
    var tail := Body(prefix, raws[1..]);
    var head := [[prefix] + raws[0].text] + if raws[0].eol then [] else [MARKER];
    assert Body(prefix, raws) == head + tail;
    HeadCounts(prefix, raws[0]);
    ShiftCounts(head, tail, 0, |tail|);
    CountsAdd(head + tail, 0, |head|, |head + tail|);
    SameCounts(head + tail, head, 0, |head|);
  }

  lemma {:induction false} HeadCounts(prefix: char, raw: Raw)
    requires prefix == '-' || prefix == '+'
    ensures var head := [[prefix] + raw.text] + if raw.eol then [] else [MARKER];
            && OldCount(head, 0, |head|) == (if prefix == '-' then 1 else 0)
            && NewCount(head, 0, |head|) == (if prefix == '+' then 1 else 0)
  {
    var head := [[prefix] + raw.text] + if raw.eol then [] else [MARKER];
    assert head[0][0] == prefix && MARKER[0] == '\\';
    CountsAdd(head, 0, 1, |head|);
    assert OldCount(head, 0, 0) == 0 && NewCount(head, 0, 0) == 0;
  }

  // The lines of a printed hunk, up to the end of the patch.
  function HunkOnly(a: seq<Raw>, b: seq<Raw>): seq<string> {
    [HeaderText(WholeHunk(|a|, |b|))] + (Body('-', a) + Body('+', b)) + [""]
  }

  lemma {:induction false} HunkCounts(a: seq<Raw>, b: seq<Raw>)
    ensures var lines, m := HunkOnly(a, b), |Body('-', a)|;
            && 1 + m <= |lines| - 1
            && OldCount(lines, 1, 1 + m) == |a| && NewCount(lines, 1, 1 + m) == 0
            && OldCount(lines, 1 + m, |lines| - 1) == 0 && NewCount(lines, 1 + m, |lines| - 1) == |b|
  {
    hide HeaderText, WholeHunk, OldCount, NewCount, Body;
    var lines, olds, news := HunkOnly(a, b), Body('-', a), Body('+', b);
    var front := [HeaderText(WholeHunk(|a|, |b|))];
    SideCounts('-', a);
    SideCounts('+', b);
    var rest := olds + (news + [""]);
    assert lines == front + rest;
    ShiftCounts(front, rest, 0, |olds|);
    SameCounts(rest, olds, 0, |olds|);
    assert lines == (front + olds) + (news + [""]);
    ShiftCounts(front + olds, news + [""], 0, |news|);
    SameCounts(news + [""], news, 0, |news|);
  }

  // Line j of a printed hunk is line j - 1 of its sides.
  lemma {:induction false} HunkLine(a: seq<Raw>, b: seq<Raw>, j: nat)
    requires 1 <= j < |HunkOnly(a, b)| - 1
    ensures var lines, olds, news := HunkOnly(a, b), Body('-', a), Body('+', b);
            if j <= |olds| then lines[j] == olds[j - 1] && BodyLine(lines[j], '-')
            else lines[j] == news[j - 1 - |olds|] && BodyLine(lines[j], '+')
  {
    hide HeaderText, WholeHunk, Body, BodyLine;
    BodyLines('-', a);
    BodyLines('+', b);
  }

  lemma {:induction false} BodyBreaks(lines: Lines, j: nat)
    requires j + 1 < |lines| && (BodyLine(lines[j], '-') || BodyLine(lines[j], '+'))
    ensures Breaks(lines, j) <==> HasPrefix(lines[j], "--- ") && j + 2 < |lines| && HasPrefix(lines[j + 1], "+++ ")
    ensures Content(lines[j]) && !HunkAt(lines, j)
  {
    assert MARKER[0] == '\\';
    PlainStart(lines[j]);
  }

  lemma NotNames(line: string, prefix: char)
    requires BodyLine(line, prefix)
    ensures prefix == '+' ==> !HasPrefix(line, "--- ")
    ensures prefix == '-' ==> !HasPrefix(line, "+++ ")
    ensures line == MARKER ==> !HasPrefix(line, "--- ")
  {
    assert "--- "[0] == '-' && "+++ "[0] == '+' && MARKER[0] == '\\';
  }

  // Only the last old line can break the printed body, and only when the two
  // lines around the middle look like file names.
  lemma {:induction false} HunkBreaks(a: seq<Raw>, b: seq<Raw>, j: nat)
    requires 1 <= j < |HunkOnly(a, b)| - 1
    ensures Breaks(HunkOnly(a, b), j) <==> j == |Body('-', a)| && LooksLikeNames(a, b)
    ensures Content(HunkOnly(a, b)[j]) && !HunkAt(HunkOnly(a, b), j)
  {
    hide IsHeader, HeaderText, WholeHunk, Body, Breaks, HasPrefix, Content, HunkAt, BodyLine, HunkOnly;
    var lines, m := HunkOnly(a, b), |Body('-', a)|;
    EmptyBody();
    HunkLength(a, b);
    HunkLine(a, b, j);
    BodyBreaks(lines, j);
    NotNames(lines[j], if j <= m then '-' else '+');
    if j + 1 < |lines| - 1 {
      HunkLine(a, b, j + 1);
      NotNames(lines[j + 1], if j < m then '-' else '+');
    }
    if j == m && b != [] {
      BodyEnds('-', a);
      BodyEnds('+', b);
      PrefixTail(b[0].text);
      PrefixTail(a[|a| - 1].text);
    }
  }

  lemma HunkLength(a: seq<Raw>, b: seq<Raw>)
    ensures |HunkOnly(a, b)| == 2 + |Body('-', a)| + |Body('+', b)|
  {
  }

  lemma EmptyBody()
    ensures Body('-', []) == [] && Body('+', []) == []
  {
  }

  lemma PlainStart(line: string)
    requires line != "" && (line[0] == '-' || line[0] == '+' || line[0] == '\\')
    ensures !IsHeader(line) && !HasPrefix(line, "diff --git ")
    ensures line[0] != '-' ==> !HasPrefix(line, "--- ")
    ensures line[0] != '+' ==> !HasPrefix(line, "+++ ")
    ensures line[0] == '-' || line[0] == '+' ==> Content(line)
  {
    NotHeader(line);
    assert "diff --git "[0] == 'd' && "--- "[0] == '-' && "+++ "[0] == '+';
  }

  lemma PrefixTail(text: string)
    ensures HasPrefix("-" + text, "--- ") <==> HasPrefix(text, "-- ")
    ensures HasPrefix("+" + text, "+++ ") <==> HasPrefix(text, "++ ")
  {
    assert ("-" + text)[1..] == text && ("+" + text)[1..] == text;
    assert "--- " == "-" + "-- " && "+++ " == "+" + "++ ";
  }

  lemma {:induction false} EndAt(lines: Lines, j: nat, e: nat)
    requires j <= e < |lines|
    requires forall k | j <= k < e :: !Breaks(lines, k)
    requires e + 1 == |lines| || Breaks(lines, e)
    ensures BodyEnd(lines, j) == e
    decreases e - j
  {
    hide Breaks;
    if j < e { EndAt(lines, j + 1, e); }
  }

  // Where the printed body ends for the recount, and what it then counts.
  lemma {:induction false} HunkEnd(a: seq<Raw>, b: seq<Raw>)
    requires a != [] || b != []
    ensures var lines, m := HunkOnly(a, b), |Body('-', a)|;
            && BodyEnd(lines, 1) == (if LooksLikeNames(a, b) then m else |lines| - 1)
            && (LooksLikeNames(a, b) ==> m >= 1 && lines[m] == "-" + a[|a| - 1].text)
            && forall j | 1 <= j < |lines| - 1 :: Content(lines[j]) && !HunkAt(lines, j)
  {
    hide HeaderText, WholeHunk, Breaks, Content, HunkAt, Body;
    var lines, m := HunkOnly(a, b), |Body('-', a)|;
    forall j | 1 <= j < |lines| - 1
      ensures Breaks(lines, j) <==> j == m && LooksLikeNames(a, b)
      ensures Content(lines[j]) && !HunkAt(lines, j)
    {
      HunkBreaks(a, b, j);
    }
    if a != [] { BodyEnds('-', a); }
    if b != [] { BodyEnds('+', b); }
    EndAt(lines, 1, if LooksLikeNames(a, b) then m else |lines| - 1);
  }

  // A printed hunk is recounted to itself exactly when its middle does not
  // look like file names.
  lemma {:induction false} HunkFixed(a: seq<Raw>, b: seq<Raw>)
    requires a != [] || b != []
    ensures Fixed(HunkOnly(a, b)) <==> !LooksLikeNames(a, b)
    ensures AllValid(HunkOnly(a, b)) && HunkAt(HunkOnly(a, b), 0)
  {
    hide HeaderText, WholeHunk, Breaks, Content, LooksLikeNames, IsHeader, WithCounts, BodyEnd, HunkOnly, OldCount,
         NewCount;
    var lines, m := HunkOnly(a, b), |Body('-', a)|;
    HunkStarts(a, b);
    HunkEnd(a, b);
    LastNotHunk(lines);
    if LooksLikeNames(a, b) {
      MiddleBroken(a, b);
    } else {
      MiddleWhole(a, b);
    }
  }

  lemma {:induction false} MiddleWhole(a: seq<Raw>, b: seq<Raw>)
    requires (a != [] || b != []) && !LooksLikeNames(a, b)
    ensures HunkAt(HunkOnly(a, b), 0) && RecountAt(HunkOnly(a, b), 0) == HunkOnly(a, b)[0]
  {
    hide HeaderText, Breaks, Content, IsHeader, BodyEnd, HunkOnly, ParseHeader, OldCount, NewCount, LooksLikeNames;
    var lines, m := HunkOnly(a, b), |Body('-', a)|;
    HunkStarts(a, b);
    HunkEnd(a, b);
    HunkCounts(a, b);
    CountsAdd(lines, 1, 1 + m, |lines| - 1);
    HeaderOfCounts(a, b);
    HunkHead(a, b);
  }

  lemma HunkHead(a: seq<Raw>, b: seq<Raw>)
    ensures HunkOnly(a, b)[0] == HeaderText(WholeHunk(|a|, |b|))
  {
  }

  lemma HunkStarts(a: seq<Raw>, b: seq<Raw>)
    requires a != [] || b != []
    ensures HunkAt(HunkOnly(a, b), 0) && |HunkOnly(a, b)| >= 3
  {
    hide HeaderText, WholeHunk;
    WholeHunkRead(a, b);
    BodyLines('-', a);
    BodyLines('+', b);
  }

  lemma HeaderOfCounts(a: seq<Raw>, b: seq<Raw>)
    ensures var h := WholeHunk(|a|, |b|);
            ParseHeader(HeaderText(h)) == Some(h) && WithCounts(h, |a|, |b|) == h
  {
    hide HeaderText;
    WholeHunkRead(a, b);
  }

  // When the middle does, the old count comes out one short.
  lemma {:induction false} MiddleBroken(a: seq<Raw>, b: seq<Raw>)
    requires LooksLikeNames(a, b)
    ensures HunkAt(HunkOnly(a, b), 0) && RecountAt(HunkOnly(a, b), 0) != HunkOnly(a, b)[0]
  {
    hide HeaderText, Breaks, Content, IsHeader, BodyEnd, HunkOnly, HasPrefix, ParseHeader;
    var lines, m := HunkOnly(a, b), |Body('-', a)|;
    HunkStarts(a, b);
    HunkEnd(a, b);
    HunkCounts(a, b);
    CountsAdd(lines, 1, m, 1 + m);
    LastOld(lines, m, a[|a| - 1].text);
    HeaderOfCounts(a, b);
    HunkHead(a, b);
    var cut := WithCounts(WholeHunk(|a|, |b|), |a| - 1, NewCount(lines, 1, m));
    RecountedDiffers(cut, WholeHunk(|a|, |b|), |a| - 1, |a|);
  }

  lemma LastOld(lines: Lines, m: nat, text: string)
    requires m < |lines| && lines[m] == "-" + text
    ensures OldCount(lines, m, m + 1) == 1
  {
  }

  lemma RecountedDiffers(h: Header, k: Header, m: nat, n: nat)
    requires h.oldCount == Some(Itoa(m)) && k.oldCount == Some(Itoa(n)) && m != n
    requires WellFormed(h) && WellFormed(k)
    ensures HeaderText(h) != HeaderText(k)
  {
    HeaderComplete(h);
    HeaderComplete(k);
    AtoiItoa(m);
    AtoiItoa(n);
  }

  // ------------------------------------------------------------ the whole patch

  lemma {:induction false} NamesNotHunks(base: Files, name: string, tail: seq<string>, i: nat)
    requires i < |NameLines(name, name in base)|
    ensures var lines := NameLines(name, name in base) + tail;
            !HunkAt(lines, i) && RecountAt(lines, i) == lines[i]
  {
    var head := NameLines(name, name in base);
    var line := (head + tail)[i];
    assert line == head[i] && line != "" && line[0] != '@';
    NotHeader(line);
  }

  // The contents whose printed patch the recount would cut.
  predicate Cut(base: Files, name: string, next: string) {
    LooksLikeNames(RawLines(Lookup(base, name)), RawLines(next))
  }

  lemma {:induction false} SectionFixed(base: Files, name: string, next: string)
    requires Changed(base, name, next)
    ensures Fixed(Section(base, name, next) + [""]) <==> !Cut(base, name, next)
    ensures AllValid(Section(base, name, next) + [""])
    ensures HasHunk(Section(base, name, next) + [""]) <==> Lookup(base, name) != "" || next != ""
  {
    hide RecountAt, BodyValid, HunkAt, NameLines, HeaderText, WholeHunk;
    var a, b := RawLines(Lookup(base, name)), RawLines(next);
    var head, tail := NameLines(name, name in base), HunkLines(a, b) + [""];
    var lines := Section(base, name, next) + [""];
    assert lines == head + tail;
    forall i | 0 <= i < |head| ensures !HunkAt(lines, i) && RecountAt(lines, i) == lines[i] {
      NamesNotHunks(base, name, tail, i);
    }
    forall k | 0 <= k < |tail|
      ensures RecountAt(lines, |head| + k) == RecountAt(tail, k) && lines[|head| + k] == tail[k]
      ensures HunkAt(lines, |head| + k) == HunkAt(tail, k)
      ensures HunkAt(tail, k) ==> BodyValid(lines, |head| + k) == BodyValid(tail, k)
    {
      ShiftHunk(head, tail, k);
    }
    if a == [] && b == [] {
      assert tail == [""];
    } else {
      assert tail == HunkOnly(a, b);
      HunkFixed(a, b);
    }
    LastNotHunk(tail);
    TailDecides(head, tail);
  }

  // No hunk in the head: the tail alone decides.
  lemma {:induction false} TailDecides(head: seq<string>, tail: seq<string>)
    requires forall i | 0 <= i < |head| :: !HunkAt(head + tail, i) && RecountAt(head + tail, i) == (head + tail)[i]
    ensures Fixed(head + tail) <==> Fixed(tail)
    ensures AllValid(head + tail) <==> AllValid(tail)
    ensures HasHunk(head + tail) <==> HasHunk(tail)
  {
    hide RecountAt, BodyValid, HunkAt;
    var lines := head + tail;
    forall k | 0 <= k < |tail|
      ensures RecountAt(lines, |head| + k) == RecountAt(tail, k) && lines[|head| + k] == tail[k]
      ensures HunkAt(lines, |head| + k) == HunkAt(tail, k)
      ensures HunkAt(tail, k) ==> BodyValid(lines, |head| + k) == BodyValid(tail, k)
    {
      ShiftHunk(head, tail, k);
    }
    if Fixed(lines) {
      forall k | 0 <= k < |tail| ensures RecountAt(tail, k) == tail[k] {
        assert RecountAt(lines, |head| + k) == lines[|head| + k];
      }
    }
    if Fixed(tail) {
      forall i | 0 <= i < |lines| ensures RecountAt(lines, i) == lines[i] {
        if i >= |head| { assert RecountAt(tail, i - |head|) == tail[i - |head|]; }
      }
    }
    if AllValid(lines) {
      forall k | 0 <= k < |tail| && HunkAt(tail, k) ensures BodyValid(tail, k) { assert HunkAt(lines, |head| + k); }
    }
    if AllValid(tail) {
      forall i | 0 <= i < |lines| && HunkAt(lines, i) ensures BodyValid(lines, i) { assert HunkAt(tail, i - |head|); }
    }
    if HasHunk(tail) {
      var k :| 0 <= k < |tail| && HunkAt(tail, k);
      assert HunkAt(lines, |head| + k);
    }
    if HasHunk(lines) {
      var i :| 0 <= i < |lines| && HunkAt(lines, i);
      assert HunkAt(tail, i - |head|);
    }
  }

  // Some replacement would be cut.
  predicate SomeCut(base: Files, replacements: Files, names: seq<string>)
    requires Listed(replacements, names)
  {
    exists i | 0 <= i < |names| ::
      Changed(base, names[i], replacements[names[i]]) && Cut(base, names[i], replacements[names[i]])
  }

  lemma {:induction false} PatchFixed(base: Files, replacements: Files, names: seq<string>, rest: seq<string>)
    requires Listed(replacements, names) && EndsBody(rest)
    ensures var lines := PatchLines(base, replacements, names) + rest;
            && (Fixed(lines) <==> !SomeCut(base, replacements, names) && Fixed(rest))
            && (AllValid(lines) <==> AllValid(rest))
  {
    hide Fixed, AllValid, Section, Cut, EndsBody;
    if names == [] {
      assert PatchLines(base, replacements, names) + rest == rest;
    } else {
      var init, name := names[..|names| - 1], names[|names| - 1];
      var next := replacements[name];
      SomeCutLast(base, replacements, names);
      if Changed(base, name, next) {
        var section := Section(base, name, next);
        assert PatchLines(base, replacements, names) + rest == PatchLines(base, replacements, init) + (section + rest);
        SectionBegins(base, name, next, rest);
        PatchFixed(base, replacements, init, section + rest);
        SplitFixed(section, rest);
        SectionFixed(base, name, next);
      } else {
        assert PatchLines(base, replacements, names) + rest == PatchLines(base, replacements, init) + rest;
        PatchFixed(base, replacements, init, rest);
      }
    }
  }

  lemma SectionBegins(base: Files, name: string, next: string, rest: seq<string>)
    ensures EndsBody(Section(base, name, next) + rest)
  {
    assert (Section(base, name, next) + rest)[0] == "diff --git " + ("a/" + name + " b/" + name);
  }

  lemma {:induction false} SomeCutLast(base: Files, replacements: Files, names: seq<string>)
    requires Listed(replacements, names) && names != []
    ensures var init, name := names[..|names| - 1], names[|names| - 1];
            SomeCut(base, replacements, names) <==>
              SomeCut(base, replacements, init)
              || (Changed(base, name, replacements[name]) && Cut(base, name, replacements[name]))
  {
    hide Cut, Changed;
    var init := names[..|names| - 1];
    if SomeCut(base, replacements, init) {
      var i :| 0 <= i < |init| && Changed(base, init[i], replacements[init[i]])
               && Cut(base, init[i], replacements[init[i]]);
      assert names[i] == init[i];
    }
    if SomeCut(base, replacements, names) {
      var i :| 0 <= i < |names| && Changed(base, names[i], replacements[names[i]])
               && Cut(base, names[i], replacements[names[i]]);
      assert i < |init| ==> names[i] == init[i];
    }
  }

  // Recounting a printed patch never finds invalid content, and it leaves the
  // patch alone exactly when no replacement puts a first line "++ ..." after an
  // old last line "-- ..." that a newline ends.
  lemma {:induction false} PrintedIsFixed(base: Files, replacements: Files, names: seq<string>)
    requires Lists(replacements, names) && Printed(base, replacements, names).Ok?
    ensures var patch := Printed(base, replacements, names).value;
            && HasSuffix(patch, "\n") && AllValid(Split(patch))
            && (Join(Recounted(Split(patch))) == patch <==> !SomeCut(base, replacements, names))
  {
    hide RecountAt, Failure, PatchLines, AllValid, SomeCut, Split;
    var lines := PatchLines(base, replacements, names);
    var patch := Printed(base, replacements, names).value;
    PatchPlain(base, replacements, names);
    SplitUnlines(lines);
    UnlinesEnds(lines);
    LastNotHunk([""]);
    NothingAfter();
    PatchFixed(base, replacements, names, [""]);
    FixedIsSame(Split(patch));
    JoinSplit(patch);
    RecountedSplits(Split(patch));
  }

  lemma NothingAfter()
    ensures EndsBody([""]) && Fixed([""]) && AllValid([""])
  {
  }

  lemma FixedIsSame(lines: Lines)
    ensures Fixed(lines) <==> Recounted(lines) == lines
  {
    if Recounted(lines) == lines {
      forall i | 0 <= i < |lines| ensures RecountAt(lines, i) == lines[i] { assert Recounted(lines)[i] == lines[i]; }
    }
  }

  lemma {:induction false} RecountedSplits(lines: Lines)
    requires |lines| >= 1 && PlainLines(lines)
    ensures Split(Join(Recounted(lines))) == Recounted(lines)
  {
    forall i | 0 <= i < |lines| ensures NoNewline(Recounted(lines)[i]) { OnlyCountsChange(lines, i); }
    SplitJoin(Recounted(lines));
  }

  // -------------------------------------------------------- a patch that is cut

  const CUT_BASE: Files := map["f" := "-- x\n"]
  const CUT_NEXT: Files := map["f" := "++ y\n"]

  lemma {:induction false} OneTerminated(text: string)
    requires NoNewline(text)
    ensures RawLines(text + "\n") == [Raw(text, true)]
  {
    var content := text + "\n";
    assert TrimNewline(content) == text;
    SplitPlain(text);
  }

  lemma {:induction false} CutSection()
    ensures Section(CUT_BASE, "f", "++ y\n")
            == ["diff --git a/f b/f", "--- a/f", "+++ b/f", HeaderText(WholeHunk(1, 1)), "--- x", "+++ y"]
    ensures Cut(CUT_BASE, "f", "++ y\n") && Changed(CUT_BASE, "f", "++ y\n")
  {
    hide HeaderText, WholeHunk, RawLines;
    assert "-- x" + "\n" == "-- x\n" && "++ y" + "\n" == "++ y\n";
    assert ['-'] + "-- x" == "--- x" && ['+'] + "++ y" == "+++ y";
    assert "diff --git a/" + "f" + " b/" + "f" == "diff --git a/f b/f";
    assert "--- a/" + "f" == "--- a/f" && "+++ b/" + "f" == "+++ b/f";
    OneTerminated("-- x");
    OneTerminated("++ y");
    assert Body('-', [Raw("-- x", true)]) == ["--- x"] by { OneBodyLine('-', "-- x"); }
    assert Body('+', [Raw("++ y", true)]) == ["+++ y"] by { OneBodyLine('+', "++ y"); }
    assert "-- " <= "-- x" && "++ " <= "++ y";
  }

  lemma OneBodyLine(prefix: char, text: string)
    ensures Body(prefix, [Raw(text, true)]) == [[prefix] + text]
  {
    assert [Raw(text, true)][1..] == [] && Body(prefix, []) == [];
  }

  lemma {:induction false} ShortText(lines: seq<string>, width: nat)
    requires forall i | 0 <= i < |lines| :: |lines[i]| < width
    ensures |Unlines(lines)| <= |lines| * width
  {
    if lines != [] {
      ShortText(lines[1..], width);
      assert |lines| * width == width + |lines[1..]| * width;
    }
  }

  lemma {:induction false} CutAllowed()
    ensures PatchableName("f") && PatchableContent("++ y\n")
  {
    assert Segments("f") == ["f"] by {
      assert "f"[1..] == "" && Segments("") == [""] && ['f'] + "" == "f" && [""][1..] == [];
    }
    var s := "++ y\n";
    assert s[4..][1..] == "" && s[3..][1..] == s[4..] && s[2..][1..] == s[3..] && s[1..][1..] == s[2..];
    assert ValidUtf8(s[4..]);
    assert ValidUtf8(s[2..]);
    assert ValidUtf8(s);
  }

  // A printed patch that the recount changes: its hunk is cut in the middle.
  lemma {:induction false} CutPatch()
    ensures Lists(CUT_NEXT, ["f"]) && Printed(CUT_BASE, CUT_NEXT, ["f"]).Ok?
    ensures var patch := Printed(CUT_BASE, CUT_NEXT, ["f"]).value;
            AllValid(Split(patch)) && Join(Recounted(Split(patch))) != patch
  {
    hide HeaderText, WholeHunk, RawLines, PatchableName, PatchableContent, Section, Recounted, Split, Unlines, Cut,
         Changed;
    var lines := Section(CUT_BASE, "f", "++ y\n");
    CutSection();
    CutAllowed();
    assert ["f"][..0] == [] && PatchLines(CUT_BASE, CUT_NEXT, []) == [] && Failure(CUT_BASE, CUT_NEXT, []).None?;
    assert PatchLines(CUT_BASE, CUT_NEXT, ["f"]) == lines;
    assert |HeaderText(WholeHunk(1, 1))| < 30 by { ShortHeader(); }
    ShortText(lines, 30);
    assert Failure(CUT_BASE, CUT_NEXT, ["f"]).None?;
    assert SomeCut(CUT_BASE, CUT_NEXT, ["f"]);
    PrintedIsFixed(CUT_BASE, CUT_NEXT, ["f"]);
  }

  lemma ShortHeader()
    ensures |HeaderText(WholeHunk(1, 1))| < 30
  {
  }
}
