// What a reader of the recounted patch takes: exactly the body that was counted.
module RecountReader {
  import opened Wrappers
  import opened Text
  import opened Hunks
  import opened Recount
  import opened Diff
  import opened PatchRecount

  // A marker stands only after a line that can lack a newline.
  predicate MarkedWell(body: Lines) {
    forall i | 0 <= i < |body| && body[i] == MARKER :: i > 0 && body[i - 1] != MARKER
  }

  lemma {:induction false} SliceCounts(lines: Lines, k: nat, n: nat)
    requires k <= n <= |lines|
    ensures OldCount(lines, k, n) == OldCount(lines[k..], 0, n - k)
    ensures NewCount(lines, k, n) == NewCount(lines[k..], 0, n - k)
    decreases n
  {
    if k < n { SliceCounts(lines, k, n - 1); }
  }

  function Olds(body: Lines): nat { OldCount(body, 0, |body|) }

  function News(body: Lines): nat { NewCount(body, 0, |body|) }

  lemma {:induction false} CountFirst(body: Lines)
    requires body != []
    ensures Olds(body) == (if OnOldSide(body[0]) then 1 else 0) + Olds(body[1..])
    ensures News(body) == (if OnNewSide(body[0]) then 1 else 0) + News(body[1..])
  {
    CountsAdd(body, 0, 1, |body|);
    SliceCounts(body, 1, |body|);
  }

  lemma MarkerCounts()
    ensures !OnOldSide(MARKER) && !OnNewSide(MARKER) && MARKER[0] == '\\'
  {
    assert MARKER[0] == '\\' && " "[0] == ' ' && "-"[0] == '-' && "+"[0] == '+';
  }

  lemma ContentFirst(line: string)
    requires Content(line)
    ensures line != "" && (line == MARKER || line[0] == ' ' || line[0] == '-' || line[0] == '+')
    ensures OnOldSide(line) <==> line[0] == ' ' || line[0] == '-'
    ensures OnNewSide(line) <==> line[0] == ' ' || line[0] == '+'
  {
    MarkerCounts();
    assert " " <= line <==> line != "" && line[0] == ' ';
    assert "-" <= line <==> line != "" && line[0] == '-';
    assert "+" <= line <==> line != "" && line[0] == '+';
  }

  // What is left of a body after its first line and the marker of that line.
  function AfterFirst(body: Lines): Lines
    requires body != []
  {
    if |body| > 1 && body[1] == MARKER then body[2..] else body[1..]
  }

  lemma {:induction false} AfterFirstCounts(body: Lines)
    requires body != [] && forall i | 0 <= i < |body| :: Content(body[i])
    ensures Olds(body) == (if OnOldSide(body[0]) then 1 else 0) + Olds(AfterFirst(body))
    ensures News(body) == (if OnNewSide(body[0]) then 1 else 0) + News(AfterFirst(body))
    ensures forall i | 0 <= i < |AfterFirst(body)| :: Content(AfterFirst(body)[i])
    ensures body[0] != MARKER ==> (MarkedWell(body) <==> MarkedWell(AfterFirst(body)))
  {
    hide Content, Olds, News;
    CountFirst(body);
    MarkerCounts();
    if |body| > 1 && body[1] == MARKER {
      CountFirst(body[1..]);
      assert body[1..][0] == body[1] && body[1..][1..] == body[2..];
      assert forall i | 0 <= i < |body| - 2 :: body[2..][i] == body[i + 2];
      if MarkedWell(body[2..]) && body[0] != MARKER {
        assert |body| > 2 ==> body[2..][0] == body[2] != MARKER;
        forall i | 0 <= i < |body| && body[i] == MARKER ensures i > 0 && body[i - 1] != MARKER {
          if i > 2 { assert body[2..][i - 2] == body[i] && body[2..][i - 3] == body[i - 1]; }
        }
      }
    } else {
      assert forall i | 0 <= i < |body| - 1 :: body[1..][i] == body[i + 1];
      if MarkedWell(body[1..]) && body[0] != MARKER {
        forall i | 0 <= i < |body| && body[i] == MARKER ensures i > 0 && body[i - 1] != MARKER {
          if i > 1 { assert body[1..][i - 1] == body[i] && body[1..][i - 2] == body[i - 1]; }
        }
      }
    }
  }

  // The reader, given the counts of a body, takes just that body, exactly when
  // its markers stand where they can.
  lemma {:induction false} BodyIsRead(body: Lines, rest: Lines)
    requires forall i | 0 <= i < |body| :: Content(body[i])
    requires rest != [] ==> rest[0] != MARKER
    ensures var r := ReadBody(body + rest, Olds(body), News(body));
            r.Some? && r.value.rest == rest <==> MarkedWell(body)
    decreases |body|
  {
    hide Content, Olds, News, ReadBody;
    var lines := body + rest;
    if Olds(body) == 0 && News(body) == 0 { NothingRead(lines); }
    if body == [] {
      assert lines == rest && Olds(body) == 0 && News(body) == 0 by { NoLines(); }
    } else {
      var line := body[0];
      ContentFirst(line);
      AfterFirstCounts(body);
      assert lines[0] == line;
      if line == MARKER {
        MarkerCounts();
        assert !MarkedWell(body) && |lines| > |rest|;
        MarkerRead(lines, Olds(body), News(body));
      } else {
        var next := AfterFirst(body);
        assert |lines| > 1 && lines[1] == MARKER <==> |body| > 1 && body[1] == MARKER;
        assert (if |lines| > 1 && lines[1] == MARKER then lines[2..] else lines[1..]) == next + rest;
        OneRead(lines, next + rest, Olds(body), News(body));
        BodyIsRead(next, rest);
      }
    }
  }

  lemma NothingRead(lines: Lines)
    ensures ReadBody(lines, 0, 0) == Some(Sides([], [], lines))
  {
  }

  lemma MarkerRead(lines: Lines, o: nat, n: nat)
    requires lines != [] && lines[0] == MARKER
    ensures o > 0 || n > 0 ==> ReadBody(lines, o, n).None?
  {
  }

  // One line is read on its sides.
  lemma OneRead(lines: Lines, next: Lines, o: nat, n: nat)
    requires lines != [] && lines[0] != "" && (lines[0][0] == ' ' || lines[0][0] == '-' || lines[0][0] == '+')
    requires lines[0][0] != '+' ==> o > 0
    requires lines[0][0] != '-' ==> n > 0
    requires next == if |lines| > 1 && lines[1] == MARKER then lines[2..] else lines[1..]
    ensures var a, b := if lines[0][0] != '+' then o - 1 else o, if lines[0][0] != '-' then n - 1 else n;
            var r, more := ReadBody(lines, o, n), ReadBody(next, a, b);
            (r.Some? <==> more.Some?) && (r.Some? ==> r.value.rest == more.value.rest)
  {
  }

  lemma NoLines()
    ensures Olds([]) == 0 && News([]) == 0
  {
  }

  // With its recounted header a hunk whose body is diff content is read up to
  // the line that ends it, exactly when its markers stand where they can.
  lemma {:induction false} RecountedIsRead(lines: Lines, i: nat)
    requires HunkAt(lines, i) && BodyValid(lines, i) && lines[|lines| - 1] == ""
    ensures var end := BodyEnd(lines, i + 1);
            var r := ReadBody(lines[i + 1..], OldCount(lines, i + 1, end), NewCount(lines, i + 1, end));
            r.Some? && r.value.rest == lines[end..] <==> MarkedWell(lines[i + 1..end])
  {
    hide Content, ReadBody, OldCount, NewCount, BodyEnd, IsHeader;
    var end := BodyEnd(lines, i + 1);
    var body, rest := lines[i + 1..end], lines[end..];
    EndsNoMarker(lines, i + 1);
    SliceCounts(lines, i + 1, end);
    assert lines[i + 1..][..end - i - 1] == body;
    SameCounts(lines[i + 1..], body, 0, |body|);
    assert body + rest == lines[i + 1..];
    BodyIsRead(body, rest);
  }

  lemma EndsNoMarker(lines: Lines, j: nat)
    requires j < |lines| && lines[|lines| - 1] == ""
    ensures lines[BodyEnd(lines, j)] != MARKER
  {
    BodyEndIsFirst(lines, j);
    MarkerCounts();
    assert "diff --git "[0] == 'd' && "--- "[0] == '-';
    var line := lines[BodyEnd(lines, j)];
    if line == MARKER { NotHeader(line); }
  }
}
