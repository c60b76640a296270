// A reference reading of unified diffs: a count-driven applier in the manner
// of git apply, written independently of the printer it is used to judge.
module Diff {
  import opened Wrappers
  import opened Text
  import opened Hunks

  // One line of a file, and whether a newline ends it.
  datatype Raw = Raw(text: string, eol: bool)

  function TrimNewline(s: string): string {
    if HasSuffix(s, "\n") then s[..|s| - 1] else s
  }

  // Only the last line of a file may lack its newline.
  function RawLines(content: string): seq<Raw> {
    if content == "" then []
    else
      var lines := Split(TrimNewline(content));
      seq(|lines|, i requires 0 <= i < |lines| => Raw(lines[i], i < |lines| - 1 || HasSuffix(content, "\n")))
  }

  function RawText(raws: seq<Raw>): string {
    if raws == [] then ""
    else raws[0].text + (if raws[0].eol then "\n" else "") + RawText(raws[1..])
  }

  lemma {:induction false} TerminatedText(lines: seq<string>, eol: bool)
    requires |lines| >= 1
    ensures var raws := seq(|lines|, i requires 0 <= i < |lines| => Raw(lines[i], i < |lines| - 1 || eol));
            RawText(raws) == Join(lines) + if eol then "\n" else ""
  {
    var raws := seq(|lines|, i requires 0 <= i < |lines| => Raw(lines[i], i < |lines| - 1 || eol));
    if |lines| == 1 {
      assert raws[1..] == [];
    } else {
      TerminatedText(lines[1..], eol);
      var rest := lines[1..];
      assert raws[1..] == seq(|rest|, i requires 0 <= i < |rest| => Raw(rest[i], i < |rest| - 1 || eol));
    }
  }

  lemma {:induction false} RawTextOfLines(content: string)
    ensures RawText(RawLines(content)) == content
  {
    if content != "" {
      TerminatedText(Split(TrimNewline(content)), HasSuffix(content, "\n"));
      JoinSplit(TrimNewline(content));
    }
  }

  // --------------------------------------------------------------- the applier

  datatype Sides = Sides(olds: seq<Raw>, news: seq<Raw>, rest: seq<string>)

  // Reads lines until both counts are used up. A marker after a line says the
  // line has no newline.
  function ReadBody(lines: seq<string>, o: nat, n: nat): (r: Option<Sides>)
    ensures r.Some? ==> |r.value.olds| == o && |r.value.news| == n && |r.value.rest| <= |lines|
  {
    if o == 0 && n == 0 then Some(Sides([], [], lines))
    else if lines == [] || lines[0] == "" then None
    else
      var open := |lines| > 1 && lines[1] == MARKER;
      var raw := Raw(lines[0][1..], !open);
      var rest := if open then lines[2..] else lines[1..];
      var c := lines[0][0];
      if c == ' ' && o > 0 && n > 0 then
        var r := ReadBody(rest, o - 1, n - 1);
        if r.None? then None else Some(r.value.(olds := [raw] + r.value.olds, news := [raw] + r.value.news))
      else if c == '-' && o > 0 then
        var r := ReadBody(rest, o - 1, n);
        if r.None? then None else Some(r.value.(olds := [raw] + r.value.olds))
      else if c == '+' && n > 0 then
        var r := ReadBody(rest, o, n - 1);
        if r.None? then None else Some(r.value.(news := [raw] + r.value.news))
      else None
  }

  // A missing count is one.
  function CountOf(count: Option<string>): nat
    requires count.Some? ==> AllDigits(count.value)
  {
    if count.Some? then Atoi(count.value) else 1
  }

  // The lines before the hunk on one side.
  function Before(start: string, count: nat): int
    requires AllDigits(start)
  {
    if count == 0 then Atoi(start) else Atoi(start) - 1
  }

  // Applies the hunks at the front of lines to what is left of the old file:
  // cur of its lines are behind, and made lines of the new file are written.
  function ApplyHunks(file: seq<Raw>, cur: nat, made: nat, lines: seq<string>): (r: Option<(seq<Raw>, seq<string>)>)
    requires cur <= |file|
    ensures r.Some? ==> |r.value.1| <= |lines|
    decreases |lines|
  {
    if lines == [] || ParseHeader(lines[0]).None? then Some((file[cur..], lines))
    else
      var h := ParseHeader(lines[0]).value;
      ScannedNumbers(lines[0]);
      var o, n := CountOf(h.oldCount), CountOf(h.newCount);
      var at, to := Before(h.oldStart, o), Before(h.newStart, n);
      var body := ReadBody(lines[1..], o, n);
      if body.None? || at < cur || at + o > |file| || file[at..at + o] != body.value.olds
         || made + (at - cur) != to then None
      else
        var tail := ApplyHunks(file, at + o, to + n, body.value.rest);
        if tail.None? then None else Some((file[cur..at] + body.value.news + tail.value.0, tail.value.1))
  }

  lemma ScannedNumbers(line: string)
    requires ParseHeader(line).Some?
    ensures var h := ParseHeader(line).value;
            Number(h.oldStart) && Number(h.newStart) && OptionalNumber(h.oldCount) && OptionalNumber(h.newCount)
  {
    hide TakeSide, AllDigits;
  }

  type Files = map<string, string>

  // A file section: its header lines, then its hunks. A new file must not
  // exist yet, a changed one must.
  function ApplyFiles(files: Files, lines: seq<string>): Option<Files>
    decreases |lines|
  {
    if lines == [] then Some(files)
    else if !HasPrefix(lines[0], "diff --git ") then None
    else
      var creates := |lines| > 1 && HasPrefix(lines[1], "new file mode ");
      var k := if creates then 2 else 1;
      if |lines| < k + 2 || !HasPrefix(lines[k], "--- ") || !HasPrefix(lines[k + 1], "+++ b/") then None
      else
        var name, source := lines[k + 1][6..], lines[k][4..];
        if creates != (name !in files) || source != (if creates then "/dev/null" else "a/" + name) then None
        else
          var r := ApplyHunks(RawLines(if creates then "" else files[name]), 0, 0, lines[k + 2..]);
          if r.None? then None else ApplyFiles(files[name := RawText(r.value.0)], r.value.1)
  }

  function ApplyPatch(files: Files, patch: string): Option<Files> {
    if !HasSuffix(patch, "\n") then None
    else
      var lines := Split(patch);
      ApplyFiles(files, lines[..|lines| - 1])
  }
}
