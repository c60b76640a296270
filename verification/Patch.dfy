// The whole-file unified-diff printer, and what its output means to a reader
// of unified diffs.
module Patch {
  import opened Wrappers
  import opened Text
  import opened Hunks
  import opened Diff
  import opened Paths
  import opened Utf8

  datatype PatchError = BudgetExhausted | Forbidden | ValidationRequired

  const MAX_FILES := 30
  const MAX_CONTENT := 65536
  const MAX_PATCH := 262144

  // ------------------------------------------------------------- what is allowed

  // The relative names that path.Clean leaves alone and that stay below the
  // root: no empty, "." or ".." segment.
  predicate CleanName(name: string) { Named(Segments(name)) }

  const BANNED := ['\\', '\0', '\r', '\n', '\t', ' ', '"']

  predicate PatchableName(name: string) {
    CleanName(name) && forall i | 0 <= i < |name| :: name[i] !in BANNED
  }

  predicate PatchableContent(next: string) {
    ValidUtf8(next) && '\0' !in next && |next| <= MAX_CONTENT
  }

  // ------------------------------------------------------------- what is printed

  // A line of one side, with the marker if no newline ends it, and what follows.
  function OneLine(prefix: char, raw: Raw, tail: seq<string>): seq<string> {
    [[prefix] + raw.text] + ((if raw.eol then [] else [MARKER]) + tail)
  }

  function Body(prefix: char, raws: seq<Raw>): seq<string> {
    if raws == [] then [] else OneLine(prefix, raws[0], Body(prefix, raws[1..]))
  }

  function StartText(count: nat): string { if count == 0 then "0" else "1" }

  // One hunk that replaces every line.
  function WholeHunk(o: nat, n: nat): Header {
    Header(StartText(o), Some(Itoa(o)), StartText(n), Some(Itoa(n)), "")
  }

  function HunkLines(a: seq<Raw>, b: seq<Raw>): seq<string> {
    if a == [] && b == [] then []
    else [HeaderText(WholeHunk(|a|, |b|))] + (Body('-', a) + Body('+', b))
  }

  function NameLines(name: string, present: bool): seq<string> {
    ["diff --git a/" + name + " b/" + name]
    + (if present then ["--- a/" + name] else ["new file mode 100644", "--- /dev/null"])
    + ["+++ b/" + name]
  }

  function Lookup(base: Files, name: string): string {
    if name in base then base[name] else ""
  }

  function Section(base: Files, name: string, next: string): seq<string> {
    NameLines(name, name in base) + HunkLines(RawLines(Lookup(base, name)), RawLines(next))
  }

  predicate Changed(base: Files, name: string, next: string) {
    !(name in base && base[name] == next)
  }

  predicate Listed(replacements: Files, names: seq<string>) {
    forall i | 0 <= i < |names| :: names[i] in replacements
  }

  function PatchLines(base: Files, replacements: Files, names: seq<string>): seq<string>
    requires Listed(replacements, names)
  {
    if names == [] then []
    else
      var name := names[|names| - 1];
      PatchLines(base, replacements, names[..|names| - 1])
      + if Changed(base, name, replacements[name]) then Section(base, name, replacements[name]) else []
  }

  // The first error met while printing, if any.
  function Failure(base: Files, replacements: Files, names: seq<string>): Option<PatchError>
    requires Listed(replacements, names)
  {
    if names == [] then None
    else
      var init, name := names[..|names| - 1], names[|names| - 1];
      var earlier, next := Failure(base, replacements, init), replacements[name];
      if earlier.Some? then earlier
      else if !PatchableName(name) then Some(Forbidden)
      else if !PatchableContent(next) then Some(BudgetExhausted)
      else if Changed(base, name, next) && (Lookup(base, name) != "" || next != "")
              && |Unlines(PatchLines(base, replacements, names))| > MAX_PATCH then Some(BudgetExhausted)
      else None
  }

  function Printed(base: Files, replacements: Files, names: seq<string>): Result<string, PatchError>
    requires Listed(replacements, names)
  {
    if !(1 <= |replacements| <= MAX_FILES) then Err(BudgetExhausted)
    else if Failure(base, replacements, names).Some? then Err(Failure(base, replacements, names).value)
    else if PatchLines(base, replacements, names) == [] then Err(ValidationRequired)
    else Ok(Unlines(PatchLines(base, replacements, names)))
  }

  // -------------------------------------------------- what its reader makes of it

  predicate NoMarkerFirst(lines: seq<string>) { lines != [] ==> lines[0] != MARKER }

  // Reading one printed line takes it, with its marker, and leaves the rest.
  lemma {:induction false} ReadOne(prefix: char, raw: Raw, tail: seq<string>, o: nat, n: nat)
    requires NoMarkerFirst(tail)
    requires (prefix == '-' && o > 0) || (prefix == '+' && n > 0)
    ensures var r := ReadBody(tail, if prefix == '-' then o - 1 else o, if prefix == '-' then n else n - 1);
            ReadBody(OneLine(prefix, raw, tail), o, n)
            == if r.None? then None
               else if prefix == '-' then Some(r.value.(olds := [raw] + r.value.olds))
               else Some(r.value.(news := [raw] + r.value.news))
  {
    var lines := OneLine(prefix, raw, tail);
    assert lines[0] == [prefix] + raw.text && lines[0][1..] == raw.text && lines[0][0] == prefix;
    if raw.eol {
      assert lines[1..] == tail;
    } else {
      assert lines[1] == MARKER && lines[2..] == tail;
    }
  }

  lemma {:induction false} BodyThen(prefix: char, raws: seq<Raw>, rest: seq<string>)
    requires raws != []
    ensures Body(prefix, raws) + rest == OneLine(prefix, raws[0], Body(prefix, raws[1..]) + rest)
  {
    hide OneLine;
    OneLineThen(prefix, raws[0], Body(prefix, raws[1..]), rest);
  }

  lemma OneLineThen(prefix: char, raw: Raw, tail: seq<string>, rest: seq<string>)
    ensures OneLine(prefix, raw, tail) + rest == OneLine(prefix, raw, tail + rest)
  {
    var marker := if raw.eol then [] else [MARKER];
    assert marker + tail + rest == marker + (tail + rest);
  }

  lemma {:induction false} BodyNoMarker(prefix: char, raws: seq<Raw>, rest: seq<string>)
    requires prefix != '\\' && NoMarkerFirst(rest)
    ensures NoMarkerFirst(Body(prefix, raws) + rest)
  {
    if raws == [] {
      assert Body(prefix, raws) + rest == rest;
    } else {
      var line := (Body(prefix, raws) + rest)[0];
      assert line == [prefix] + raws[0].text && line[0] == prefix && MARKER[0] == '\\';
    }
  }

  lemma ReadNothing(rest: seq<string>)
    ensures ReadBody(rest, 0, 0) == Some(Sides([], [], rest))
  {
  }

  lemma {:induction false} ReadNews(b: seq<Raw>, rest: seq<string>)
    requires NoMarkerFirst(rest)
    ensures ReadBody(Body('+', b) + rest, 0, |b|) == Some(Sides([], b, rest))
  {
    hide OneLine, NoMarkerFirst, ReadBody;
    if b == [] {
      assert Body('+', b) + rest == rest;
      ReadNothing(rest);
    } else {
      var tail := Body('+', b[1..]) + rest;
      BodyNoMarker('+', b[1..], rest);
      BodyThen('+', b, rest);
      ReadOne('+', b[0], tail, 0, |b|);
      ReadNews(b[1..], rest);
      assert b == [b[0]] + b[1..];
    }
  }

  lemma {:induction false} ReadOlds(a: seq<Raw>, b: seq<Raw>, rest: seq<string>)
    requires NoMarkerFirst(rest)
    ensures ReadBody(Body('-', a) + (Body('+', b) + rest), |a|, |b|) == Some(Sides(a, b, rest))
  {
    hide OneLine, NoMarkerFirst, ReadBody;
    var news := Body('+', b) + rest;
    BodyNoMarker('+', b, rest);
    if a == [] {
      assert Body('-', a) + news == news;
      ReadNews(b, rest);
    } else {
      var tail := Body('-', a[1..]) + news;
      BodyNoMarker('-', a[1..], news);
      BodyThen('-', a, news);
      ReadOne('-', a[0], tail, |a|, |b|);
      ReadOlds(a[1..], b, rest);
      assert a == [a[0]] + a[1..];
    }
  }

  predicate StartsSection(lines: seq<string>) {
    lines != [] ==> HasPrefix(lines[0], "diff --git ")
  }

  lemma {:induction false} WholeHunkRead(a: seq<Raw>, b: seq<Raw>)
    ensures var h := WholeHunk(|a|, |b|);
            && ParseHeader(HeaderText(h)) == Some(h)
            && CountOf(h.oldCount) == |a| && CountOf(h.newCount) == |b|
            && Before(h.oldStart, |a|) == 0 && Before(h.newStart, |b|) == 0
  {
    var h := WholeHunk(|a|, |b|);
    HeaderComplete(h);
    AtoiItoa(|a|);
    AtoiItoa(|b|);
    assert Itoa(0) == "0" && Itoa(1) == "1";
    AtoiItoa(0);
    AtoiItoa(1);
  }

  lemma {:induction false} SectionEndsHunks(file: seq<Raw>, cur: nat, made: nat, rest: seq<string>)
    requires cur <= |file| && StartsSection(rest)
    ensures ApplyHunks(file, cur, made, rest) == Some((file[cur..], rest)) && NoMarkerFirst(rest)
  {
    hide ParseHeader, ReadBody, CountOf, Before;
    if rest != [] {
      assert rest[0][0] == "diff --git "[0];
      NotHeader(rest[0]);
    }
  }

  // Reading the printed hunk back replaces the old lines by the new ones.
  lemma {:induction false} HunkApplies(a: seq<Raw>, b: seq<Raw>, rest: seq<string>)
    requires StartsSection(rest)
    ensures ApplyHunks(a, 0, 0, HunkLines(a, b) + rest) == Some((b, rest))
  {
    hide ParseHeader, HeaderText, WholeHunk, ReadBody, CountOf, Before, Body, StartsSection;
    if a == [] && b == [] {
      assert HunkLines(a, b) + rest == rest;
      SectionEndsHunks(a, 0, 0, rest);
    } else {
      var head, lines := HeaderText(WholeHunk(|a|, |b|)), HunkLines(a, b) + rest;
      assert lines == [head] + (Body('-', a) + (Body('+', b) + rest));
      hide HunkLines;
      WholeHunkRead(a, b);
      SectionEndsHunks(a, |a|, |b|, rest);
      ReadOlds(a, b, rest);
      assert a[0..|a|] == a && a[0..0] + b + a[|a|..] == b;
    }
  }

  // What a reader takes from a section's header lines.
  lemma {:induction false} NameLinesRead(name: string, present: bool)
    ensures var lines, k := NameLines(name, present), if present then 1 else 2;
            && |lines| == k + 2
            && HasPrefix(lines[0], "diff --git ")
            && (HasPrefix(lines[1], "new file mode ") <==> !present)
            && HasPrefix(lines[k], "--- ") && lines[k][4..] == (if present then "a/" + name else "/dev/null")
            && HasPrefix(lines[k + 1], "+++ b/") && lines[k + 1][6..] == name
  {
    var lines := NameLines(name, present);
    assert lines[0] == "diff --git " + ("a/" + name + " b/" + name);
    if present {
      assert lines == [lines[0], "--- a/" + name, "+++ b/" + name];
      assert lines[1] == "--- " + ("a/" + name) && lines[1][0] == '-';
    } else {
      assert lines == [lines[0], "new file mode 100644", "--- /dev/null", "+++ b/" + name];
      assert lines[1] == "new file mode " + "100644" && lines[2] == "--- " + "/dev/null";
    }
  }

  lemma {:induction false} SectionApplies(files: Files, name: string, next: string, rest: seq<string>)
    requires StartsSection(rest)
    ensures ApplyFiles(files, Section(files, name, next) + rest) == ApplyFiles(files[name := next], rest)
  {
    hide ApplyHunks, HunkLines, RawLines, RawText, NameLines, HasPrefix, StartsSection;
    var a, b := RawLines(Lookup(files, name)), RawLines(next);
    var head, tail := NameLines(name, name in files), HunkLines(a, b) + rest;
    assert Section(files, name, next) + rest == head + tail;
    hide Section;
    NameLinesRead(name, name in files);
    assert (head + tail)[|head|..] == tail;
    HunkApplies(a, b, rest);
    RawTextOfLines(next);
  }

  predicate NoDuplicates(names: seq<string>) {
    forall i, j | 0 <= i < j < |names| :: names[i] != names[j]
  }

  // base overlaid with the replacements of the names.
  function Overlay(base: Files, replacements: Files, names: seq<string>): Files
    requires Listed(replacements, names)
  {
    if names == [] then base
    else
      var name := names[|names| - 1];
      Overlay(base, replacements, names[..|names| - 1])[name := replacements[name]]
  }

  lemma {:induction false} OverlayAt(base: Files, replacements: Files, names: seq<string>)
    requires Listed(replacements, names)
    ensures forall n :: n in Overlay(base, replacements, names) <==> n in base || n in names
    ensures forall n | n in Overlay(base, replacements, names) ::
              Overlay(base, replacements, names)[n] == if n in names then replacements[n] else base[n]
  {
    if names != [] {
      OverlayAt(base, replacements, names[..|names| - 1]);
      assert names == names[..|names| - 1] + [names[|names| - 1]];
    }
  }

  lemma {:induction false} SectionStarts(base: Files, name: string, next: string, rest: seq<string>)
    requires StartsSection(rest)
    ensures StartsSection(Section(base, name, next) + rest) && Section(base, name, next) != []
  {
    assert (Section(base, name, next) + rest)[0] == "diff --git " + ("a/" + name + " b/" + name);
  }

  lemma {:induction false} PatchApplies(base: Files, replacements: Files, names: seq<string>, rest: seq<string>)
    requires Listed(replacements, names) && NoDuplicates(names) && StartsSection(rest)
    ensures ApplyFiles(base, PatchLines(base, replacements, names) + rest)
            == ApplyFiles(Overlay(base, replacements, names), rest)
  {
    hide ApplyFiles, Section, StartsSection;
    if names == [] {
      assert PatchLines(base, replacements, names) + rest == rest;
    } else {
      var init, name := names[..|names| - 1], names[|names| - 1];
      var next, sofar := replacements[name], Overlay(base, replacements, init);
      OverlayAt(base, replacements, init);
      assert name !in init;
      if Changed(base, name, next) {
        var tail := Section(base, name, next) + rest;
        assert PatchLines(base, replacements, names) + rest == PatchLines(base, replacements, init) + tail;
        SectionStarts(base, name, next, rest);
        PatchApplies(base, replacements, init, tail);
        assert Section(base, name, next) == Section(sofar, name, next) by { SameSection(base, sofar, name, next); }
        SectionApplies(sofar, name, next, rest);
      } else {
        assert PatchLines(base, replacements, names) + rest == PatchLines(base, replacements, init) + rest;
        PatchApplies(base, replacements, init, rest);
        assert sofar[name := next] == sofar;
      }
    }
  }

  lemma SameSection(a: Files, b: Files, name: string, next: string)
    requires name in a <==> name in b
    requires name in a ==> a[name] == b[name]
    ensures Section(a, name, next) == Section(b, name, next)
  {
  }

  lemma {:induction false} BodyPlain(prefix: char, raws: seq<Raw>)
    requires prefix != '\n' && forall i | 0 <= i < |raws| :: NoNewline(raws[i].text)
    ensures PlainLines(Body(prefix, raws))
  {
    if raws != [] { BodyPlain(prefix, raws[1..]); }
  }

  lemma {:induction false} HeaderPlain(o: nat, n: nat)
    ensures NoNewline(HeaderText(WholeHunk(o, n)))
  {
    DigitsPlain(Itoa(o));
    DigitsPlain(Itoa(n));
  }

  lemma NamesPlain(name: string, present: bool)
    requires NoNewline(name)
    ensures PlainLines(NameLines(name, present))
  {
    assert NoNewline("diff --git a/" + name + " b/" + name) && NoNewline("--- a/" + name) && NoNewline("+++ b/" + name);
  }

  lemma {:induction false} SectionPlain(base: Files, name: string, next: string)
    requires PatchableName(name)
    ensures PlainLines(Section(base, name, next))
  {
    hide HeaderText, WholeHunk, Body, CleanName, NameLines, RawLines;
    RawsPlain(Lookup(base, name));
    RawsPlain(next);
    var a, b := RawLines(Lookup(base, name)), RawLines(next);
    BodyPlain('-', a);
    BodyPlain('+', b);
    HeaderPlain(|a|, |b|);
    assert NoNewline(name) by { assert '\n' in BANNED; }
    NamesPlain(name, name in base);
  }

  lemma RawsPlain(content: string)
    ensures forall i | 0 <= i < |RawLines(content)| :: NoNewline(RawLines(content)[i].text)
  {
  }

  lemma {:induction false} PatchPlain(base: Files, replacements: Files, names: seq<string>)
    requires Listed(replacements, names) && Failure(base, replacements, names).None?
    ensures PlainLines(PatchLines(base, replacements, names))
  {
    if names != [] {
      hide Section, PatchableName, PatchableContent;
      PatchPlain(base, replacements, names[..|names| - 1]);
      SectionPlain(base, names[|names| - 1], replacements[names[|names| - 1]]);
    }
  }

  predicate Lists(replacements: Files, names: seq<string>) {
    Listed(replacements, names) && NoDuplicates(names) && forall n | n in replacements :: n in names
  }

  lemma {:induction false} OverlayAll(base: Files, replacements: Files, names: seq<string>)
    requires Lists(replacements, names)
    ensures Overlay(base, replacements, names) == base + replacements
  {
    OverlayAt(base, replacements, names);
  }

  // Printing, then applying what was printed, is writing the replacements.
  lemma {:induction false} PrintThenApply(base: Files, replacements: Files, names: seq<string>)
    requires Lists(replacements, names) && Printed(base, replacements, names).Ok?
    ensures ApplyPatch(base, Printed(base, replacements, names).value) == Some(base + replacements)
  {
    hide ApplyFiles, Failure, PatchLines, Unlines, Split, Overlay, Listed, NoDuplicates;
    var lines := PatchLines(base, replacements, names);
    PatchPlain(base, replacements, names);
    SplitUnlines(lines);
    UnlinesEnds(lines);
    assert (lines + [""])[..|lines|] == lines && lines + [] == lines;
    PatchApplies(base, replacements, names, []);
    OverlayAll(base, replacements, names);
    assert ApplyFiles(base + replacements, []) == Some(base + replacements) by { NothingLeft(base + replacements); }
  }

  lemma NothingLeft(files: Files)
    ensures ApplyFiles(files, []) == Some(files)
  {
  }
}
