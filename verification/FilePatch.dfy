// The printer itself: it appends to one string, file by file in name order.
module FilePatch {
  import opened Wrappers
  import opened Text
  import opened Sorting
  import opened Hunks
  import opened Diff
  import opened Patch
  import opened Paths
  import opened Utf8

  // The order the printer visits the replaced files in.
  predicate InOrder(replacements: Files, names: seq<string>) {
    Ascending(names, StringLess) && Listed(replacements, names) && forall n | n in replacements :: n in names
  }

  lemma {:induction false} InOrderLists(replacements: Files, names: seq<string>)
    requires InOrder(replacements, names)
    ensures Lists(replacements, names)
  {
    StringOrder();
    forall i, j | 0 <= i < j < |names| ensures names[i] != names[j] {
      assert StringLess(names[i], names[j]);
    }
  }

  lemma {:induction false} InOrderUnique(replacements: Files, a: seq<string>, b: seq<string>)
    requires InOrder(replacements, a) && InOrder(replacements, b)
    ensures a == b
  {
    StringOrder();
    AscendingUnique(a, b, StringLess);
  }

  method SortedNames(replacements: Files) returns (names: seq<string>)
    ensures InOrder(replacements, names)
  {
    var keys := replacements.Keys;
    names := [];
    while keys != {}
      invariant keys <= replacements.Keys
      invariant Distinct(names) && forall n :: n in names <==> n in replacements && n !in keys
    {
      var name :| name in keys;
      names := names + [name];
      keys := keys - {name};
    }
    StringOrder();
    SortAscends(names, StringLess);
    names := Sort(names, StringLess);
    assert forall i | 0 <= i < |names| :: names[i] in names;
  }

  function Lines(content: string): seq<string> {
    if content == "" then [] else Split(TrimNewline(content))
  }

  lemma LinesOfRaw(content: string)
    ensures var raws := RawLines(content);
            && |raws| == |Lines(content)|
            && forall i | 0 <= i < |raws| ::
                 raws[i] == Raw(Lines(content)[i], i < |raws| - 1 || HasSuffix(content, "\n"))
  {
  }

  lemma OneLineThen(prefix: char, raw: Raw, tail: seq<string>)
    ensures OneLine(prefix, raw, tail) == OneLine(prefix, raw, []) + tail
  {
  }

  lemma {:induction false} BodyGrows(prefix: char, raws: seq<Raw>, k: nat)
    requires k < |raws|
    ensures Body(prefix, raws[..k + 1]) == Body(prefix, raws[..k]) + OneLine(prefix, raws[k], [])
  {
    hide OneLine;
    if k == 0 {
      assert raws[..1] == [raws[0]] && raws[..0] == [];
      assert [raws[0]][1..] == [];
    } else {
      BodyGrows(prefix, raws[1..], k - 1);
      assert raws[..k + 1][1..] == raws[1..][..k] && raws[..k][1..] == raws[1..][..k - 1];
      OneLineThen(prefix, raws[0], Body(prefix, raws[1..][..k]));
      OneLineThen(prefix, raws[0], Body(prefix, raws[1..][..k - 1]));
    }
  }

  // One side of the hunk, line by line.
  method WriteSide(out: string, prefix: char, lines: seq<string>, content: string) returns (r: string)
    requires lines == Lines(content)
    ensures r == out + Unlines(Body(prefix, RawLines(content)))
  {
    hide Lines, RawLines, Body, OneLine, Unlines, HasSuffix;
    r := out;
    ghost var raws := RawLines(content);
    LinesOfRaw(content);
    assert raws[..0] == [];
    EmptyText(prefix);
    for i := 0 to |lines|
      invariant r == out + Unlines(Body(prefix, raws[..i]))
    {
      BodyGrows(prefix, raws, i);
      UnlinesAppend(Body(prefix, raws[..i]), OneLine(prefix, raws[i], []));
      OneLineText(prefix, raws[i]);
      r := r + ([prefix] + lines[i] + "\n");
      if i == |lines| - 1 && !HasSuffix(content, "\n") {
        r := r + (MARKER + "\n");
      }
    }
    assert raws[..|lines|] == raws;
  }

  lemma EmptyText(prefix: char)
    ensures Unlines(Body(prefix, [])) == ""
  {
  }

  lemma OneLineText(prefix: char, raw: Raw)
    ensures Unlines(OneLine(prefix, raw, [])) == [prefix] + raw.text + "\n" + if raw.eol then "" else MARKER + "\n"
  {
    var line := [prefix] + raw.text;
    if raw.eol {
      assert OneLine(prefix, raw, []) == [line];
      assert [line][1..] == [];
    } else {
      assert OneLine(prefix, raw, []) == [line, MARKER];
      assert [line, MARKER][1..] == [MARKER] && [MARKER][1..] == [];
      assert Unlines([MARKER]) == MARKER + "\n";
      assert Unlines([line, MARKER]) == line + "\n" + Unlines([MARKER]);
    }
  }

  // The same hunk header, printed from the two lengths.
  lemma CountsText(o: nat, n: nat)
    ensures HeaderText(WholeHunk(o, n))
            == "@@ -" + StartText(o) + "," + Itoa(o) + " +" + StartText(n) + "," + Itoa(n) + " @@"
  {
  }

  method WriteHunk(out: string, before: string, next: string) returns (r: string)
    requires before != "" || next != ""
    ensures r == out + Unlines(HunkLines(RawLines(before), RawLines(next)))
  {
    hide Unlines, Body, HeaderText, WholeHunk, Itoa, RawLines;
    ghost var a, b := RawLines(before), RawLines(next);
    var olds, news := Lines(before), Lines(next);
    LinesOfRaw(before);
    LinesOfRaw(next);
    var oldStart, newStart := "1", "1";
    if |olds| == 0 { oldStart := "0"; }
    if |news| == 0 { newStart := "0"; }
    CountsText(|olds|, |news|);
    r := out + ("@@ -" + oldStart + "," + Itoa(|olds|) + " +" + newStart + "," + Itoa(|news|) + " @@" + "\n");
    r := WriteSide(r, '-', olds, before);
    r := WriteSide(r, '+', news, next);
    HunkText(a, b);
  }

  lemma HunkText(a: seq<Raw>, b: seq<Raw>)
    requires a != [] || b != []
    ensures Unlines(HunkLines(a, b))
            == (HeaderText(WholeHunk(|a|, |b|)) + "\n") + Unlines(Body('-', a)) + Unlines(Body('+', b))
  {
    hide Body, HeaderText, WholeHunk;
    UnlinesAppend(Body('-', a), Body('+', b));
    assert HunkLines(a, b)[1..] == Body('-', a) + Body('+', b);
  }

  lemma OneText(line: string, lines: seq<string>)
    ensures Unlines([line] + lines) == line + "\n" + Unlines(lines)
  {
    assert ([line] + lines)[1..] == lines;
  }

  lemma ThreeTexts(a: string, b: string, c: string)
    ensures Unlines([a, b, c]) == a + "\n" + (b + "\n") + (c + "\n")
  {
    hide Unlines;
    NoText();
    OneText(c, []);
    OneText(b, [c]);
    OneText(a, [b, c]);
    assert [c] + [] == [c] && [b] + [c] == [b, c] && [a] + [b, c] == [a, b, c];
  }

  lemma NamesText(name: string, present: bool)
    ensures Unlines(NameLines(name, present))
            == "diff --git a/" + name + " b/" + name + "\n"
               + (if present then "--- a/" + name + "\n" else "new file mode 100644\n--- /dev/null\n")
               + ("+++ b/" + name + "\n")
  {
    hide Unlines;
    var first, last := "diff --git a/" + name + " b/" + name, "+++ b/" + name;
    if present {
      ThreeTexts(first, "--- a/" + name, last);
      assert NameLines(name, present) == [first, "--- a/" + name, last];
    } else {
      NewFileText(first, last);
      assert NameLines(name, present) == [first, "new file mode 100644", "--- /dev/null", last];
    }
  }

  lemma NewFileText(first: string, last: string)
    ensures Unlines([first, "new file mode 100644", "--- /dev/null", last])
            == first + "\n" + "new file mode 100644\n--- /dev/null\n" + (last + "\n")
  {
    hide Unlines;
    ThreeTexts("new file mode 100644", "--- /dev/null", last);
    var rest := ["new file mode 100644", "--- /dev/null", last];
    OneText(first, rest);
    assert [first] + rest == [first, "new file mode 100644", "--- /dev/null", last];
    assert "new file mode 100644" + "\n" + ("--- /dev/null" + "\n") == "new file mode 100644\n--- /dev/null\n";
  }

  lemma NoText()
    ensures Unlines([]) == ""
  {
  }

  lemma {:induction false} FirstFailure(base: Files, replacements: Files, names: seq<string>, k: nat)
    requires Listed(replacements, names) && k <= |names| && Failure(base, replacements, names[..k]).Some?
    ensures Failure(base, replacements, names) == Failure(base, replacements, names[..k])
    decreases |names|
  {
    hide PatchLines, PatchableName, PatchableContent, Changed;
    if k == |names| {
      assert names[..k] == names;
    } else {
      var init := names[..|names| - 1];
      assert init[..k] == names[..k];
      FirstFailure(base, replacements, init, k);
    }
  }

  lemma {:induction false} OneMoreName(base: Files, replacements: Files, names: seq<string>, k: nat)
    requires Listed(replacements, names) && k < |names|
    ensures var name, next := names[k], replacements[names[k]];
            PatchLines(base, replacements, names[..k + 1])
            == PatchLines(base, replacements, names[..k])
               + if Changed(base, name, next) then Section(base, name, next) else []
    ensures var name, next := names[k], replacements[names[k]];
            Failure(base, replacements, names[..k]).None? ==>
              Failure(base, replacements, names[..k + 1])
              == if !PatchableName(name) then Some(Forbidden)
                 else if !PatchableContent(next) then Some(BudgetExhausted)
                 else if Changed(base, name, next) && (Lookup(base, name) != "" || next != "")
                      && |Unlines(PatchLines(base, replacements, names[..k + 1]))| > MAX_PATCH then
                   Some(BudgetExhausted)
                 else None
  {
    hide Section, PatchableName, PatchableContent, Changed, Unlines;
    assert names[..k + 1][..k] == names[..k];
  }

  // One file's section, appended to what is written so far.
  method WriteSection(out: string, base: Files, name: string, next: string) returns (r: string)
    ensures r == out + Unlines(Section(base, name, next))
  {
    hide Unlines, NameLines, HunkLines, RawLines;
    ghost var head := NameLines(name, name in base);
    ghost var hunk := HunkLines(RawLines(Lookup(base, name)), RawLines(next));
    var before := if name in base then base[name] else "";
    NamesText(name, name in base);
    UnlinesAppend(head, hunk);
    r := out + ("diff --git a/" + name + " b/" + name + "\n"
                + (if name in base then "--- a/" + name + "\n" else "new file mode 100644\n--- /dev/null\n")
                + ("+++ b/" + name + "\n"));
    if before == "" && next == "" {
      NoHunk();
      return;
    }
    r := WriteHunk(r, before, next);
  }

  lemma NoHunk()
    ensures Unlines(HunkLines(RawLines(""), RawLines(""))) == ""
  {
  }

  lemma NothingPrinted(lines: seq<string>)
    ensures Unlines(lines) == "" <==> lines == []
  {
  }

  // What is printed depends only on the maps, and applying it to base gives
  // base overlaid with the replacements.
  method FilePatch(base: Files, replacements: Files) returns (r: Result<string, PatchError>)
    ensures exists names :: InOrder(replacements, names) && r == Printed(base, replacements, names)
    ensures forall names | InOrder(replacements, names) :: r == Printed(base, replacements, names)
    ensures r.Ok? ==> ApplyPatch(base, r.value) == Some(base + replacements)
  {
    hide PatchLines, Failure, InOrder, Lists, Unlines, Section, PatchableName, PatchableContent, Changed, ApplyPatch,
         Clean;
    var names := SortedNames(replacements);
    forall other | InOrder(replacements, other) ensures other == names { InOrderUnique(replacements, other, names); }
    InOrderLists(replacements, names);
    ListsListed(replacements, names);
    if |replacements| < 1 || |replacements| > MAX_FILES { return Err(BudgetExhausted); }
    var out := "";
    NothingYet(base, replacements, names);
    for k := 0 to |names|
      invariant out == Unlines(PatchLines(base, replacements, names[..k]))
      invariant Failure(base, replacements, names[..k]).None?
    {
      var name := names[k];
      var next := replacements[name];
      OneMoreName(base, replacements, names, k);
      if Failure(base, replacements, names[..k + 1]).Some? { FirstFailure(base, replacements, names, k + 1); }
      SourceNames(name);
      if Clean(name) != name || Rooted(name) || name == "." || name == ".." || "../" <= name
         || exists i | 0 <= i < |name| :: name[i] in BANNED {
        return Err(Forbidden);
      }
      if !PatchableContent(next) { return Err(BudgetExhausted); }
      if name in base && base[name] == next {
        Unchanged(base, name, next);
        assert PatchLines(base, replacements, names[..k]) + [] == PatchLines(base, replacements, names[..k]);
        continue;
      }
      Unchanged(base, name, next);
      UnlinesAppend(PatchLines(base, replacements, names[..k]), Section(base, name, next));
      out := WriteSection(out, base, name, next);
      if (name !in base || base[name] == "") && next == "" { continue; }
      if |out| > MAX_PATCH { return Err(BudgetExhausted); }
    }
    assert names[..|names|] == names;
    NothingPrinted(PatchLines(base, replacements, names));
    if |out| == 0 { return Err(ValidationRequired); }
    PrintThenApply(base, replacements, names);
    return Ok(out);
  }

  lemma SourceNames(name: string)
    ensures PatchableName(name) <==>
              Clean(name) == name && !Rooted(name) && name != "." && name != ".." && !("../" <= name)
              && forall i | 0 <= i < |name| :: name[i] !in BANNED
  {
    CleanBelow(name);
  }

  lemma Unchanged(base: Files, name: string, next: string)
    ensures Changed(base, name, next) <==> !(name in base && base[name] == next)
  {
  }

  lemma ListsListed(replacements: Files, names: seq<string>)
    requires Lists(replacements, names)
    ensures Listed(replacements, names)
  {
  }

  lemma NothingYet(base: Files, replacements: Files, names: seq<string>)
    ensures PatchLines(base, replacements, []) == [] && Failure(base, replacements, []).None?
    ensures Unlines([]) == "" && names[..0] == []
  {
  }

  // A changed file whose section has a hunk.
  predicate Hunked(base: Files, replacements: Files, name: string)
    requires name in replacements
  {
    && (name !in base || base[name] != replacements[name])
    && ((name in base && base[name] != "") || replacements[name] != "")
  }

  predicate Fits(base: Files, replacements: Files, names: seq<string>, k: nat)
    requires Listed(replacements, names) && k < |names|
  {
    Hunked(base, replacements, names[k]) ==> |Unlines(PatchLines(base, replacements, names[..k + 1]))| <= 262144
  }

  lemma FitsEarlier(base: Files, replacements: Files, names: seq<string>, k: nat)
    requires Listed(replacements, names) && k < |names| - 1
    ensures Fits(base, replacements, names, k) <==> Fits(base, replacements, names[..|names| - 1], k)
  {
    hide Unlines, PatchLines;
    assert names[..|names| - 1][..k + 1] == names[..k + 1];
  }

  lemma LastFits(base: Files, replacements: Files, names: seq<string>)
    requires Listed(replacements, names) && names != []
    ensures var name := names[|names| - 1];
            Fits(base, replacements, names, |names| - 1) <==>
              !(Changed(base, name, replacements[name]) && (Lookup(base, name) != "" || replacements[name] != "")
                && |Unlines(PatchLines(base, replacements, names))| > MAX_PATCH)
  {
    hide Unlines, PatchLines;
    assert names[..|names|] == names;
  }

  predicate AllowedName(name: string) {
    && Clean(name) == name && !Rooted(name) && name != "." && name != ".." && !("../" <= name)
    && '\\' !in name && '\0' !in name && '\r' !in name && '\n' !in name && '\t' !in name && ' ' !in name && '"' !in name
  }

  predicate AllowedContent(next: string) { ValidUtf8(next) && '\0' !in next && |next| <= 65536 }

  lemma AllowedMeans(name: string, next: string)
    ensures AllowedName(name) <==> PatchableName(name)
    ensures AllowedContent(next) <==> PatchableContent(next)
  {
    hide Clean, Rooted, CleanName, ValidUtf8;
    SourceNames(name);
    assert forall c :: c in BANNED <==> c in ['\\', '\0', '\r', '\n', '\t', ' ', '"'];
    assert (forall i | 0 <= i < |name| :: name[i] !in BANNED) <==> (forall c | c in BANNED :: c !in name);
  }

  predicate Allowed(replacements: Files, names: seq<string>)
    requires Listed(replacements, names)
  {
    forall i | 0 <= i < |names| :: AllowedName(names[i]) && AllowedContent(replacements[names[i]])
  }

  lemma AllNames(replacements: Files, names: seq<string>)
    requires Listed(replacements, names) && names != []
    ensures var n := |names| - 1;
            Allowed(replacements, names) <==>
              Allowed(replacements, names[..n]) && PatchableName(names[n]) && PatchableContent(replacements[names[n]])
  {
    hide PatchableName, PatchableContent, AllowedName, AllowedContent;
    AllowedMeans(names[|names| - 1], replacements[names[|names| - 1]]);
    var n := |names| - 1;
    assert forall i | 0 <= i < n :: names[..n][i] == names[i];
  }

  lemma NoNames(replacements: Files)
    ensures Allowed(replacements, [])
  {
  }

  // Nothing fails exactly if every name and every content is allowed and what is
  // written up to each hunk fits.
  lemma {:induction false} PrintsExactly(base: Files, replacements: Files, names: seq<string>)
    requires Listed(replacements, names)
    ensures Failure(base, replacements, names).None? <==>
              && Allowed(replacements, names)
              && (forall k | 0 <= k < |names| :: Fits(base, replacements, names, k))
  {
    hide PatchableName, PatchableContent, Unlines, Section, PatchLines, Allowed, Fits;
    if names != [] {
      var n := |names| - 1;
      var init := names[..n];
      PrintsExactly(base, replacements, init);
      forall k | 0 <= k < n ensures Fits(base, replacements, names, k) <==> Fits(base, replacements, init, k) {
        FitsEarlier(base, replacements, names, k);
      }
      LastFits(base, replacements, names);
      AllNames(replacements, names);
    } else {
      assert Allowed(replacements, names) by { NoNames(replacements); }
    }
  }

  // It prints exactly one to thirty files of allowed names and contents, of
  // which some change and whose text fits.
  lemma {:induction false} SucceedsExactly(base: Files, replacements: Files, names: seq<string>)
    requires Lists(replacements, names)
    ensures Printed(base, replacements, names).Ok? <==>
              && 1 <= |replacements| <= 30 && Allowed(replacements, names)
              && (forall k | 0 <= k < |names| :: Fits(base, replacements, names, k))
              && exists name | name in replacements :: name !in base || base[name] != replacements[name]
  {
    hide Allowed, Fits, PatchLines, Failure;
    ListsListed(replacements, names);
    PrintsExactly(base, replacements, names);
    SomePrinted(base, replacements, names);
  }

  lemma {:induction false} SomePrinted(base: Files, replacements: Files, names: seq<string>)
    requires Listed(replacements, names)
    ensures PatchLines(base, replacements, names) != [] <==>
              exists i | 0 <= i < |names| :: Changed(base, names[i], replacements[names[i]])
  {
    hide Changed, Section;
    if names != [] {
      var n := |names| - 1;
      SomePrinted(base, replacements, names[..n]);
      assert forall i | 0 <= i < n :: names[..n][i] == names[i];
      SectionPrinted(base, names[n], replacements[names[n]]);
    }
  }

  lemma SectionPrinted(base: Files, name: string, next: string)
    ensures Section(base, name, next) != []
  {
  }
}
