// Unified-diff hunk headers: @@ -start[,count] +start[,count] @@ tail
module Hunks {
  import opened Wrappers
  import opened Text

  datatype Header = Header(oldStart: string, oldCount: Option<string>,
                           newStart: string, newCount: Option<string>, tail: string)

  function CountText(count: Option<string>): string {
    match count
    case None => ""
    case Some(digits) => "," + digits
  }

  // One side of the header, followed by the rest of the line.
  function SideText(start: string, count: Option<string>, rest: string): string {
    start + (CountText(count) + rest)
  }

  // The text of the pattern's groups put back together.
  function HeaderText(h: Header): string {
    "@@ -" + SideText(h.oldStart, h.oldCount, " +" + SideText(h.newStart, h.newCount, " @@" + h.tail))
  }

  predicate OptionalNumber(count: Option<string>) {
    count.Some? ==> Number(count.value)
  }

  predicate WellFormed(h: Header) {
    Number(h.oldStart) && OptionalNumber(h.oldCount) && Number(h.newStart) && OptionalNumber(h.newCount)
    && NoNewline(h.tail)
  }

  // An optional ",digits" and what follows it.
  function TakeCount(s: string): (r: (Option<string>, string))
    ensures OptionalNumber(r.0) && s == CountText(r.0) + r.1
  {
    if s != "" && s[0] == ',' && DigitSpan(s[1..]) > 0 then
      var n := DigitSpan(s[1..]);
      assert s == "," + s[1..][..n] + s[1..][n..];
      (Some(s[1..][..n]), s[1..][n..])
    else (None, s)
  }

  function TakeSide(s: string): (r: Option<(string, Option<string>, string)>)
    ensures r.Some? ==> Number(r.value.0) && OptionalNumber(r.value.1)
                        && s == SideText(r.value.0, r.value.1, r.value.2)
  {
    var n := DigitSpan(s);
    if n == 0 then None
    else
      var (count, rest) := TakeCount(s[n..]);
      assert s == s[..n] + s[n..];
      Some((s[..n], count, rest))
  }

  // The hunkHeader pattern as a scanner.
  function ParseHeader(line: string): Option<Header> {
    if !HasPrefix(line, "@@ -") then None
    else
      var first := TakeSide(line[4..]);
      if first.None? || !HasPrefix(first.value.2, " +") then None
      else
        var second := TakeSide(first.value.2[2..]);
        if second.None? || !HasPrefix(second.value.2, " @@") then None
        else Some(Header(first.value.0, first.value.1, second.value.0, second.value.1, second.value.2[3..]))
  }

  lemma {:induction false} CountTaken(count: Option<string>, rest: string)
    requires OptionalNumber(count) && rest != "" && !IsDigit(rest[0]) && rest[0] != ','
    ensures TakeCount(CountText(count) + rest) == (count, rest)
  {
    var s := CountText(count) + rest;
    match count
    case None => assert s == rest;
    case Some(digits) =>
      assert s[1..] == digits + rest;
      SpanIsLongest(digits, rest);
      assert s[1..][..|digits|] == digits && s[1..][|digits|..] == rest;
  }

  lemma {:induction false} SideTaken(start: string, count: Option<string>, rest: string)
    requires Number(start) && OptionalNumber(count) && rest != "" && !IsDigit(rest[0]) && rest[0] != ','
    ensures TakeSide(SideText(start, count, rest)) == Some((start, count, rest))
  {
    var s, end := SideText(start, count, rest), CountText(count) + rest;
    assert !IsDigit(end[0]);
    SpanIsLongest(start, end);
    assert s[..|start|] == start && s[|start|..] == end;
    CountTaken(count, rest);
  }

  // The scanner accepts exactly the lines the pattern describes and yields
  // exactly its groups.
  lemma {:induction false} HeaderComplete(h: Header)
    requires WellFormed(h)
    ensures ParseHeader(HeaderText(h)) == Some(h)
  {
    hide TakeSide, SideText;
    var line, end := HeaderText(h), " @@" + h.tail;
    var rest := " +" + SideText(h.newStart, h.newCount, end);
    SideTaken(h.oldStart, h.oldCount, rest);
    SideTaken(h.newStart, h.newCount, end);
    assert line[4..] == SideText(h.oldStart, h.oldCount, rest);
    assert rest[2..] == SideText(h.newStart, h.newCount, end);
    assert end[3..] == h.tail;
  }

  lemma {:induction false} HeaderSound(line: string)
    requires NoNewline(line) && ParseHeader(line).Some?
    ensures WellFormed(ParseHeader(line).value) && HeaderText(ParseHeader(line).value) == line
  {
    hide SideText, TakeSide, NoNewline;
    var h := ParseHeader(line).value;
    var first := TakeSide(line[4..]).value;
    var second := TakeSide(first.2[2..]).value;
    assert line == "@@ -" + line[4..];
    assert first.2 == " +" + first.2[2..];
    assert second.2 == " @@" + second.2[3..];
    PlainRest(line, 4);
    EndIsPlain(line[4..], first.0, first.1, first.2);
    PlainRest(first.2, 2);
    EndIsPlain(first.2[2..], second.0, second.1, second.2);
    PlainRest(second.2, 3);
  }

  lemma PlainRest(s: string, k: nat)
    requires NoNewline(s) && k <= |s|
    ensures NoNewline(s[k..])
  {
  }

  lemma EndIsPlain(s: string, start: string, count: Option<string>, rest: string)
    requires NoNewline(s) && s == SideText(start, count, rest)
    ensures NoNewline(rest)
  {
    assert forall i | 0 <= i < |rest| :: rest[i] == s[|s| - |rest| + i];
  }

  lemma NotHeader(line: string)
    requires line == "" || line[0] != '@'
    ensures ParseHeader(line).None?
  {
    assert "@@ -"[0] == '@';
  }

  predicate IsHeader(line: string) { ParseHeader(line).Some? }

  // The header with its counts replaced.
  function WithCounts(h: Header, oldCount: nat, newCount: nat): Header {
    h.(oldCount := Some(Itoa(oldCount)), newCount := Some(Itoa(newCount)))
  }

  lemma {:induction false} RewrittenHeader(line: string, oldCount: nat, newCount: nat)
    requires NoNewline(line) && IsHeader(line)
    ensures var h := WithCounts(ParseHeader(line).value, oldCount, newCount);
            ParseHeader(HeaderText(h)) == Some(h) && WellFormed(h) && NoNewline(HeaderText(h))
  {
    HeaderSound(line);
    var h := WithCounts(ParseHeader(line).value, oldCount, newCount);
    HeaderComplete(h);
    DigitsPlain(h.oldStart);
    DigitsPlain(h.newStart);
    DigitsPlain(h.oldCount.value);
    DigitsPlain(h.newCount.value);
  }
}
