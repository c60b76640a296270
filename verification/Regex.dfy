// The regular expressions the path policy emits: their text and their meaning.
module Regex {
  import opened Wrappers

  datatype Re =
    | Empty
    | Literal(c: char)
    | NotNewline
    | NotSlash
    | Optional(re: Re)
    | Repeat(re: Re)
    | Then(first: Re, second: Re)

  // The whole of s is a word of re. A dot stands for any character but a
  // newline, a negated class for any character it does not list.
  predicate Accepts(re: Re, s: string)
    decreases re, |s|
  {
    match re
    case Empty => s == ""
    case Literal(c) => s == [c]
    case NotNewline => |s| == 1 && s[0] != '\n'
    case NotSlash => |s| == 1 && s[0] != '/'
    case Optional(r) => s == "" || Accepts(r, s)
    case Repeat(r) => s == "" || exists k | 0 < k <= |s| :: Accepts(r, s[..k]) && Accepts(re, s[k..])
    case Then(a, b) => exists k | 0 <= k <= |s| :: Accepts(a, s[..k]) && Accepts(b, s[k..])
  }

  // ------------------------------------------------------------------ reading

  const META := "\\.+*?()|[]{}^$"

  predicate Ends(s: string) { s == "" || s[0] == ')' || s[0] == '$' }

  predicate Quantified(s: string) { s != "" && (s[0] == '*' || s[0] == '?') }

  function ReadAtom(s: string): (r: Option<(Re, string)>)
    requires s != ""
    ensures r.Some? ==> |r.value.1| < |s|
    decreases |s|, 0
  {
    if s[0] == '.' then Some((NotNewline, s[1..]))
    else if s[0] == '\\' then
      if |s| > 1 && s[1] in META then Some((Literal(s[1]), s[2..])) else None
    else if "[^/]" <= s then Some((NotSlash, s[4..]))
    else if "(?:" <= s then
      var r := ReadAll(s[3..]);
      if r.Some? && r.value.1 != "" && r.value.1[0] == ')' then Some((r.value.0, r.value.1[1..])) else None
    else if s[0] in META then None
    else Some((Literal(s[0]), s[1..]))
  }

  function ReadItem(s: string): (r: Option<(Re, string)>)
    requires s != ""
    ensures r.Some? ==> |r.value.1| < |s|
    decreases |s|, 1
  {
    var a := ReadAtom(s);
    if a.None? then None
    else
      var (re, rest) := a.value;
      if !Quantified(rest) then Some((re, rest))
      else if Quantified(rest[1..]) then None
      else if rest[0] == '*' then Some((Repeat(re), rest[1..]))
      else Some((Optional(re), rest[1..]))
  }

  // Items until the end, a closing parenthesis or the final anchor.
  function ReadAll(s: string): (r: Option<(Re, string)>)
    ensures r.Some? ==> |r.value.1| <= |s|
    decreases |s|, 2
  {
    if Ends(s) then Some((Empty, s))
    else
      var item := ReadItem(s);
      if item.None? then None
      else
        var tail := ReadAll(item.value.1);
        if tail.None? then None else Some((Then(item.value.0, tail.value.0), tail.value.1))
  }

  // An expression anchored at both ends.
  function Compile(s: string): Option<Re> {
    if s == "" || s[0] != '^' then None
    else
      var r := ReadAll(s[1..]);
      if r.Some? && r.value.1 == "$" then Some(r.value.0) else None
  }

  // regexp.MatchString; an expression that does not compile is an error.
  function MatchString(expression: string, s: string): Option<bool> {
    var re := Compile(expression);
    if re.None? then None else Some(Accepts(re.value, s))
  }

  // regexp.QuoteMeta on one character.
  function Quote(c: char): string { if c in META then ['\\', c] else [c] }

  lemma {:induction false} ReadQuoted(c: char, rest: string)
    requires !Quantified(rest)
    ensures ReadItem(Quote(c) + rest) == Some((Literal(c), rest))
  {
    var s := Quote(c) + rest;
    assert s[0] == if c in META then '\\' else c;
    assert '\\' in META && '.' in META && '[' in META && '(' in META;
    if c in META {
      assert s[1] == c && s[2..] == rest;
    } else {
      assert s[1..] == rest;
      assert !("[^/]" <= s) && !("(?:" <= s) by {
        assert "[^/]"[0] == '[' && "(?:"[0] == '(';
      }
    }
    assert ReadAtom(s) == Some((Literal(c), rest));
  }

  // A repeated one-character expression accepts the words all of whose
  // characters it accepts.
  lemma {:induction false} RepeatedCharacters(re: Re, s: string)
    requires re == NotNewline || re == NotSlash
    ensures Accepts(Repeat(re), s) <==> forall i | 0 <= i < |s| :: Accepts(re, [s[i]])
  {
    if s != "" {
      RepeatedCharacters(re, s[1..]);
      assert s[..1] == [s[0]];
      assert forall i | 0 < i < |s| :: s[i] == s[1..][i - 1];
      assert forall i | 0 <= i < |s[1..]| :: s[1..][i] == s[i + 1];
      forall k | 0 < k <= |s| && Accepts(re, s[..k]) ensures k == 1 { assert |s[..k]| == k; }
    }
  }
}
