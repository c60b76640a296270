// File patterns of a work packet: the expression they are turned into, and
// what they match.
module Glob {
  import opened Wrappers
  import opened Text
  import opened Regex

  // ------------------------------------------------------- what a pattern means

  datatype Token = Directories | Everything | Run | One | Exactly(c: char)

  function First(p: string): (t: Token)
    requires p != ""
  {
    if "**/" <= p then Directories
    else if "**" <= p then Everything
    else if p[0] == '*' then Run
    else if p[0] == '?' then One
    else Exactly(p[0])
  }

  function Width(t: Token): nat {
    match t case Directories => 3 case Everything => 2 case _ => 1
  }

  function Rest(p: string): (r: string)
    requires p != ""
    ensures |r| < |p|
  {
    p[Width(First(p))..]
  }

  predicate NoSlash(s: string) { '/' !in s }

  // The pieces of a name a token stands for.
  predicate Covers(t: Token, piece: string) {
    match t
    case Directories => piece == "" || (piece[|piece| - 1] == '/' && NoNewline(piece[..|piece| - 1]))
    case Everything => NoNewline(piece)
    case Run => NoSlash(piece)
    case One => |piece| == 1 && NoSlash(piece)
    case Exactly(c) => piece == [c]
  }

  predicate Matches(p: string, name: string) {
    if p == "" then name == ""
    else exists k | 0 <= k <= |name| :: Covers(First(p), name[..k]) && Matches(Rest(p), name[k..])
  }

  // ------------------------------------------------------- what is emitted

  function Code(t: Token): string {
    match t
    case Directories => "(?:.*/)?"
    case Everything => ".*"
    case Run => "[^/]*"
    case One => "[^/]"
    case Exactly(c) => Quote(c)
  }

  function Emitted(p: string): string {
    if p == "" then "" else Code(First(p)) + Emitted(Rest(p))
  }

  function Expression(p: string): string { "^" + Emitted(p) + "$" }

  function Meaning(t: Token): Re {
    match t
    case Directories => Optional(Then(Repeat(NotNewline), Then(Literal('/'), Empty)))
    case Everything => Repeat(NotNewline)
    case Run => Repeat(NotSlash)
    case One => NotSlash
    case Exactly(c) => Literal(c)
  }

  function PatternRe(p: string): Re {
    if p == "" then Empty else Then(Meaning(First(p)), PatternRe(Rest(p)))
  }

  // ------------------------------------------- the expression reads as intended

  lemma CodeFirst(t: Token)
    ensures Code(t) != "" && !Quantified(Code(t)) && !Ends(Code(t))
  {
    assert '*' in META && '?' in META && ')' in META && '$' in META && '\\' in META;
  }

  lemma {:induction false} CodeStarts(p: string, rest: string)
    requires !Quantified(rest)
    ensures !Quantified(Emitted(p) + rest) && (p != "" ==> !Ends(Emitted(p) + rest))
  {
    hide Code, First, Rest;
    if p == "" {
      assert Emitted(p) + rest == rest;
    } else {
      CodeFirst(First(p));
      assert (Emitted(p) + rest)[0] == Code(First(p))[0];
    }
  }

  lemma {:induction false} ReadStarred(code: string, re: Re, rest: string)
    requires (code == "." && re == NotNewline) || (code == "[^/]" && re == NotSlash)
    requires !Quantified(rest)
    ensures ReadItem(code + "*" + rest) == Some((Repeat(re), rest))
    ensures ReadItem(code + rest) == Some((re, rest))
  {
    var s := code + "*" + rest;
    var t := code + rest;
    assert s[|code|..] == "*" + rest && t[|code|..] == rest;
    assert ("*" + rest)[1..] == rest;
    assert s[0] == code[0] && t[0] == code[0];
    if code == "[^/]" { assert s[..4] == code && t[..4] == code; }
    assert ReadAtom(s) == Some((re, "*" + rest));
    assert ReadAtom(t) == Some((re, rest));
  }

  function DirectoriesBody(): Re { Then(Repeat(NotNewline), Then(Literal('/'), Empty)) }

  lemma {:induction false} ReadItems(code: string, re: Re, more: Re, tail: string, rest: string)
    requires code != "" && !Ends(code) && !Quantified(tail)
    requires ReadItem(code + tail) == Some((re, tail)) && ReadAll(tail) == Some((more, rest))
    ensures ReadAll(code + tail) == Some((Then(re, more), rest))
  {
    hide ReadItem;
    assert (code + tail)[0] == code[0];
  }

  lemma {:induction false} ReadGroup(rest: string)
    ensures ReadAll(".*" + ("/" + (")?" + rest))) == Some((DirectoriesBody(), ")?" + rest))
  {
    hide ReadItem, ReadAll;
    var closing := ")?" + rest;
    assert closing[0] == ')';
    assert ReadAll(closing) == Some((Empty, closing)) by { ReadNothing(closing); }
    ReadQuoted('/', closing);
    assert '/' !in META && Quote('/') == "/";
    ReadItems("/", Literal('/'), Empty, closing, closing);
    ReadStarred(".", NotNewline, "/" + closing);
    assert ".*" + ("/" + closing) == "." + "*" + ("/" + closing);
    ReadItems(".*", Repeat(NotNewline), Then(Literal('/'), Empty), "/" + closing, closing);
  }

  lemma ReadNothing(s: string)
    requires Ends(s)
    ensures ReadAll(s) == Some((Empty, s))
  {
  }

  lemma {:induction false} ReadDirectories(rest: string)
    requires !Quantified(rest)
    ensures ReadItem("(?:.*/)?" + rest) == Some((Meaning(Directories), rest))
  {
    hide ReadAll;
    var s := "(?:.*/)?" + rest;
    var closing := ")?" + rest;
    assert s[..3] == "(?:" && s[3..] == ".*" + ("/" + closing);
    ReadGroup(rest);
    assert closing[1..] == "?" + rest && closing[1..][1..] == rest;
    assert ReadAtom(s) == Some((DirectoriesBody(), "?" + rest));
  }

  lemma {:induction false} ReadCode(t: Token, rest: string)
    requires !Quantified(rest)
    ensures ReadItem(Code(t) + rest) == Some((Meaning(t), rest))
  {
    hide ReadItem;
    match t
    case Directories => ReadDirectories(rest);
    case Everything =>
      ReadStarred(".", NotNewline, rest);
      assert ".*" + rest == "." + "*" + rest;
    case Run =>
      ReadStarred("[^/]", NotSlash, rest);
      assert "[^/]*" + rest == "[^/]" + "*" + rest;
    case One => ReadStarred("[^/]", NotSlash, rest);
    case Exactly(c) => ReadQuoted(c, rest);
  }

  lemma {:induction false} ReadEmitted(p: string)
    ensures ReadAll(Emitted(p) + "$") == Some((PatternRe(p), "$"))
    decreases |p|
  {
    hide ReadItem, Meaning, Code, First, Rest;
    if p == "" {
      assert Emitted(p) + "$" == "$";
    } else {
      var tail := Emitted(Rest(p)) + "$";
      assert Emitted(p) + "$" == Code(First(p)) + tail;
      CodeStarts(Rest(p), "$");
      CodeStarts(p, "$");
      ReadCode(First(p), tail);
      ReadEmitted(Rest(p));
    }
  }

  // The emitted expression always compiles, and to the intended expression.
  lemma {:induction false} ExpressionCompiles(p: string)
    ensures Compile(Expression(p)) == Some(PatternRe(p))
  {
    hide ReadAll, Emitted;
    ReadEmitted(p);
    assert Expression(p)[1..] == Emitted(p) + "$";
  }

  // ------------------------------------------- and means what the pattern means

  lemma {:induction false} DirectoriesMeaning(piece: string)
    ensures Accepts(Meaning(Directories), piece) <==> Covers(Directories, piece)
  {
    var body := Then(Repeat(NotNewline), Then(Literal('/'), Empty));
    forall k | 0 <= k <= |piece|
      ensures Accepts(Then(Literal('/'), Empty), piece[k..]) <==> piece[k..] == "/"
    {
      var s := piece[k..];
      assert s == "/" ==> s[..1] == "/" && s[1..] == "";
      forall j | 0 <= j <= |s| && Accepts(Literal('/'), s[..j]) && Accepts(Empty, s[j..]) ensures s == "/" {
        assert s == s[..j] + s[j..];
      }
    }
    if piece != "" {
      var last := |piece| - 1;
      RepeatedCharacters(NotNewline, piece[..last]);
      assert piece[last..] == [piece[last]];
      forall k | 0 <= k <= |piece| && piece[k..] == "/" ensures k == last { assert |piece[k..]| == 1; }
    }
  }

  lemma {:induction false} TokenMeaning(t: Token, piece: string)
    ensures Accepts(Meaning(t), piece) <==> Covers(t, piece)
  {
    match t
    case Directories => DirectoriesMeaning(piece);
    case Everything => RepeatedCharacters(NotNewline, piece);
    case Run => RepeatedCharacters(NotSlash, piece);
    case One =>
    case Exactly(c) =>
  }

  lemma {:induction false} PatternMeaning(p: string, name: string)
    ensures Accepts(PatternRe(p), name) <==> Matches(p, name)
    decreases |p|
  {
    hide Covers, Meaning, First, Rest;
    if p != "" {
      forall k | 0 <= k <= |name|
        ensures Accepts(Meaning(First(p)), name[..k]) <==> Covers(First(p), name[..k])
        ensures Accepts(PatternRe(Rest(p)), name[k..]) <==> Matches(Rest(p), name[k..])
      {
        TokenMeaning(First(p), name[..k]);
        PatternMeaning(Rest(p), name[k..]);
      }
    }
  }

  // ------------------------------------------------------------ the compiler

  // The token at i, by the characters the compiler looks at.
  lemma {:induction false} TokenAt(p: string, i: nat)
    requires i < |p|
    ensures var t := First(p[i..]);
            && i + Width(t) <= |p| && p[i..][Width(t)..] == p[i + Width(t)..]
            && (p[i] == '*' && i + 1 < |p| && p[i + 1] == '*' ==>
                  if i + 2 < |p| && p[i + 2] == '/' then Width(t) == 3 && Code(t) == "(?:.*/)?"
                  else Width(t) == 2 && Code(t) == ".*")
            && (p[i] == '*' && !(i + 1 < |p| && p[i + 1] == '*') ==> Width(t) == 1 && Code(t) == "[^/]*")
            && (p[i] == '?' ==> Width(t) == 1 && Code(t) == "[^/]")
            && (p[i] != '*' && p[i] != '?' ==> Width(t) == 1 && Code(t) == Quote(p[i]))
  {
    hide Quote;
    var s := p[i..];
    assert s[0] == p[i] && (|s| > 1 ==> s[1] == p[i + 1]) && (|s| > 2 ==> s[2] == p[i + 2]);
    assert "**" <= s <==> |s| > 1 && s[0] == '*' && s[1] == '*' by { assert |s| > 1 ==> s[..2] == [s[0], s[1]]; }
    assert "**/" <= s <==> |s| > 2 && s[0] == '*' && s[1] == '*' && s[2] == '/' by {
      assert |s| > 2 ==> s[..3] == [s[0], s[1], s[2]];
    }
  }

  lemma {:induction false} EmittedAt(p: string, i: nat, sofar: string)
    requires i < |p|
    ensures var t := First(p[i..]);
            && i + Width(t) <= |p|
            && (sofar + Code(t)) + Emitted(p[i + Width(t)..]) == sofar + Emitted(p[i..])
  {
    hide Code, First, Emitted;
    TokenAt(p, i);
    var t := First(p[i..]);
    assert Emitted(p[i..]) == Code(t) + Emitted(p[i + Width(t)..]) by { EmittedFirst(p[i..]); }
  }

  lemma EmittedFirst(p: string)
    requires p != ""
    ensures Emitted(p) == Code(First(p)) + Emitted(Rest(p))
  {
  }

  function ReplaceBackslashes(s: string): (r: string)
    ensures |r| == |s| && '\\' !in r
  {
    if s == "" then "" else [if s[0] == '\\' then '/' else s[0]] + ReplaceBackslashes(s[1..])
  }

  lemma {:induction false} Replaced(s: string, i: nat)
    requires i < |s|
    ensures ReplaceBackslashes(s)[i] == if s[i] == '\\' then '/' else s[i]
  {
    if i > 0 { Replaced(s[1..], i - 1); }
  }

  function TrimPrefix(s: string, prefix: string): string {
    if prefix <= s then s[|prefix|..] else s
  }

  // How patterns and names are normalised; clean is path.Clean.
  function Tidy(clean: string -> string, s: string): string {
    TrimPrefix(ReplaceBackslashes(clean(s)), "./")
  }

  // The cleaned path with slashes, and without a leading ./
  lemma {:induction false} TidyMeans(clean: string -> string, s: string)
    ensures var t, dot := Tidy(clean, s), if "./" <= ReplaceBackslashes(clean(s)) then "./" else "";
            && |dot + t| == |clean(s)|
            && forall i | 0 <= i < |clean(s)| :: (dot + t)[i] == if clean(s)[i] == '\\' then '/' else clean(s)[i]
  {
    forall i | 0 <= i < |clean(s)|
      ensures ReplaceBackslashes(clean(s))[i] == if clean(s)[i] == '\\' then '/' else clean(s)[i]
    {
      Replaced(clean(s), i);
    }
  }

  method GlobMatch(clean: string -> string, given: string, name: string) returns (matched: bool)
    ensures matched <==> Matches(Tidy(clean, given), name)
  {
    var pattern := Tidy(clean, given);
    hide Tidy;
    hide Accepts, Compile, Matches;
    hide Emitted, Quote, Code, First, Rest, Width;
    var expression := "^";
    var i := 0;
    assert pattern[0..] == pattern;
    while i < |pattern|
      invariant i <= |pattern|
      invariant expression + Emitted(pattern[i..]) + "$" == Expression(pattern)
    {
      TokenAt(pattern, i);
      EmittedAt(pattern, i, expression);
      if pattern[i] == '*' {
        if i + 1 < |pattern| && pattern[i + 1] == '*' {
          i := i + 1;
          if i + 1 < |pattern| && pattern[i + 1] == '/' {
            i := i + 1;
            expression := expression + "(?:.*/)?";
          } else {
            expression := expression + ".*";
          }
        } else {
          expression := expression + "[^/]*";
        }
      } else if pattern[i] == '?' {
        expression := expression + "[^/]";
      } else {
        expression := expression + Quote(pattern[i]);
      }
      i := i + 1;
    }
    expression := expression + "$";
    assert expression == Expression(pattern) by { NothingLeft(pattern, i); }
    ExpressionCompiles(pattern);
    PatternMeaning(pattern, name);
    var answer := MatchString(expression, name);
    matched := answer.Some? && answer.value;
  }

  lemma NothingLeft(p: string, i: nat)
    requires i == |p|
    ensures Emitted(p[i..]) == "" && p[i..] == ""
  {
  }

  // --------------------------------------------------- what patterns can match

  function Slashes(s: string): nat {
    if s == "" then 0 else (if s[0] == '/' then 1 else 0) + Slashes(s[1..])
  }

  lemma {:induction false} SlashesAdd(a: string, b: string)
    ensures Slashes(a + b) == Slashes(a) + Slashes(b)
  {
    if a == "" {
      assert a + b == b;
    } else {
      SlashesAdd(a[1..], b);
      assert (a + b)[1..] == a[1..] + b;
    }
  }

  lemma {:induction false} NoSlashes(s: string)
    ensures NoSlash(s) <==> Slashes(s) == 0
  {
    if s != "" {
      NoSlashes(s[1..]);
      assert s == [s[0]] + s[1..];
    }
  }

  predicate HasDoubleStar(p: string) { exists i | 0 <= i < |p| - 1 :: p[i] == '*' && p[i + 1] == '*' }

  lemma NoDoubleStar(p: string)
    ensures "**" <= p || "**/" <= p ==> HasDoubleStar(p)
  {
    if "**" <= p || "**/" <= p { assert p[0] == '*' && p[0 + 1] == '*'; }
  }

  lemma SingleStars(p: string)
    requires p != "" && !HasDoubleStar(p)
    ensures !HasDoubleStar(p[1..]) && Rest(p) == p[1..] && First(p) != Directories && First(p) != Everything
  {
    NoDoubleStar(p);
    forall i | 0 <= i < |p[1..]| - 1 ensures !(p[1..][i] == '*' && p[1..][i + 1] == '*') {
      assert p[1..][i] == p[i + 1] && p[1..][i + 1] == p[i + 2];
    }
  }

  lemma {:induction false} TokenSlashes(p: string, piece: string)
    requires p != "" && First(p) != Directories && First(p) != Everything && Covers(First(p), piece)
    ensures Slashes(piece) == Slashes(p[..1])
  {
    NoSlashes(piece);
    assert p[..1] == [p[0]] && p[..1][1..] == "";
  }

  // Without a double star a pattern stays at its own depth.
  lemma {:induction false} SameDepth(p: string, name: string)
    requires !HasDoubleStar(p) && Matches(p, name)
    ensures Slashes(name) == Slashes(p)
    decreases |p|
  {
    hide HasDoubleStar, Slashes, Covers, First, Rest;
    if p == "" {
      assert name == p;
    } else {
      SingleStars(p);
      var k :| 0 <= k <= |name| && Covers(First(p), name[..k]) && Matches(Rest(p), name[k..]);
      TokenSlashes(p, name[..k]);
      SameDepth(p[1..], name[k..]);
      assert name == name[..k] + name[k..] && p == p[..1] + p[1..];
      SlashesAdd(name[..k], name[k..]);
      SlashesAdd(p[..1], p[1..]);
    }
  }

  predicate Plain(s: string) { '*' !in s && '?' !in s }

  // A plain start of a pattern has to be there literally.
  lemma {:induction false} PlainStart(start: string, p: string, name: string)
    requires Plain(start)
    ensures Matches(start + p, name) <==> start <= name && Matches(p, name[|start|..])
  {
    if start == "" {
      assert start + p == p && name[0..] == name;
    } else {
      var q := start + p;
      assert q[0] == start[0];
      assert First(q) == Exactly(q[0]) && Rest(q) == start[1..] + p;
      if name != "" {
        PlainStart(start[1..], p, name[1..]);
        assert name[..1] == [name[0]];
        assert start <= name <==> start[0] == name[0] && start[1..] <= name[1..];
        assert start <= name ==> name[1..][|start[1..]|..] == name[|start|..];
      }
    }
  }

  lemma {:induction false} PlainPattern(p: string, name: string)
    requires Plain(p)
    ensures Matches(p, name) <==> name == p
  {
    PlainStart(p, "", name);
    assert p + "" == p;
    assert p <= name ==> name == p + name[|p|..];
  }

  // A directory prefix of a name: nothing, or a path without newlines and a slash.
  predicate Directory(d: string) { Covers(Directories, d) }

  // **/p matches what p matches, at the root or in any directory.
  lemma {:induction false} AnyDirectory(p: string, name: string)
    ensures Matches("**/" + p, name) <==>
            exists k | 0 <= k <= |name| :: Directory(name[..k]) && Matches(p, name[k..])
  {
    assert First("**/" + p) == Directories && Rest("**/" + p) == p;
  }

  lemma {:induction false} DirectorySplit(name: string, k: nat) returns (d: string)
    requires 0 < k <= |name| && Directory(name[..k])
    ensures NoNewline(d) && name == d + "/" + name[k..]
  {
    d := name[..k - 1];
    assert name[..k][..k - 1] == d && name[..k] == d + [name[k - 1]];
    assert name == name[..k] + name[k..];
  }

  lemma {:induction false} DirectoryJoin(d: string, x: string)
    requires NoNewline(d)
    ensures var name, k := d + "/" + x, |d| + 1; k <= |name| && Directory(name[..k]) && name[k..] == x
  {
    var name, k := d + "/" + x, |d| + 1;
    assert name[..k] == d + "/" && (d + "/")[..k - 1] == d;
  }

  // In particular **/x matches exactly x, and d/x for every d without newlines.
  lemma {:induction false} AnyDirectoryPlain(x: string, name: string)
    requires Plain(x)
    ensures Matches("**/" + x, name) <==> name == x || exists d :: NoNewline(d) && name == d + "/" + x
  {
    hide Plain, Directory, Matches;
    AnyDirectory(x, name);
    forall k | 0 <= k <= |name| ensures Matches(x, name[k..]) <==> name[k..] == x { PlainPattern(x, name[k..]); }
    assert name[0..] == name;
    if Matches("**/" + x, name) && name != x {
      var k :| 0 <= k <= |name| && Directory(name[..k]) && Matches(x, name[k..]);
      var d := DirectorySplit(name, k);
    }
    if name == x {
      assert Directory(name[..0]) by { AtRoot(name); }
    }
    if d: string :| NoNewline(d) && name == d + "/" + x {
      DirectoryJoin(d, x);
    }
  }

  lemma AtRoot(name: string)
    ensures Directory(name[..0])
  {
  }

  lemma {:induction false} LastToken(name: string)
    ensures Matches("*", name) <==> NoSlash(name)
    ensures Matches("**", name) <==> NoNewline(name)
  {
    assert name[..|name|] == name && name[|name|..] == "";
    assert Rest("*") == "" && Rest("**") == "";
    forall k | 0 <= k <= |name| && Matches("", name[k..]) ensures k == |name| { assert |name[k..]| == 0; }
  }

  // Without a star a pattern matches position by position, a question mark any
  // character but the slash.
  lemma {:induction false} QuestionMarks(p: string, name: string)
    requires '*' !in p
    ensures Matches(p, name) <==>
            |name| == |p| && forall i | 0 <= i < |p| :: if p[i] == '?' then name[i] != '/' else name[i] == p[i]
  {
    if p != "" {
      assert p[0] in p && First(p) == (if p[0] == '?' then One else Exactly(p[0])) && Rest(p) == p[1..];
      if name != "" {
        QuestionMarks(p[1..], name[1..]);
        assert name[..1] == [name[0]];
        assert forall i | 0 < i < |name| :: name[i] == name[1..][i - 1];
        assert forall i | 0 < i < |p| :: p[i] == p[1..][i - 1];
      }
    }
  }

  // One star between plain texts stands for anything within a directory.
  lemma {:induction false} StarBetween(a: string, b: string, name: string)
    requires Plain(a) && Plain(b)
    ensures Matches(a + ("*" + b), name) <==> exists m :: NoSlash(m) && name == a + m + b
  {
    hide Plain, Matches;
    PlainStart(a, "*" + b, name);
    if a <= name {
      var rest := name[|a|..];
      assert name == a + rest;
      StarThen(b, rest);
      if m: string :| NoSlash(m) && name == a + m + b {
        assert a + m + b == a + (m + b) && rest == m + b;
        assert NoSlash(m) && rest == m + b;
      }
      if m: string :| NoSlash(m) && rest == m + b { assert name == a + m + b; }
    } else if m: string :| NoSlash(m) && name == a + m + b {
      StartsWith(a, m, b);
      assert false;
    }
  }

  lemma StartsWith(a: string, m: string, b: string)
    ensures a <= a + m + b
  {
    assert (a + m + b)[..|a|] == a;
  }

  lemma {:induction false} StarThen(b: string, rest: string)
    requires Plain(b)
    ensures Matches("*" + b, rest) <==> exists m :: NoSlash(m) && rest == m + b
  {
    hide Plain, Matches, NoSlash;
    StarFirst(b, rest);
    forall k | 0 <= k <= |rest| ensures Matches(b, rest[k..]) <==> rest[k..] == b { PlainPattern(b, rest[k..]); }
    if k: nat :| k <= |rest| && NoSlash(rest[..k]) && Matches(b, rest[k..]) {
      assert rest == rest[..k] + b;
    }
    if m: string :| NoSlash(m) && rest == m + b {
      assert rest[..|m|] == m && rest[|m|..] == b;
    }
  }

  lemma {:induction false} StarFirst(b: string, rest: string)
    requires Plain(b)
    ensures Matches("*" + b, rest) <==> exists k: nat | k <= |rest| :: NoSlash(rest[..k]) && Matches(b, rest[k..])
  {
    var p := "*" + b;
    assert p[0] == '*' && (|p| > 1 ==> p[1] == b[0] && p[1] in b) && p[1..] == b;
    assert First(p) == Run && Rest(p) == b;
  }
}
