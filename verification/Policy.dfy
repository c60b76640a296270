// The path policy of a work packet: which files a change may touch.
module Policy {
  import opened Text
  import opened Glob
  import opened Paths

  const DEFAULT_FORBIDDEN: seq<string> := [".env", ".env.*", "**/.env", "**/.env.*", ".git/**", "**/.git/**"]

  // ------------------------------------------------------- the forbidden list

  function Normal(value: string): string { TrimSpace(ReplaceBackslashes(value)) }

  // The values kept: normalised, not empty, each where it is first met.
  function Kept(values: seq<string>): seq<string> {
    if values == [] then []
    else
      var sofar, value := Kept(values[..|values| - 1]), Normal(values[|values| - 1]);
      if value == "" || value in sofar then sofar else sofar + [value]
  }

  method MergeForbidden(values: seq<string>) returns (result: seq<string>)
    ensures result == Kept(DEFAULT_FORBIDDEN + values)
  {
    var seen: set<string> := {};
    result := [];
    var all := DEFAULT_FORBIDDEN + values;
    for k := 0 to |all|
      invariant result == Kept(all[..k])
      invariant forall v :: v in seen <==> v in result
    {
      var value := Normal(all[k]);
      assert all[..k + 1][..k] == all[..k];
      if value == "" { continue; }
      if value in seen { continue; }
      seen := seen + {value};
      result := result + [value];
    }
    assert all[..|all|] == all;
  }

  lemma {:induction false} KeptValues(values: seq<string>)
    ensures forall i, j | 0 <= i < j < |Kept(values)| :: Kept(values)[i] != Kept(values)[j]
    ensures forall v :: v in Kept(values) <==> v != "" && exists i | 0 <= i < |values| :: Normal(values[i]) == v
  {
    hide Normal;
    if values != [] {
      var k := |values| - 1;
      KeptValues(values[..k]);
      assert forall i | 0 <= i < k :: values[..k][i] == values[i];
    }
  }

  lemma {:induction false} KeptGrows(values: seq<string>, more: seq<string>)
    ensures Kept(values) <= Kept(values + more)
  {
    hide Normal;
    if more == [] {
      assert values + more == values;
    } else {
      var k := |more| - 1;
      KeptGrows(values, more[..k]);
      assert (values + more)[..|values + more| - 1] == values + more[..k];
    }
  }

  lemma {:induction false} UnchangedByReplacing(s: string)
    requires '\\' !in s
    ensures ReplaceBackslashes(s) == s
  {
    if s != "" {
      UnchangedByReplacing(s[1..]);
      assert s == [s[0]] + s[1..];
    }
  }

  lemma {:induction false} NormalAlready(s: string)
    requires '\\' !in s && s != "" && !IsSpace(s[0]) && !IsSpace(s[|s| - 1])
    ensures Normal(s) == s
  {
    UnchangedByReplacing(s);
  }

  lemma {:induction false} DefaultsAreNormal(i: nat)
    requires i < |DEFAULT_FORBIDDEN|
    ensures Normal(DEFAULT_FORBIDDEN[i]) == DEFAULT_FORBIDDEN[i]
  {
    NormalAlready(DEFAULT_FORBIDDEN[i]);
  }

  // A normalised value is the given one with slashes for backslashes, without
  // the blanks around it.
  lemma {:induction false} NormalMeans(value: string) returns (before: string, after: string)
    ensures |before + Normal(value) + after| == |value| && Blank(before) && Blank(after)
    ensures forall i | 0 <= i < |value| ::
              (before + Normal(value) + after)[i] == if value[i] == '\\' then '/' else value[i]
    ensures Normal(value) != "" ==> !IsSpace(Normal(value)[0]) && !IsSpace(Normal(value)[|Normal(value)| - 1])
  {
    hide IsSpace;
    before, after := TrimmedOff(ReplaceBackslashes(value));
    forall i | 0 <= i < |value|
      ensures ReplaceBackslashes(value)[i] == if value[i] == '\\' then '/' else value[i]
    {
      Replaced(value, i);
    }
  }

  // Whatever a packet lists, the defaults stay forbidden.
  lemma {:induction false} DefaultsStay(values: seq<string>, i: nat)
    requires i < |DEFAULT_FORBIDDEN|
    ensures DEFAULT_FORBIDDEN[i] in Kept(DEFAULT_FORBIDDEN + values)
  {
    hide Normal;
    DefaultsAreNormal(i);
    KeptValues(DEFAULT_FORBIDDEN + values);
    assert (DEFAULT_FORBIDDEN + values)[i] == DEFAULT_FORBIDDEN[i];
  }

  // ------------------------------------------------------- allowed paths

  predicate MatchesAny(clean: string -> string, patterns: seq<string>, name: string) {
    exists i | 0 <= i < |patterns| :: Matches(Tidy(clean, patterns[i]), name)
  }

  method AllowedPath(clean: string -> string, given: string, allowed: seq<string>, forbidden: seq<string>)
    returns (ok: bool)
    ensures ok <==> MatchesAny(clean, allowed, Tidy(clean, given)) && !MatchesAny(clean, forbidden, Tidy(clean, given))
  {
    hide Matches, Tidy;
    var name := Tidy(clean, given);
    for i := 0 to |forbidden|
      invariant forall k | 0 <= k < i :: !Matches(Tidy(clean, forbidden[k]), name)
    {
      var hit := GlobMatch(clean, forbidden[i], name);
      if hit { return false; }
    }
    for i := 0 to |allowed|
      invariant forall k | 0 <= k < i :: !Matches(Tidy(clean, allowed[k]), name)
    {
      var hit := GlobMatch(clean, allowed[i], name);
      if hit { return true; }
    }
    return false;
  }

  // --------------------------------------------- what the defaults keep out

  // A secrets file, or something inside a git directory.
  predicate Secret(rest: string) {
    rest == ".env" || (".env." <= rest && NoSlash(rest)) || (".git/" <= rest && NoNewline(rest))
  }

  // In a directory whose path holds no newline.
  predicate Protected(name: string) {
    exists k | 0 <= k <= |name| :: Directory(name[..k]) && Secret(name[k..])
  }

  lemma {:induction false} StartsThen(start: string, p: string, rest: string)
    requires Plain(start) && (p == "*" || p == "**")
    ensures Matches(start + p, rest) <==>
            start <= rest && if p == "*" then NoSlash(rest[|start|..]) else NoNewline(rest[|start|..])
  {
    hide Matches, Plain;
    PlainStart(start, p, rest);
    if start <= rest { LastToken(rest[|start|..]); }
  }

  lemma {:induction false} SecretPatterns(rest: string)
    ensures Secret(rest) <==> Matches(".env", rest) || Matches(".env.*", rest) || Matches(".git/**", rest)
  {
    hide Matches;
    PlainPattern(".env", rest);
    StartsThen(".env.", "*", rest);
    assert ".env." + "*" == ".env.*";
    StartsThen(".git/", "**", rest);
    assert ".git/" + "**" == ".git/**";
    if ".env." <= rest { assert rest == ".env." + rest[5..]; }
    if ".git/" <= rest { assert rest == ".git/" + rest[5..]; }
  }

  predicate DefaultMatches(name: string) {
    exists i | 0 <= i < |DEFAULT_FORBIDDEN| :: Matches(DEFAULT_FORBIDDEN[i], name)
  }

  // The six default patterns match the protected names and no others.
  lemma {:induction false} DefaultsProtect(name: string)
    ensures DefaultMatches(name) <==> Protected(name)
  {
    hide Secret, Matches, Directory;
    forall k | 0 <= k <= |name|
      ensures Secret(name[k..]) <==>
              Matches(".env", name[k..]) || Matches(".env.*", name[k..]) || Matches(".git/**", name[k..])
    {
      SecretPatterns(name[k..]);
    }
    AtRoot(name);
    assert name[0..] == name;
    assert "**/" + ".env" == "**/.env" && "**/" + ".env.*" == "**/.env.*" && "**/" + ".git/**" == "**/.git/**";
    AnyDirectory(".env", name);
    AnyDirectory(".env.*", name);
    AnyDirectory(".git/**", name);
    assert DEFAULT_FORBIDDEN[0] == ".env" && DEFAULT_FORBIDDEN[1] == ".env.*" && DEFAULT_FORBIDDEN[2] == "**/.env";
    assert DEFAULT_FORBIDDEN[3] == "**/.env.*" && DEFAULT_FORBIDDEN[4] == ".git/**";
    assert DEFAULT_FORBIDDEN[5] == "**/.git/**";
  }

  predicate KeepsDefaults(clean: string -> string) {
    forall i | 0 <= i < |DEFAULT_FORBIDDEN| :: clean(DEFAULT_FORBIDDEN[i]) == DEFAULT_FORBIDDEN[i]
  }

  lemma {:induction false} DefaultsAreTidy(clean: string -> string, i: nat)
    requires i < |DEFAULT_FORBIDDEN| && KeepsDefaults(clean)
    ensures Tidy(clean, DEFAULT_FORBIDDEN[i]) == DEFAULT_FORBIDDEN[i]
  {
    UnchangedByReplacing(DEFAULT_FORBIDDEN[i]);
  }

  // No packet can allow a protected file, whatever it lists as allowed or forbidden.
  lemma {:induction false} ProtectedIsNeverAllowed(clean: string -> string, given: string, values: seq<string>)
    requires KeepsDefaults(clean) && Protected(Tidy(clean, given))
    ensures MatchesAny(clean, Kept(DEFAULT_FORBIDDEN + values), Tidy(clean, given))
  {
    hide Matches, Tidy, Protected, Kept, KeepsDefaults;
    var name := Tidy(clean, given);
    DefaultsProtect(name);
    var i :| 0 <= i < |DEFAULT_FORBIDDEN| && Matches(DEFAULT_FORBIDDEN[i], name);
    DefaultsStay(values, i);
    DefaultsAreTidy(clean, i);
    var kept := Kept(DEFAULT_FORBIDDEN + values);
    var k :| 0 <= k < |kept| && kept[k] == DEFAULT_FORBIDDEN[i];
  }

  // ------------------------------------------------- what slips past them

  // A .env file in a directory is protected exactly when the directory's path
  // holds no newline.
  lemma {:induction false} EnvBelow(d: string)
    ensures Protected(d + "/.env") <==> NoNewline(d)
  {
    var name := d + "/.env";
    if NoNewline(d) {
      assert name == d + "/" + ".env";
      DirectoryJoin(d, ".env");
      assert Secret(name[|d| + 1..]);
    }
    if k: nat :| k <= |name| && Directory(name[..k]) && Secret(name[k..]) {
      assert NoNewline(name[..k]) by { DirectoryPlain(name[..k]); }
      if k > |d| + 1 {
        assert |name[k..]| < |".env"|;
      } else {
        var rest := name[k..];
        assert k == |d| + 1 || rest[|d| - k] == '/';
        assert k == |d| + 1 ==> rest == ".env";
        assert forall i | 0 <= i < |d| :: if i < k then d[i] == name[..k][i] else d[i] == rest[i - k];
      }
    }
  }

  lemma DirectoryPlain(d: string)
    requires Directory(d)
    ensures NoNewline(d)
  {
    if d != "" { assert d == d[..|d| - 1] + [d[|d| - 1]]; }
  }

  lemma {:induction false} StarMatches(d: string)
    requires NoSlash(d)
    ensures Matches("*/.env", d + "/.env")
  {
    var name, k := d + "/.env", |d|;
    assert !("**" <= "*/.env") by { assert "*/.env"[1] == '/' && "**"[1] == '*'; }
    assert !("**/" <= "*/.env") by { assert "*/.env"[1] == '/' && "**/"[1] == '*'; }
    assert First("*/.env") == Run && Rest("*/.env") == "/.env";
    assert name[..k] == d && name[k..] == "/.env";
    PlainPattern("/.env", name[k..]);
  }

  // So a packet can allow one in a directory with a newline in its name.
  lemma {:induction false} NewlineSlipsPast(d: string)
    requires NoSlash(d) && !NoNewline(d)
    ensures !DefaultMatches(d + "/.env") && Matches("*/.env", d + "/.env")
  {
    hide *;
    EnvBelow(d);
    DefaultsProtect(d + "/.env");
    StarMatches(d);
  }

  lemma NewlineName()
    ensures NoSlash("a\nb") && !NoNewline("a\nb")
  {
    assert "a\nb"[1] == '\n';
  }

  // ------------------------------------------------------- with path.Clean

  // path.Clean leaves the defaults as they are.
  lemma {:induction false} CleanKeepsDefaults()
    ensures KeepsDefaults(Clean)
  {
    hide Clean;
    assert ".env" !in ["", ".", ".."] && "**" !in ["", ".", ".."];
    forall i | 0 <= i < |DEFAULT_FORBIDDEN| ensures Clean(DEFAULT_FORBIDDEN[i]) == DEFAULT_FORBIDDEN[i] {
      DefaultNamed(i);
      CleanBelow(DEFAULT_FORBIDDEN[i]);
    }
  }

  lemma {:induction false} DefaultNamed(i: nat)
    requires i < |DEFAULT_FORBIDDEN|
    ensures Named(Segments(DEFAULT_FORBIDDEN[i]))
  {
    hide Segments;
    PlainSegment(".env");
    PlainSegment(".env.*");
    PlainSegment("**");
    SegmentThen("**", ".env");
    SegmentThen("**", ".env.*");
    SegmentThen(".git", "**");
    SegmentThen("**", ".git/**");
    assert "**" + "/" + ".env" == "**/.env" && "**" + "/" + ".env.*" == "**/.env.*";
    assert ".git" + "/" + "**" == ".git/**" && "**" + "/" + ".git/**" == "**/.git/**";
  }

  // So no packet allows a protected file, as the policy normalises its name.
  lemma {:induction false} ProtectedForGood(given: string, values: seq<string>)
    requires Protected(Tidy(Clean, given))
    ensures MatchesAny(Clean, Kept(DEFAULT_FORBIDDEN + values), Tidy(Clean, given))
  {
    hide *;
    CleanKeepsDefaults();
    ProtectedIsNeverAllowed(Clean, given, values);
  }
}
