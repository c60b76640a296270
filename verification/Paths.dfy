// Slash-separated paths, and what path.Clean makes of them.
module Paths {
  // A path at its slashes: at least one segment, none holding a slash.
  function Segments(s: string): (r: seq<string>)
    ensures |r| >= 1
    ensures forall i | 0 <= i < |r| :: '/' !in r[i]
  {
    if s == "" then [""]
    else
      var rest := Segments(s[1..]);
      if s[0] == '/' then [""] + rest else [[s[0]] + rest[0]] + rest[1..]
  }

  function JoinPath(segments: seq<string>): string {
    if |segments| == 0 then ""
    else if |segments| == 1 then segments[0]
    else segments[0] + "/" + JoinPath(segments[1..])
  }

  // The segments that stay: one step at a time, a double dot takes back the
  // segment before it, and is dropped at the root.
  function Step(kept: seq<string>, segment: string, rooted: bool): seq<string> {
    if segment == "" || segment == "." then kept
    else if segment != ".." then kept + [segment]
    else if kept != [] && kept[|kept| - 1] != ".." then kept[..|kept| - 1]
    else if rooted then kept
    else kept + [segment]
  }

  function Walk(segments: seq<string>, rooted: bool): seq<string> {
    if segments == [] then [] else Step(Walk(segments[..|segments| - 1], rooted), segments[|segments| - 1], rooted)
  }

  predicate Rooted(p: string) { p != "" && p[0] == '/' }

  function Clean(p: string): string {
    var path := JoinPath(Walk(Segments(p), Rooted(p)));
    if Rooted(p) then "/" + path else if path == "" then "." else path
  }

  lemma {:induction false} JoinSegments(s: string)
    ensures JoinPath(Segments(s)) == s
  {
    if s != "" {
      JoinSegments(s[1..]);
      var rest := Segments(s[1..]);
      assert s == [s[0]] + s[1..];
      if s[0] == '/' {
        assert Segments(s)[1..] == rest;
      } else if |rest| > 1 {
        assert Segments(s)[1..] == rest[1..];
      }
    }
  }

  lemma {:induction false} PlainSegment(s: string)
    requires '/' !in s
    ensures Segments(s) == [s]
  {
    if s != "" {
      PlainSegment(s[1..]);
      assert s == [s[0]] + s[1..];
    }
  }

  lemma {:induction false} SegmentThen(a: string, b: string)
    requires '/' !in a
    ensures Segments(a + "/" + b) == [a] + Segments(b)
  {
    var s := a + "/" + b;
    if a == "" {
      assert s[1..] == b;
    } else {
      SegmentThen(a[1..], b);
      assert s[1..] == a[1..] + "/" + b;
      assert a == [a[0]] + a[1..];
    }
  }

  lemma {:induction false} SegmentsJoin(segments: seq<string>)
    requires |segments| >= 1 && forall i | 0 <= i < |segments| :: '/' !in segments[i]
    ensures Segments(JoinPath(segments)) == segments
  {
    if |segments| == 1 {
      PlainSegment(segments[0]);
    } else {
      SegmentsJoin(segments[1..]);
      SegmentThen(segments[0], JoinPath(segments[1..]));
    }
  }

  // What stays: no empty segment, no dot, and double dots in front only.
  predicate Tidied(kept: seq<string>) {
    && (forall i | 0 <= i < |kept| :: kept[i] != "" && kept[i] != "." && '/' !in kept[i])
    && (forall i | 0 < i < |kept| && kept[i] == ".." :: kept[i - 1] == "..")
  }

  lemma {:induction false} WalkTidies(segments: seq<string>, rooted: bool)
    requires forall i | 0 <= i < |segments| :: '/' !in segments[i]
    ensures Tidied(Walk(segments, rooted))
  {
    if segments != [] { WalkTidies(segments[..|segments| - 1], rooted); }
  }

  // Neither empty nor dots.
  predicate Named(segments: seq<string>) { forall i | 0 <= i < |segments| :: segments[i] !in ["", ".", ".."] }

  lemma {:induction false} WalkNamed(segments: seq<string>, rooted: bool)
    requires Named(segments)
    ensures Walk(segments, rooted) == segments
  {
    if segments != [] {
      WalkNamed(segments[..|segments| - 1], rooted);
      assert segments == segments[..|segments| - 1] + [segments[|segments| - 1]];
    }
  }

  lemma {:induction false} NoLeadingDots(kept: seq<string>)
    requires Tidied(kept) && (kept != [] ==> kept[0] != "..")
    ensures Named(kept)
  {
    forall i | 0 <= i < |kept| ensures kept[i] != ".." { NotDots(kept, i); }
  }

  lemma {:induction false} NotDots(kept: seq<string>, i: nat)
    requires Tidied(kept) && kept != [] && kept[0] != ".." && i < |kept|
    ensures kept[i] != ".."
  {
    if i > 0 { NotDots(kept, i - 1); }
  }

  lemma {:induction false} FirstSegment(s: string)
    ensures Segments(s)[0] == "" <==> s == "" || s[0] == '/'
    ensures Segments(s)[0] == ".." <==> s == ".." || "../" <= s
  {
    var segments := Segments(s);
    JoinSegments(s);
    if |segments| > 1 { assert s == segments[0] + "/" + JoinPath(segments[1..]); }
    if "../" <= s {
      assert s == ".." + "/" + s[3..];
      SegmentThen("..", s[3..]);
    }
    if s == ".." { PlainSegment(s); }
  }

  // A relative path that path.Clean leaves alone and that does not lead out of
  // its root is one whose segments are neither empty nor dots.
  lemma {:induction false} CleanBelow(name: string)
    ensures Clean(name) == name && !Rooted(name) && name != "." && name != ".." && !("../" <= name)
            <==> Named(Segments(name))
  {
    hide Walk, Segments;
    var segments := Segments(name);
    FirstSegment(name);
    JoinSegments(name);
    if Named(segments) {
      WalkNamed(segments, false);
      if name == "." { PlainSegment(name); }
    }
    if Clean(name) == name && !Rooted(name) && name != "." && name != ".." && !("../" <= name) {
      var kept := Walk(segments, false);
      WalkTidies(segments, false);
      assert kept != [] by { NothingKept(); }
      SegmentsJoin(kept);
      assert segments == kept;
      NoLeadingDots(kept);
    }
  }

  lemma NothingKept()
    ensures JoinPath([]) == ""
  {
  }

  lemma {:induction false} WalkTidied(kept: seq<string>, rooted: bool)
    requires Tidied(kept) && (rooted ==> Named(kept))
    ensures Walk(kept, rooted) == kept
  {
    if kept != [] {
      WalkTidied(kept[..|kept| - 1], rooted);
      assert kept == kept[..|kept| - 1] + [kept[|kept| - 1]];
    }
  }

  lemma {:induction false} RootedNamed(segments: seq<string>)
    ensures Named(Walk(segments, true))
  {
    if segments != [] { RootedNamed(segments[..|segments| - 1]); }
  }

  lemma {:induction false} WalkAfterRoot(kept: seq<string>)
    ensures Walk([""] + kept, true) == Walk(kept, true)
  {
    if kept == [] {
      assert [""] + kept == [""] && [""][..0] == [];
    } else {
      WalkAfterRoot(kept[..|kept| - 1]);
      assert ([""] + kept)[..|kept|] == [""] + kept[..|kept| - 1];
    }
  }

  // Cleaning a cleaned path changes nothing.
  lemma {:induction false} CleanTwice(p: string)
    ensures Clean(Clean(p)) == Clean(p)
  {
    hide Walk, Segments;
    var segments := Segments(p);
    var kept := Walk(segments, Rooted(p));
    WalkTidies(segments, Rooted(p));
    NothingKept();
    if Rooted(p) {
      RootedNamed(segments);
      WalkTidied(kept, true);
      SegmentThen("", JoinPath(kept));
      assert "" + "/" + JoinPath(kept) == Clean(p);
      WalkAfterRoot(kept);
      if kept == [] {
        PlainSegment("");
        WalkAfterRoot([]);
        assert [""] + [""] == [""] + [""];
        WalkAfterRoot([""]);
        assert [""] + [] == [""];
      } else {
        SegmentsJoin(kept);
      }
    } else if kept == [] {
      PlainSegment(".");
      OnlyDot();
    } else {
      SegmentsJoin(kept);
      FirstSegment(JoinPath(kept));
      WalkTidied(kept, false);
    }
  }

  lemma OnlyDot()
    ensures Walk(["."], false) == []
  {
    assert ["."][..0] == [];
  }
}
