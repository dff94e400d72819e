/** The gateway's anchored path allowlist, as a string test and as a test on path segments. */
module PathPolicy {
  import opened Prelude

  // ---- segments ----

  /** `str::split('/')`: always at least one segment. */
  function Split(s: string): (segs: seq<string>)
    ensures |segs| >= 1
  {
    if s == "" then [""]
    else
      PushChar(s[0], Split(s[1..]))
  }

  /** Put one character before a split string: a slash opens a new segment. */
  function PushChar(c: char, segs: seq<string>): (r: seq<string>)
    requires |segs| >= 1
    ensures |r| >= 1
  {
    if c == '/' then [""] + segs else [[c] + segs[0]] + segs[1..]
  }

  lemma PushHead(c: char, a: seq<string>, b: seq<string>)
    requires |a| >= 1
    ensures PushChar(c, a + b) == PushChar(c, a) + b
  {}

  function Join(segs: seq<string>): string
    requires |segs| >= 1
  {
    if |segs| == 1 then segs[0] else segs[0] + "/" + Join(segs[1..])
  }

  /** Unfold one segment. */
  lemma JoinCons(head: string, tail: seq<string>)
    ensures Join([head] + tail) == if tail == [] then head else head + "/" + Join(tail)
  {
    assert ([head] + tail)[1..] == tail;
  }

  lemma Prepend(c: char, head: string, tail: string)
    ensures [c] + head + "/" + tail == [c] + (head + "/" + tail)
  {}

  lemma JoinGrow(c: char, head: string, tail: seq<string>)
    ensures Join([[c] + head] + tail) == [c] + Join([head] + tail)
  {
    JoinCons(head, tail);
    JoinCons([c] + head, tail);
    if tail != [] { Prepend(c, head, Join(tail)); }
  }

  lemma JoinOpen(segs: seq<string>)
    requires |segs| >= 1
    ensures Join([""] + segs) == "/" + Join(segs)
  {
    JoinCons("", segs);
  }

  lemma JoinPush(c: char, segs: seq<string>)
    requires |segs| >= 1
    ensures Join(PushChar(c, segs)) == [c] + Join(segs)
  {
    if c == '/' {
      JoinOpen(segs);
    } else {
      assert segs == [segs[0]] + segs[1..];
      JoinGrow(c, segs[0], segs[1..]);
    }
  }

  lemma {:induction false} JoinSplit(s: string)
    ensures Join(Split(s)) == s
  {
    if s != "" {
      JoinSplit(s[1..]);
      JoinPush(s[0], Split(s[1..]));
      assert s == [s[0]] + s[1..];
    }
  }

  lemma {:induction false} SplitAppend(a: string, b: string)
    ensures Split(a + "/" + b) == Split(a) + Split(b)
  {
    if a == "" {
      assert (a + "/" + b)[1..] == b;
    } else {
      SplitAppend(a[1..], b);
      var whole := a + "/" + b;
      assert whole[1..] == a[1..] + "/" + b && whole[0] == a[0];
      PushHead(a[0], Split(a[1..]), Split(b));
      assert Split(whole) == PushChar(whole[0], Split(whole[1..]));
    }
  }

  lemma {:induction false} JoinAppend(a: seq<string>, b: seq<string>)
    requires |a| >= 1 && |b| >= 1
    ensures Join(a + b) == Join(a) + "/" + Join(b)
  {
    if |a| == 1 {
      assert (a + b)[1..] == b;
    } else {
      JoinAppend(a[1..], b);
      assert (a + b)[1..] == a[1..] + b;
    }
  }

  // ---- the string test ----

  predicate BadChar(c: char) { c == '?' || c == '#' || c == '%' || c == '\\' || c < '!' }

  predicate BadSegment(seg: string) { seg == "" || seg == "." || seg == ".." }

  predicate EndsWithSlash(p: string) { p != "" && p[|p| - 1] == '/' }

  predicate PrefixMatches(path: string, p: string) {
    if EndsWithSlash(p) then p <= path
    else path == p || (p <= path && "/" <= path[|p|..])
  }

  predicate PathAllowed(path: string, prefixes: seq<string>) {
    && "/" <= path
    && (forall i :: 0 <= i < |path| ==> !BadChar(path[i]))
    && (forall seg :: seg in Split(path[1..]) ==> !BadSegment(seg))
    && (exists p :: p in prefixes && PrefixMatches(path, p))
  }

  // ---- the segment test ----

  /**
   * Absolute; no character a URL normalizer would rewrite (a query, a fragment, a percent sign, a backslash,
   * a space or a control character); and no empty or dot segment below the root.
   */
  predicate Clean(path: string) {
    var segs := Split(path);
    && segs[0] == "" && |segs| >= 2
    && (forall i :: 0 <= i < |path| ==> path[i] as int > 0x20)
    && '?' !in path && '#' !in path && '%' !in path && '\\' !in path
    && (forall i :: 1 <= i < |segs| ==> segs[i] != "" && segs[i] != "." && segs[i] != "..")
  }

  /** The path's segments extend the prefix's, strictly if the prefix's last segment is empty. */
  predicate SegmentsExtend(path: string, p: string) {
    var segs := Split(p);
    if |segs| >= 2 && segs[|segs| - 1] == "" then segs[..|segs| - 1] < Split(path) else segs <= Split(path)
  }

  /** A trailing slash is an empty last segment. */
  lemma TrailingSlash(p: string)
    ensures EndsWithSlash(p) <==> |Split(p)| >= 2 && Split(p)[|Split(p)| - 1] == ""
    ensures EndsWithSlash(p) ==> Split(p[..|p| - 1]) == Split(p)[..|Split(p)| - 1]
  {
    var segs := Split(p);
    if EndsWithSlash(p) {
      var q := p[..|p| - 1];
      assert p == q + "/" + "";
      SplitAppend(q, "");
    }
    if |segs| >= 2 && segs[|segs| - 1] == "" {
      var front := segs[..|segs| - 1];
      assert segs == front + [""];
      JoinAppend(front, [""]);
      JoinSplit(p);
      assert p == Join(front) + "/" + "";
    }
  }

  /** Following `q` by a slash is the same as strictly extending its segments. */
  lemma BoundaryIsSegment(path: string, q: string)
    ensures q + "/" <= path <==> Split(q) < Split(path)
  {
    if q + "/" <= path {
      var rest := path[|q| + 1..];
      assert path == q + "/" + rest;
      SplitAppend(q, rest);
    }
    if Split(q) < Split(path) {
      var rest := Split(path)[|Split(q)|..];
      assert Split(path) == Split(q) + rest;
      JoinAppend(Split(q), rest);
      JoinSplit(path);
      JoinSplit(q);
      assert path == q + "/" + Join(rest);
    }
  }

  lemma MatchIsExtension(path: string, p: string)
    ensures PrefixMatches(path, p) <==> SegmentsExtend(path, p)
  {
    TrailingSlash(p);
    if EndsWithSlash(p) {
      BoundaryIsSegment(path, p[..|p| - 1]);
      assert p == p[..|p| - 1] + "/";
    } else {
      BoundaryIsSegment(path, p);
      assert (p <= path && "/" <= path[|p|..]) <==> p + "/" <= path by {
        if p <= path && "/" <= path[|p|..] { assert path == p + path[|p|..]; }
      }
      if Split(p) == Split(path) {
        JoinSplit(p);
        JoinSplit(path);
      }
    }
  }

  lemma CleanCharacters(path: string)
    ensures (forall i :: 0 <= i < |path| ==> !BadChar(path[i])) <==>
      && (forall i :: 0 <= i < |path| ==> path[i] as int > 0x20)
      && '?' !in path && '#' !in path && '%' !in path && '\\' !in path
  {}

  lemma CleanIsStringTest(path: string)
    ensures Clean(path) <==>
      && "/" <= path
      && (forall i :: 0 <= i < |path| ==> !BadChar(path[i]))
      && (forall seg :: seg in Split(path[1..]) ==> !BadSegment(seg))
  {
    CleanCharacters(path);
    if "/" <= path {
      var rest := Split(path[1..]);
      assert Split(path) == [""] + rest;
      assert forall i :: 0 <= i < |rest| ==> rest[i] == Split(path)[i + 1];
      if forall seg :: seg in rest ==> !BadSegment(seg) {
        forall i | 1 <= i < |Split(path)| ensures !BadSegment(Split(path)[i]) {
          assert Split(path)[i] == rest[i - 1] && rest[i - 1] in rest;
        }
      }
      if Clean(path) {
        forall seg | seg in rest ensures !BadSegment(seg) {
          var i :| 0 <= i < |rest| && rest[i] == seg;
          assert Split(path)[i + 1] == seg;
        }
      }
    }
  }

  /**
   * For every path and prefix list, the string test accepts exactly the clean paths whose segment
   * list extends an allowed prefix's segment list.
   */
  lemma AllowedIffSegmentsExtend(path: string, prefixes: seq<string>)
    ensures PathAllowed(path, prefixes) <==>
      Clean(path) && exists p :: p in prefixes && SegmentsExtend(path, p)
  {
    CleanIsStringTest(path);
    forall p | p in prefixes ensures PrefixMatches(path, p) <==> SegmentsExtend(path, p) {
      MatchIsExtension(path, p);
    }
  }

  // ---- dot-segment removal (section 5.2.4 of RFC 3986) ----

  function SegmentLength(s: string): (n: nat)
    ensures n <= |s|
  {
    if s == "" || s[0] == '/' then 0 else 1 + SegmentLength(s[1..])
  }

  /** Drop the last segment and its preceding slash, if any. */
  function DropLastSegment(out: string): string {
    if out == "" then ""
    else if out[|out| - 1] == '/' then out[..|out| - 1]
    else DropLastSegment(out[..|out| - 1])
  }

  function RemoveDotSegments(input: string, out: string): string
    decreases |input|
  {
    if input == "" then out
    else if "../" <= input then RemoveDotSegments(input[3..], out)
    else if "./" <= input then RemoveDotSegments(input[2..], out)
    else if "/./" <= input then RemoveDotSegments(input[2..], out)
    else if input == "/." then RemoveDotSegments("/", out)
    else if "/../" <= input then RemoveDotSegments(input[3..], DropLastSegment(out))
    else if input == "/.." then RemoveDotSegments("/", DropLastSegment(out))
    else if input == "." || input == ".." then out
    else
      var n := if input[0] == '/' then 1 + SegmentLength(input[1..]) else SegmentLength(input);
      RemoveDotSegments(input[n..], out + input[..n])
  }

  /** The first segment and what follows it. */
  lemma {:induction false} SplitHead(s: string)
    ensures var n := SegmentLength(s);
      && Split(s)[0] == s[..n]
      && (n == |s| ==> Split(s) == [s])
      && (n < |s| ==> s[n] == '/' && Split(s)[1..] == Split(s[n + 1..]))
  {
    if s != "" && s[0] != '/' {
      var n := SegmentLength(s[1..]);
      SplitHead(s[1..]);
      assert s[..n + 1] == [s[0]] + s[1..][..n];
      assert Split(s)[1..] == Split(s[1..])[1..];
      if n < |s[1..]| {
        assert s[1..][n + 1..] == s[n + 2..];
      } else {
        assert [s[0]] + s[1..] == s;
      }
    }
  }

  /** What is left of a clean path while its segments are moved over. */
  predicate CleanRest(s: string) {
    s == "" || (s[0] == '/' && forall seg :: seg in Split(s[1..]) ==> !BadSegment(seg))
  }

  /** One round of dot removal moves the first segment of a clean rest, and leaves a clean rest. */
  lemma CleanRestStep(s: string, out: string)
    requires s != "" && CleanRest(s)
    ensures var n := 1 + SegmentLength(s[1..]);
      && n <= |s| && CleanRest(s[n..])
      && RemoveDotSegments(s, out) == RemoveDotSegments(s[n..], out + s[..n])
  {
    var n := SegmentLength(s[1..]);
    SplitHead(s[1..]);
    var seg := Split(s[1..])[0];
    assert seg in Split(s[1..]) && !BadSegment(seg);
    assert seg == s[1..][..n] == s[1..n + 1];
    FirstSegmentNotDots(s, n);
    var rest := s[n + 1..];
    if rest != "" {
      assert rest[0] == '/' && rest[1..] == s[1..][n + 1..];
      assert forall g :: g in Split(rest[1..]) ==> g in Split(s[1..]);
    }
  }

  lemma {:induction false} CleanRestKept(s: string, out: string)
    requires CleanRest(s)
    ensures RemoveDotSegments(s, out) == out + s
    decreases |s|
  {
    if s != "" {
      var n := 1 + SegmentLength(s[1..]);
      CleanRestStep(s, out);
      CleanRestKept(s[n..], out + s[..n]);
      Regroup(out, s[..n], s[n..]);
      assert s == s[..n] + s[n..];
    }
  }

  lemma FirstSegmentNotDots(s: string, n: nat)
    requires s != "" && s[0] == '/' && n == SegmentLength(s[1..]) && n < |s|
    requires !BadSegment(s[1..n + 1])
    requires n + 1 < |s| ==> s[n + 1] == '/'
    ensures !("/./" <= s) && s != "/." && !("/../" <= s) && s != "/.."
  {
    DotShape(s);
    DotDotShape(s);
  }

  lemma DotShape(s: string)
    requires s != "" && s[0] == '/'
    ensures "/./" <= s || s == "/." ==> SegmentLength(s[1..]) == 1 && s[1..2] == "."
  {
    if "/./" <= s || s == "/." {
      assert s[1..][0] == '.' && SegmentLength(s[1..]) == 1 + SegmentLength(s[1..][1..]);
    }
  }

  lemma DotDotShape(s: string)
    requires s != "" && s[0] == '/'
    ensures "/../" <= s || s == "/.." ==> SegmentLength(s[1..]) == 2 && s[1..3] == ".."
  {
    if "/../" <= s || s == "/.." {
      assert s[1..][0] == '.' && s[1..][1..][0] == '.';
      assert SegmentLength(s[1..]) == 2 + SegmentLength(s[1..][1..][1..]);
    }
  }

  /** An accepted path means the same to a normalizing server: dot removal leaves it unchanged. */
  lemma AllowedPathIsNormal(path: string, prefixes: seq<string>)
    requires PathAllowed(path, prefixes)
    ensures RemoveDotSegments(path, "") == path
  {
    CleanRestKept(path, "");
  }
}
