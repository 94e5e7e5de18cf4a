/** A lexical model of the slash-separated path handling the Go standard library performs on
    a Unix host: `strings.Replace` with a one-character pattern, `strings.Join`, and
    `filepath.Clean` / `filepath.Join`. Nothing here touches a file system. */
module Paths {

  const Separator: char := '/'

  // ---------------------------------------------------------------------------------------
  // Characters

  /** strings.Replace(s, [from], [to], -1): every occurrence of `from` becomes `to`. */
  function ReplaceAll(s: string, from: char, to: char): (r: string)
    ensures |r| == |s|
    ensures forall i :: 0 <= i < |s| ==> r[i] == (if s[i] == from then to else s[i])
    ensures from != to ==> from !in r
  {
    if s == [] then []
    else [if s[0] == from then to else s[0]] + ReplaceAll(s[1..], from, to)
  }

  // ---------------------------------------------------------------------------------------
  // Splitting a path into elements and joining elements back

  /** The separator-delimited elements of `p`, empty ones included:
      Split("/a//b") == ["", "a", "", "b"], Split("") == [""]. */
  function Split(p: string): (parts: seq<string>)
    ensures |parts| >= 1
    ensures forall i :: 0 <= i < |parts| ==> Separator !in parts[i]
    decreases |p|
  {
    if p == [] then [""]
    else
      var rest := Split(p[1..]);
      if p[0] == Separator then [""] + rest
      else [[p[0]] + rest[0]] + rest[1..]
  }

  /** strings.Join(parts, "/"). */
  function JoinSep(parts: seq<string>): string
  {
    if parts == [] then ""
    else if |parts| == 1 then parts[0]
    else parts[0] + [Separator] + JoinSep(parts[1..])
  }

  /** The non-empty elements of a path, in order: what remains when repeated separators and a
      leading or trailing separator are ignored. */
  function Elements(parts: seq<string>): (es: seq<string>)
    ensures forall i :: 0 <= i < |es| ==> es[i] != ""
  {
    if parts == [] then []
    else (if parts[0] == "" then [] else [parts[0]]) + Elements(parts[1..])
  }

  predicate Rooted(p: string)
  {
    |p| > 0 && p[0] == Separator
  }

  lemma {:induction false} SplitPlain(e: string)
    requires Separator !in e
    ensures Split(e) == [e]
    decreases |e|
  {
    if e != [] {
      SplitPlain(e[1..]);
      assert [e[0]] + e[1..] == e;
    }
  }

  /** Splitting distributes over a separator. */
  lemma {:induction false} SplitAppend(a: string, b: string)
    ensures Split(a + [Separator] + b) == Split(a) + Split(b)
    decreases |a|
  {
    var p := a + [Separator] + b;
    if a == [] {
      assert p[1..] == b;
    } else {
      assert p[1..] == a[1..] + [Separator] + b;
      SplitAppend(a[1..], b);
    }
  }

  /** Splitting undoes joining, for elements that hold no separator. */
  lemma {:induction false} SplitJoinSep(parts: seq<string>)
    requires |parts| >= 1
    requires forall i :: 0 <= i < |parts| ==> Separator !in parts[i]
    ensures Split(JoinSep(parts)) == parts
    decreases |parts|
  {
    if |parts| == 1 {
      SplitPlain(parts[0]);
    } else {
      SplitAppend(parts[0], JoinSep(parts[1..]));
      SplitPlain(parts[0]);
      SplitJoinSep(parts[1..]);
    }
  }

  lemma {:induction false} JoinSepAppend(a: seq<string>, b: seq<string>)
    requires a != [] && b != []
    ensures JoinSep(a + b) == JoinSep(a) + [Separator] + JoinSep(b)
    decreases |a|
  {
    if |a| == 1 {
      assert (a + b)[1..] == b;
    } else {
      assert (a + b)[1..] == a[1..] + b;
      JoinSepAppend(a[1..], b);
    }
  }

  lemma {:induction false} ElementsAppend(a: seq<string>, b: seq<string>)
    ensures Elements(a + b) == Elements(a) + Elements(b)
    decreases |a|
  {
    if a == [] {
      assert a + b == b;
    } else {
      assert (a + b)[1..] == a[1..] + b;
      ElementsAppend(a[1..], b);
    }
  }

  // ---------------------------------------------------------------------------------------
  // filepath.Clean

  /** What Clean does with one element, given the elements kept so far: drop empty and `.`
      elements; let `..` remove the last kept element unless that is itself `..`; drop a `..`
      that would climb above the root of a rooted path; keep everything else. */
  function Step(stack: seq<string>, e: string, rooted: bool): seq<string>
  {
    if e == "" || e == "." then stack
    else if e == ".." then
      if |stack| > 0 && stack[|stack| - 1] != ".." then stack[..|stack| - 1]
      else if rooted then stack
      else stack + [".."]
    else stack + [e]
  }

  /** Step over every element of `parts`, left to right. */
  function Walk(stack: seq<string>, parts: seq<string>, rooted: bool): seq<string>
    decreases |parts|
  {
    if parts == [] then stack else Walk(Step(stack, parts[0], rooted), parts[1..], rooted)
  }

  /** The path written for a list of resolved elements. */
  function Render(rooted: bool, elems: seq<string>): string
  {
    if rooted then [Separator] + JoinSep(elems)
    else if elems == [] then "."
    else JoinSep(elems)
  }

  /** filepath.Clean: the shortest path lexically equivalent to `p`; "." for the empty path. */
  function Clean(p: string): (c: string)
    ensures c != ""
  {
    if p == "" then "."
    else
      CleanIsNormal(p);
      RenderNotEmpty(Rooted(p), Walk([], Split(p), Rooted(p)));
      Render(Rooted(p), Walk([], Split(p), Rooted(p)))
  }

  /** filepath.Join: the non-empty tail of `elems` (from the first non-empty element on),
      joined with separators and cleaned; "" when every element is empty. */
  function Join(elems: seq<string>): (r: string)
    ensures r == "" <==> forall i :: 0 <= i < |elems| ==> elems[i] == ""
    ensures r != "" ==> Clean(r) == r
  {
    if elems == [] then ""
    else if elems[0] != "" then
      CleanIdempotent(JoinSep(elems));
      Clean(JoinSep(elems))
    else Join(elems[1..])
  }


  // ---------------------------------------------------------------------------------------
  // Facts about Walk and Clean

  lemma {:induction false} WalkAppend(s: seq<string>, a: seq<string>, b: seq<string>, rooted: bool)
    ensures Walk(s, a + b, rooted) == Walk(Walk(s, a, rooted), b, rooted)
    decreases |a|
  {
    if a == [] {
      assert a + b == b;
    } else {
      assert (a + b)[1..] == a[1..] + b;
      WalkAppend(Step(s, a[0], rooted), a[1..], b, rooted);
    }
  }

  /** Elements that are neither empty, `.` nor `..`: what a Walk keeps unchanged. */
  predicate Plain(e: string)
  {
    e != "" && e != "." && e != ".." && Separator !in e
  }

  /** Without any `..` element, a Walk just keeps the non-empty, non-`.` elements. */
  lemma {:induction false} WalkWithoutParent(s: seq<string>, parts: seq<string>, rooted: bool)
    requires forall i :: 0 <= i < |parts| ==> parts[i] != ".."
    ensures Walk(s, parts, rooted) == s + Kept(parts)
    decreases |parts|
  {
    if parts != [] {
      var e := parts[0];
      var kept := if e == "" || e == "." then [] else [e];
      assert Step(s, e, rooted) == s + kept;
      WalkWithoutParent(s + kept, parts[1..], rooted);
      assert (s + kept) + Kept(parts[1..]) == s + (kept + Kept(parts[1..]));
    }
  }

  /** The elements of `parts` other than empty ones and `.`. */
  function Kept(parts: seq<string>): seq<string>
  {
    if parts == [] then []
    else (if parts[0] == "" || parts[0] == "." then [] else [parts[0]]) + Kept(parts[1..])
  }

  /** The shape of a cleaned element list: no empty, `.` or separator-holding elements, and
      `..` only at the front of an unrooted path. */
  ghost predicate Normal(xs: seq<string>, rooted: bool)
  {
    forall i :: 0 <= i < |xs| ==>
      xs[i] != "" && xs[i] != "." && Separator !in xs[i] &&
      (xs[i] == ".." ==> !rooted && forall j :: 0 <= j < i ==> xs[j] == "..")
  }

  lemma StepKeepsNormal(s: seq<string>, e: string, rooted: bool)
    requires Normal(s, rooted) && Separator !in e
    ensures Normal(Step(s, e, rooted), rooted)
  {
  }

  lemma {:induction false} WalkKeepsNormal(s: seq<string>, parts: seq<string>, rooted: bool)
    requires Normal(s, rooted)
    requires forall i :: 0 <= i < |parts| ==> Separator !in parts[i]
    ensures Normal(Walk(s, parts, rooted), rooted)
    decreases |parts|
  {
    if parts != [] {
      StepKeepsNormal(s, parts[0], rooted);
      WalkKeepsNormal(Step(s, parts[0], rooted), parts[1..], rooted);
    }
  }

  /** Walking an already normal list changes nothing. */
  lemma {:induction false} WalkNormal(s: seq<string>, xs: seq<string>, rooted: bool)
    requires Normal(s + xs, rooted)
    ensures Walk(s, xs, rooted) == s + xs
    decreases |xs|
  {
    if xs != [] {
      assert (s + xs)[|s|] == xs[0];
      if xs[0] == ".." && |s| > 0 {
        assert (s + xs)[|s| - 1] == s[|s| - 1];
      }
      assert Step(s, xs[0], rooted) == s + [xs[0]];
      assert s + [xs[0]] + xs[1..] == s + xs;
      WalkNormal(s + [xs[0]], xs[1..], rooted);
    }
  }

  lemma CleanIsNormal(p: string)
    requires p != ""
    ensures Normal(Walk([], Split(p), Rooted(p)), Rooted(p))
  {
    WalkKeepsNormal([], Split(p), Rooted(p));
  }

  /** Cleaning a clean path changes nothing. */
  lemma CleanIdempotent(p: string)
    ensures Clean(Clean(p)) == Clean(p)
  {
    if p != "" {
      CleanIsNormal(p);
      assert Clean(p) == Render(Rooted(p), Walk([], Split(p), Rooted(p)));
      CleanRender(Rooted(p), Walk([], Split(p), Rooted(p)));
    } else {
      CleanRender(false, []);
    }
  }

  /** Clean gives back any path rendered from a normal element list. */
  lemma CleanRender(rooted: bool, xs: seq<string>)
    requires Normal(xs, rooted)
    ensures Clean(Render(rooted, xs)) == Render(rooted, xs)
  {
    if rooted {
      CleanRenderRooted(xs);
    } else if xs == [] {
      SplitPlain(".");
    } else {
      CleanRenderUnrooted(xs);
    }
  }

  lemma CleanRenderRooted(xs: seq<string>)
    requires Normal(xs, true)
    ensures Clean(Render(true, xs)) == Render(true, xs)
  {
    if xs == [] {
      CleanRoot();
    } else {
      var c := Render(true, xs);
      assert Rooted(c);
      assert Split(c) == [""] + xs by {
        assert c == "" + [Separator] + JoinSep(xs);
        SplitAppend("", JoinSep(xs));
        SplitJoinSep(xs);
      }
      assert Walk([], [""] + xs, true) == xs by {
        WalkAppend([], [""], xs, true);
        assert [] + xs == xs;
        WalkNormal([], xs, true);
      }
    }
  }

  /** Non-empty elements all survive Elements. */
  lemma {:induction false} ElementsOfNonEmpty(xs: seq<string>)
    requires forall i :: 0 <= i < |xs| ==> xs[i] != ""
    ensures Elements(xs) == xs
    decreases |xs|
  {
    if xs != [] {
      ElementsOfNonEmpty(xs[1..]);
      assert [xs[0]] + xs[1..] == xs;
    }
  }

  /** The elements of a rooted path rendered from a normal list are that list. */
  lemma ElementsOfRooted(xs: seq<string>)
    requires Normal(xs, true)
    ensures Elements(Split(Render(true, xs))) == xs
  {
    var j := JoinSep(xs);
    assert Split(Render(true, xs)) == [""] + Split(j) by {
      assert Render(true, xs) == "" + [Separator] + j;
      SplitAppend("", j);
    }
    ElementsAppend([""], Split(j));
    assert Elements(Split(j)) == xs by {
      if xs == [] {
        assert Split(j) == [""];
      } else {
        SplitJoinSep(xs);
        ElementsOfNonEmpty(xs);
      }
    }
  }

  /** The root is clean. */
  lemma CleanRoot()
    ensures Clean([Separator]) == [Separator]
  {
    var c := [Separator];
    assert Split(c) == ["", ""] by {
      assert c == "" + [Separator] + "";
      SplitAppend("", "");
    }
    assert Walk([], ["", ""], true) == [];
  }


  lemma CleanRenderUnrooted(xs: seq<string>)
    requires Normal(xs, false) && xs != []
    ensures Clean(Render(false, xs)) == Render(false, xs)
  {
    var c := Render(false, xs);
    SplitJoinSep(xs);
    JoinSepHead(xs);
    assert !Rooted(c);
    assert [] + xs == xs;
    WalkNormal([], xs, false);
  }

  lemma RenderNotEmpty(rooted: bool, xs: seq<string>)
    requires Normal(xs, rooted)
    ensures Render(rooted, xs) != ""
  {
    if xs != [] { JoinSepHead(xs); }
  }

  lemma JoinSepHead(xs: seq<string>)
    requires xs != [] && xs[0] != ""
    ensures JoinSep(xs) != [] && JoinSep(xs)[0] == xs[0][0]
  {
  }

  /** The path Clean produces from `p + "/" + e`, for a plain element `e`, ends in `e`. */
  lemma CleanEndsInPlain(p: string, e: string)
    requires Plain(e)
    ensures var parts := Split(Clean(p + [Separator] + e)); parts[|parts| - 1] == e
  {
    var q := p + [Separator] + e;
    var rooted := Rooted(q);
    SplitAppend(p, e);
    SplitPlain(e);
    WalkAppend([], Split(p), [e], rooted);
    var w := Walk([], Split(p), rooted);
    assert Walk([], Split(q), rooted) == w + [e];
    RenderEndsInPlain(rooted, w, e);
  }

  lemma RenderEndsInPlain(rooted: bool, w: seq<string>, e: string)
    requires Plain(e)
    ensures var parts := Split(Render(rooted, w + [e])); parts[|parts| - 1] == e
  {
    SplitPlain(e);
    var r := Render(rooted, w + [e]);
    if w == [] {
      assert w + [e] == [e];
      if rooted {
        assert r == "" + [Separator] + e;
        SplitAppend("", e);
      }
    } else {
      JoinSepAppend(w, [e]);
      if rooted {
        assert r == ([Separator] + JoinSep(w)) + [Separator] + e;
        SplitAppend([Separator] + JoinSep(w), e);
      } else {
        SplitAppend(JoinSep(w), e);
      }
    }
  }

  /** Joining elements whose last one is plain yields a path whose last element is that one. */
  lemma {:induction false} JoinEndsInPlain(elems: seq<string>)
    requires elems != [] && Plain(elems[|elems| - 1])
    ensures var parts := Split(Join(elems)); parts[|parts| - 1] == elems[|elems| - 1]
    decreases |elems|
  {
    if elems[0] == "" {
      assert |elems| > 1;
      assert Join(elems) == Join(elems[1..]);
      JoinEndsInPlain(elems[1..]);
    } else {
      JoinFromFirstEndsInPlain(elems);
    }
  }

  lemma JoinFromFirstEndsInPlain(elems: seq<string>)
    requires elems != [] && elems[0] != "" && Plain(elems[|elems| - 1])
    ensures var parts := Split(Join(elems)); parts[|parts| - 1] == elems[|elems| - 1]
  {
    var e := elems[|elems| - 1];
    if |elems| == 1 {
      JoinSingle(elems);
      SplitPlain(e);
    } else {
      JoinSepLast(elems);
      assert Join(elems) == Clean(JoinSep(elems[..|elems| - 1]) + [Separator] + e);
      CleanEndsInPlain(JoinSep(elems[..|elems| - 1]), e);
    }
  }

  /** The separator-joined elements are the joined prefix, a separator and the last element. */
  lemma {:induction false} JoinSepLast(elems: seq<string>)
    requires |elems| >= 2
    ensures JoinSep(elems) == JoinSep(elems[..|elems| - 1]) + [Separator] + elems[|elems| - 1]
    decreases |elems|
  {
    if |elems| > 2 {
      JoinSepLast(elems[1..]);
      assert elems[1..][..|elems| - 2] == elems[..|elems| - 1][1..];
    } else {
      assert elems[..1] == [elems[0]];
    }
  }

  /** A single plain element joins to itself. */
  lemma JoinSingle(elems: seq<string>)
    requires |elems| == 1 && Plain(elems[0])
    ensures Join(elems) == elems[0]
  {
    var e := elems[0];
    assert Join(elems) == Clean(e);
    SplitPlain(e);
    assert Walk([], [e], false) == [e];
  }


  /** Under a rooted path, cleaning the path followed by a plain element appends that element
      to the cleaned path, with a separator unless the cleaned path is the root itself. */
  lemma CleanAppendPlain(a: string, e: string)
    requires Rooted(a) && Plain(e)
    ensures Clean(a + [Separator] + e) ==
      if Clean(a) == [Separator] then Clean(a) + e else Clean(a) + [Separator] + e
  {
    var w := Walk([], Split(a), true);
    WalkAppendPlain(a, e);
    assert Clean(a) == [Separator] + JoinSep(w);
    if w == [] {
      assert w + [e] == [e];
    } else {
      assert JoinSep(w) != [] by {
        CleanIsNormal(a);
        JoinSepHead(w);
      }
      JoinSepAppend(w, [e]);
    }
  }

  /** Cleaning a rooted path followed by a plain element walks the path, then keeps the
      element. */
  lemma WalkAppendPlain(a: string, e: string)
    requires Rooted(a) && Plain(e)
    ensures Clean(a + [Separator] + e) == [Separator] + JoinSep(Walk([], Split(a), true) + [e])
  {
    var q := a + [Separator] + e;
    var w := Walk([], Split(a), true);
    assert Rooted(q);
    SplitAppend(a, e);
    SplitPlain(e);
    WalkAppend([], Split(a), [e], true);
    assert Walk(w, [e], true) == w + [e];
  }



  /** Joining one more plain element under a rooted first element appends it to the join of
      the others. */
  lemma JoinAppendPlain(elems: seq<string>, e: string)
    requires elems != [] && Plain(e)
    ensures Rooted(elems[0]) ==>
      Join(elems + [e]) == if Join(elems) == [Separator] then Join(elems) + e else Join(elems) + [Separator] + e
  {
    if Rooted(elems[0]) {
      assert (elems + [e])[0] == elems[0];
      JoinSepAppend(elems, [e]);
      JoinSepHead(elems);
      CleanAppendPlain(JoinSep(elems), e);
    }
  }
}
