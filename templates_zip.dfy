/** The path checks behind ZIP template retrieval (sdk/go/common/workspace/templates_zip.go):
    the guard that keeps an archive entry inside the extraction directory, and the test that
    recognises a ZIP template URL. */
module TemplatesZip {
  import opened Wrappers
  import opened Resource
  import opened Paths

  /** strings.HasSuffix. */
  predicate HasSuffix(s: string, suffix: string)
  {
    |suffix| <= |s| && s[|s| - |suffix|..] == suffix
  }

  /** isZIPTemplateURL, given the path component of the parsed URL: a non-empty path ending
      in ".zip". The non-emptiness test is implied by the suffix test. */
  function IsZipTemplateURL(path: string): (b: bool)
    ensures b <==> HasSuffix(path, ".zip")
    ensures b ==> |path| >= 4
  {
    path != "" && HasSuffix(path, ".zip")
  }

  /** Any path ending in ".zip" is recognised, whatever precedes the suffix. */
  lemma ZipPathsAreTemplates(stem: string)
    ensures IsZipTemplateURL(stem + ".zip")
  {
    assert (stem + ".zip")[|stem|..] == ".zip";
  }

  // ---------------------------------------------------------------------------------------
  // The archive-entry guard, as written

  /** sanitizeArchivePath: join the directory and the entry name, and accept the result when
      the cleaned directory is a string prefix of it. */
  function SanitizeArchivePath(d: string, t: string): (r: Result<string, Error>)
    ensures r.Success? <==> Clean(d) <= Join([d, t])
    ensures r.Success? ==> r.value == Join([d, t])
    ensures r.Failure? ==> r.error == Tainted(t)
  {
    var v := Join([d, t]);
    if Clean(d) <= v then Success(v) else Failure(Tainted(t))
  }

  /** `v` names `base` itself or something below it: the elements of `base` are the leading
      elements of `v`, and both are rooted or neither is. */
  ghost predicate Inside(base: string, v: string)
  {
    (Rooted(base) <==> Rooted(v)) && Elements(Split(base)) <= Elements(Split(v))
  }

  /** The string-prefix test admits a sibling directory whose name extends the directory's
      own: the entry "../ab/x" under "/tmp/a" is accepted as "/tmp/ab/x". */
  lemma SiblingEscapeAccepted()
    ensures SanitizeArchivePath("/tmp/a", "../ab/x") == Success("/tmp/ab/x")
    ensures !Inside(Clean("/tmp/a"), "/tmp/ab/x")
  {
    JoinSiblingEntry();
    SiblingGuardPasses("/tmp/a", "/tmp/ab/x");
    SiblingOutside("/tmp/a", "/tmp/ab/x");
  }

  lemma SiblingGuardPasses(d: string, v: string)
    requires d == "/tmp/a" && v == "/tmp/ab/x"
    ensures Clean(d) <= v
  {
    CleanTmpA();
  }

  lemma SiblingOutside(d: string, v: string)
    requires d == "/tmp/a" && v == "/tmp/ab/x"
    ensures !Inside(Clean(d), v)
  {
    CleanTmpA();
    SplitTmpA();
    SplitTmpAbX();
    assert Elements(Split(v)) == ["tmp", "ab", "x"] by {
      assert Elements(["", "tmp", "ab", "x"]) == ["tmp", "ab", "x"];
    }
    assert Elements(Split(Clean(d))) == ["tmp", "a"] by {
      assert Elements(["", "tmp", "a"]) == ["tmp", "a"];
    }
  }

  /** An entry that climbs out of the directory and away is rejected: "../x" under "/tmp/a"
      would be "/tmp/x". */
  lemma ParentEscapeRejected()
    ensures SanitizeArchivePath("/tmp/a", "../x") == Failure(Tainted("../x"))
  {
    JoinParentEntry();
    ParentGuardFails("/tmp/a", "/tmp/x");
  }

  lemma ParentGuardFails(d: string, v: string)
    requires d == "/tmp/a" && v == "/tmp/x"
    ensures !(Clean(d) <= v)
  {
    CleanTmpA();
    assert v[5] == 'x';
  }


  // Concrete paths, one fact at a time.

  lemma SplitTmpA()
    ensures Split("/tmp/a") == ["", "tmp", "a"]
  {
    var parts := ["", "tmp", "a"];
    assert JoinSep(parts[2..]) == "a";
    assert JoinSep(parts[1..]) == "tmp/a";
    assert JoinSep(parts) == "/tmp/a";
    SplitJoinSep(parts);
  }

  lemma CleanTmpA()
    ensures Clean("/tmp/a") == "/tmp/a"
  {
    SplitTmpA();
    WalkTmpA();
    assert JoinSep(["tmp", "a"]) == "tmp/a";
  }

  lemma SplitTmpAbX()
    ensures Split("/tmp/ab/x") == ["", "tmp", "ab", "x"]
  {
    var parts := ["", "tmp", "ab", "x"];
    assert JoinSep(parts[3..]) == "x";
    assert JoinSep(parts[2..]) == "ab/x";
    assert JoinSep(parts[1..]) == "tmp/ab/x";
    assert JoinSep(parts) == "/tmp/ab/x";
    SplitJoinSep(parts);
  }

  lemma SplitParentEntry()
    ensures Split("../x") == ["..", "x"]
  {
    assert JoinSep(["..", "x"]) == "../x";
    SplitJoinSep(["..", "x"]);
  }

  lemma SplitSiblingEntry()
    ensures Split("../ab/x") == ["..", "ab", "x"]
  {
    var parts := ["..", "ab", "x"];
    assert JoinSep(parts[2..]) == "x";
    assert JoinSep(parts[1..]) == "ab/x";
    assert JoinSep(parts) == "../ab/x";
    SplitJoinSep(parts);
  }

  lemma WalkTmpA()
    ensures Walk([], ["", "tmp", "a"], true) == ["tmp", "a"]
  {
    assert Walk(["tmp", "a"], [], true) == ["tmp", "a"];
    assert Walk(["tmp"], ["a"], true) == ["tmp", "a"];
    assert Walk([], ["tmp", "a"], true) == ["tmp", "a"];
  }

  /** Join of "/tmp/a" and an entry cleans "/tmp/a/" followed by the entry. */
  lemma JoinUnderTmpA(t: string)
    ensures Join(["/tmp/a", t]) == Render(true, Walk(["tmp", "a"], Split(t), true))
  {
    var p := "/tmp/a" + [Separator] + t;
    assert Join(["/tmp/a", t]) == Clean(p) by {
      assert JoinSep(["/tmp/a", t]) == p;
    }
    assert Split(p) == ["", "tmp", "a"] + Split(t) by {
      SplitAppend("/tmp/a", t);
      SplitTmpA();
    }
    assert Walk([], Split(p), true) == Walk(["tmp", "a"], Split(t), true) by {
      WalkAppend([], ["", "tmp", "a"], Split(t), true);
      WalkTmpA();
    }
    assert Rooted(p);
  }

  lemma JoinParentEntry()
    ensures Join(["/tmp/a", "../x"]) == "/tmp/x"
  {
    JoinParentEntryOf("../x");
  }

  lemma JoinParentEntryOf(t: string)
    requires t == "../x"
    ensures Join(["/tmp/a", t]) == "/tmp/x"
  {
    JoinUnderTmpA(t);
    SplitParentEntry();
    WalkParentEntry();
    RenderTmpX();
  }

  lemma WalkParentEntry()
    ensures Walk(["tmp", "a"], ["..", "x"], true) == ["tmp", "x"]
  {
    assert Walk(["tmp", "x"], [], true) == ["tmp", "x"];
    assert Walk(["tmp"], ["x"], true) == ["tmp", "x"];
    assert Step(["tmp", "a"], "..", true) == ["tmp"];
  }

  lemma RenderTmpX()
    ensures Render(true, ["tmp", "x"]) == "/tmp/x"
  {
    assert JoinSep(["tmp", "x"]) == "tmp/x";
  }


  lemma WalkSiblingEntry()
    ensures Walk(["tmp", "a"], ["..", "ab", "x"], true) == ["tmp", "ab", "x"]
  {
    var kept := ["tmp", "ab", "x"];
    assert Walk(kept, [], true) == kept;
    assert Walk(["tmp", "ab"], ["x"], true) == kept;
    assert Walk(["tmp"], ["ab", "x"], true) == kept;
    assert Step(["tmp", "a"], "..", true) == ["tmp"];
  }

  lemma JoinSiblingEntry()
    ensures Join(["/tmp/a", "../ab/x"]) == "/tmp/ab/x"
  {
    JoinSiblingEntryOf("../ab/x");
  }

  // Stated for a variable so that the verifier does not evaluate Join on the literal.
  lemma JoinSiblingEntryOf(t: string)
    requires t == "../ab/x"
    ensures Join(["/tmp/a", t]) == "/tmp/ab/x"
  {
    JoinUnderTmpA(t);
    SplitSiblingEntry();
    WalkSiblingEntry();
    RenderTmpAbX();
  }

  lemma RenderTmpAbX()
    ensures Render(true, ["tmp", "ab", "x"]) == "/tmp/ab/x"
  {
    var kept := ["tmp", "ab", "x"];
    assert JoinSep(kept[2..]) == "x";
    assert JoinSep(kept[1..]) == "ab/x";
    assert JoinSep(kept) == "tmp/ab/x";
  }

  // ---------------------------------------------------------------------------------------
  // The archive-entry guard, stopping at an element boundary

  /** `base` is a string prefix of `v` that ends where an element of `v` ends. */
  predicate WithinDir(base: string, v: string)
  {
    base <= v && (|v| == |base| || (|base| > 0 && base[|base| - 1] == Separator) || v[|base|] == Separator)
  }

  /** sanitizeArchivePath with the prefix test tightened to element boundaries: an accepted
      entry is a clean path inside the cleaned directory. */
  function SanitizeArchivePathWithin(d: string, t: string): (r: Result<string, Error>)
    ensures r.Success? ==> r.value == Join([d, t]) && Clean(r.value) == r.value && Inside(Clean(d), r.value)
    ensures r.Failure? ==> r.error == Tainted(t)
  {
    var v := Join([d, t]);
    if WithinDir(Clean(d), v) then
      WithinDirIsInside(Clean(d), v);
      Success(v)
    else Failure(Tainted(t))
  }

  lemma WithinDirIsInside(base: string, v: string)
    requires base != "" && WithinDir(base, v)
    ensures Inside(base, v)
  {
    var rest := v[|base|..];
    assert v == base + rest;
    if |v| == |base| {
      assert v == base;
    } else if base[|base| - 1] == Separator {
      var b := base[..|base| - 1];
      assert base == b + [Separator] + "";
      assert v == b + [Separator] + rest;
      SplitAppend(b, "");
      SplitAppend(b, rest);
      ElementsAppend(Split(b), Split(""));
      ElementsAppend(Split(b), Split(rest));
      assert Elements(Split("")) == [];
    } else {
      assert v == base + [Separator] + rest[1..];
      SplitAppend(base, rest[1..]);
      ElementsAppend(Split(base), Split(rest[1..]));
    }
  }

  /** An entry without `..` elements stays within a rooted directory. */
  lemma PlainEntryStaysWithin(d: string, t: string)
    requires Rooted(d)
    requires forall i :: 0 <= i < |Split(t)| ==> Split(t)[i] != ".."
    ensures WithinDir(Clean(d), Join([d, t]))
  {
    var p := d + [Separator] + t;
    assert JoinSep([d, t]) == p;
    assert Rooted(p);
    SplitAppend(d, t);
    var a := Walk([], Split(d), true);
    WalkAppend([], Split(d), Split(t), true);
    WalkWithoutParent(a, Split(t), true);
    var b := Kept(Split(t));
    assert Join([d, t]) == [Separator] + JoinSep(a + b);
    assert Clean(d) == [Separator] + JoinSep(a);
    if b == [] {
      assert a + b == a;
    } else if a != [] {
      JoinSepAppend(a, b);
    }
  }

  /** Under a rooted directory the tightened guard is exact: it accepts an entry precisely
      when the joined path lies inside the cleaned directory. */
  lemma SanitizeArchivePathWithinExactly(d: string, t: string)
    requires Rooted(d)
    ensures SanitizeArchivePathWithin(d, t) ==
      if Inside(Clean(d), Join([d, t])) then Success(Join([d, t])) else Failure(Tainted(t))
  {
    if Inside(Clean(d), Join([d, t])) {
      InsideIsWithinDir(d, t);
    }
  }

  lemma InsideIsWithinDir(d: string, t: string)
    requires Rooted(d) && Inside(Clean(d), Join([d, t]))
    ensures WithinDir(Clean(d), Join([d, t]))
  {
    var p := d + [Separator] + t;
    assert Join([d, t]) == Clean(p) by {
      assert JoinSep([d, t]) == p;
    }
    var a := CleanRooted(d);
    var b := CleanRooted(p);
    ElementsOfRooted(a);
    ElementsOfRooted(b);
    RenderPrefixWithin(a, b);
  }

  /** A rooted path cleans to the rendering of a normal element list. */
  lemma CleanRooted(p: string) returns (xs: seq<string>)
    requires Rooted(p)
    ensures Normal(xs, true) && Clean(p) == Render(true, xs)
  {
    xs := Walk([], Split(p), true);
    CleanIsNormal(p);
  }

  /** Rendering a rooted list and a longer list it begins gives paths that meet at an
      element boundary. */
  lemma RenderPrefixWithin(a: seq<string>, b: seq<string>)
    requires a <= b
    ensures WithinDir(Render(true, a), Render(true, b))
  {
    var base := Render(true, a);
    var v := Render(true, b);
    var c := b[|a|..];
    assert b == a + c;
    if c == [] {
      assert b == a;
    } else if a == [] {
      assert base == [Separator];
    } else {
      JoinSepAppend(a, c);
      assert v == base + [Separator] + JoinSep(c);
      assert v[|base|] == Separator;
    }
  }

  /** Both guards accept every entry without `..` elements under a rooted directory. */
  lemma PlainEntriesAccepted(d: string, t: string)
    requires Rooted(d)
    requires forall i :: 0 <= i < |Split(t)| ==> Split(t)[i] != ".."
    ensures SanitizeArchivePath(d, t) == Success(Join([d, t]))
    ensures SanitizeArchivePathWithin(d, t) == Success(Join([d, t]))
  {
    PlainEntryStaysWithin(d, t);
  }

  /** The tightened guard rejects the sibling directory the string-prefix test admits. */
  lemma SiblingEscapeRejected()
    ensures SanitizeArchivePathWithin("/tmp/a", "../ab/x") == Failure(Tainted("../ab/x"))
  {
    JoinSiblingEntry();
    SiblingNotWithin("/tmp/a", "/tmp/ab/x");
  }

  lemma SiblingNotWithin(d: string, v: string)
    requires d == "/tmp/a" && v == "/tmp/ab/x"
    ensures !WithinDir(Clean(d), v)
  {
    CleanTmpA();
    assert v[6] == 'b';
  }
}
