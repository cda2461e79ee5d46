/** Slash-separated path texts and the lexical operations the archive code uses on them
    (strings.TrimPrefix, strings.Contains, filepath.Join). */
module Paths {
  // The cleaned segments of an absolute path; [] is the root.
  type Path = seq<string>

  function Split(s: string): (r: seq<string>)
    ensures r != []
  {
    if s == "" then [""] else Extend(s[0], Split(s[1..]))
  }

  // One more character in front of a split text.
  function Extend(c: char, r: seq<string>): seq<string>
    requires r != []
  {
    if c == '/' then [""] + r else [[c] + r[0]] + r[1..]
  }

  function Glue(segs: seq<string>): string {
    if segs == [] then ""
    else if |segs| == 1 then segs[0]
    else segs[0] + "/" + Glue(segs[1..])
  }

  function Render(p: Path): string { "/" + Glue(p) }

  // filepath.Clean on the segments of an absolute path.
  function CleanFrom(done: Path, segs: seq<string>): Path
    decreases |segs|
  {
    if segs == [] then done
    else if segs[0] == "" || segs[0] == "." then CleanFrom(done, segs[1..])
    else if segs[0] == ".." then CleanFrom(if done == [] then [] else done[..|done| - 1], segs[1..])
    else CleanFrom(done + [segs[0]], segs[1..])
  }

  function Segments(text: string): Path { CleanFrom([], Split(text)) }

  // The same for a relative path, where ".." stays if there is nothing before it to take away.
  function CleanRelative(done: Path, segs: seq<string>): Path
    decreases |segs|
  {
    if segs == [] then done
    else if segs[0] == "" || segs[0] == "." then CleanRelative(done, segs[1..])
    else if segs[0] == ".." && done != [] && done[|done| - 1] != ".." then CleanRelative(done[..|done| - 1], segs[1..])
    else CleanRelative(done + [segs[0]], segs[1..])
  }

  function RelativeSegments(text: string): Path { CleanRelative([], Split(text)) }

  function RenderRelative(p: Path): string { if p == [] then "." else Glue(p) }

  predicate IsAbs(text: string) { "/" <= text }

  function Join(text: string, name: string): string {
    if IsAbs(text) then Render(CleanFrom(Segments(text), Split(name)))
    else RenderRelative(CleanRelative(RelativeSegments(text), Split(name)))
  }

  function TrimPrefix(s: string, prefix: string): string {
    if prefix <= s then s[|prefix|..] else s
  }

  predicate OccursAt(s: string, sub: string, i: int) {
    0 <= i <= |s| - |sub| && s[i..i + |sub|] == sub
  }

  ghost predicate Contains(s: string, sub: string) {
    exists i :: OccursAt(s, sub, i)
  }

  predicate EndsWith(s: string, tail: string) {
    |tail| <= |s| && s[|s| - |tail|..] == tail
  }

  // A name a directory entry can have.
  predicate Ordinary(name: string) {
    name != "" && name != "." && name != ".." && '/' !in name
  }

  predicate AllOrdinary(p: Path) {
    forall i :: 0 <= i < |p| ==> Ordinary(p[i])
  }

  lemma {:induction false} SplitNoSlash(s: string)
    requires '/' !in s
    ensures Split(s) == [s]
  {
    if s != "" {
      SplitNoSlash(s[1..]);
      assert [s[0]] + s[1..] == s;
    }
  }

  lemma {:induction false} SplitAtSlash(a: string, b: string)
    ensures Split(a + "/" + b) == Split(a) + Split(b)
  {
    if a == "" {
      assert "" + "/" + b == ['/'] + b;
    } else {
      SplitAtSlash(a[1..], b);
      var s := a + "/" + b;
      assert s[0] == a[0] && s[1..] == a[1..] + "/" + b;
      ExtendConcat(a[0], Split(a[1..]), Split(b));
    }
  }

  lemma ExtendConcat(c: char, r: seq<string>, q: seq<string>)
    requires r != []
    ensures Extend(c, r + q) == Extend(c, r) + q
  {
  }

  lemma {:induction false} GlueSplit(s: string)
    ensures Glue(Split(s)) == s
  {
    if s != "" {
      GlueSplit(s[1..]);
      var r := Split(s[1..]);
      if s[0] == '/' {
        assert ([""] + r)[1..] == r;
        assert s == "" + "/" + s[1..];
      } else {
        assert ([[s[0]] + r[0]] + r[1..])[1..] == r[1..];
        assert s == [s[0]] + s[1..];
        if |r| > 1 {
          assert Glue(r) == r[0] + "/" + Glue(r[1..]);
          assert [s[0]] + (r[0] + "/" + Glue(r[1..])) == ([s[0]] + r[0]) + "/" + Glue(r[1..]);
        }
      }
    }
  }

  lemma {:induction false} SplitGlue(p: Path)
    requires p != [] && forall i :: 0 <= i < |p| ==> '/' !in p[i]
    ensures Split(Glue(p)) == p
  {
    SplitNoSlash(p[0]);
    if |p| > 1 {
      SplitGlue(p[1..]);
      SplitAtSlash(p[0], Glue(p[1..]));
      assert [p[0]] + p[1..] == p;
    } else {
      assert p == [p[0]];
    }
  }

  lemma SplitRender(p: Path)
    requires p != [] && AllOrdinary(p)
    ensures Split(Render(p)) == [""] + p
  {
    SplitGlue(p);
    SplitAtSlash("", Glue(p));
    assert "" + "/" + Glue(p) == Render(p);
  }

  lemma {:induction false} GlueSnoc(p: Path, n: string)
    requires p != []
    ensures Glue(p + [n]) == Glue(p) + "/" + n
  {
    if |p| == 1 {
      assert (p + [n])[1..] == [n];
    } else {
      GlueSnoc(p[1..], n);
      assert (p + [n])[1..] == p[1..] + [n];
    }
  }

  lemma {:induction false} CleanOrdinary(done: Path, p: Path)
    requires AllOrdinary(p)
    ensures CleanFrom(done, p) == done + p
    decreases |p|
  {
    if p == [] {
      assert done + p == done;
    } else {
      assert Ordinary(p[0]);
      CleanOrdinary(done + [p[0]], p[1..]);
      assert done + p == (done + [p[0]]) + p[1..];
    }
  }

  lemma {:induction false} CleanIsOrdinary(done: Path, segs: seq<string>)
    requires AllOrdinary(done)
    requires forall i :: 0 <= i < |segs| ==> '/' !in segs[i]
    ensures AllOrdinary(CleanFrom(done, segs))
    decreases |segs|
  {
    if segs == [] {
    } else if segs[0] == "" || segs[0] == "." {
      CleanIsOrdinary(done, segs[1..]);
    } else if segs[0] == ".." {
      CleanIsOrdinary(if done == [] then [] else done[..|done| - 1], segs[1..]);
    } else {
      CleanIsOrdinary(done + [segs[0]], segs[1..]);
    }
  }

  lemma {:induction false} SplitHasNoSlash(s: string)
    ensures forall i :: 0 <= i < |Split(s)| ==> '/' !in Split(s)[i]
  {
    if s != "" {
      SplitHasNoSlash(s[1..]);
    }
  }

  lemma SegmentsOrdinary(text: string)
    ensures AllOrdinary(Segments(text))
  {
    SplitHasNoSlash(text);
    CleanIsOrdinary([], Split(text));
  }

  /* ---- Relative paths ---- */

  // What CleanRelative leaves: plain segments, with ".." at the front only.
  predicate Reduced(p: Path) {
    (forall i :: 0 <= i < |p| ==> p[i] != "" && p[i] != "." && '/' !in p[i]) &&
    (forall i, j :: 0 <= i < j < |p| && p[j] == ".." ==> p[i] == "..")
  }

  lemma {:induction false} RelativeIsReduced(done: Path, segs: seq<string>)
    requires Reduced(done)
    requires forall i :: 0 <= i < |segs| ==> '/' !in segs[i]
    ensures Reduced(CleanRelative(done, segs))
    decreases |segs|
  {
    if segs == [] {
    } else if segs[0] == "" || segs[0] == "." {
      RelativeIsReduced(done, segs[1..]);
    } else if segs[0] == ".." && done != [] && done[|done| - 1] != ".." {
      RelativeIsReduced(done[..|done| - 1], segs[1..]);
    } else {
      if segs[0] == ".." && done != [] {
        assert forall i :: 0 <= i < |done| - 1 ==> done[i] == "..";
      }
      RelativeIsReduced(done + [segs[0]], segs[1..]);
    }
  }

  lemma {:induction false} ReducedStays(done: Path, p: Path)
    requires Reduced(done + p)
    ensures CleanRelative(done, p) == done + p
    decreases |p|
  {
    if p == [] {
      assert done + p == done;
    } else {
      assert (done + p)[|done|] == p[0];
      assert done + p == (done + [p[0]]) + p[1..];
      if p[0] == ".." && done != [] {
        assert (done + p)[|done| - 1] == done[|done| - 1];
      }
      ReducedStays(done + [p[0]], p[1..]);
    }
  }

  lemma {:induction false} RelativeConcat(done: Path, a: Path, b: Path)
    ensures CleanRelative(done, a + b) == CleanRelative(CleanRelative(done, a), b)
    decreases |a|
  {
    if a == [] {
      assert a + b == b;
    } else {
      assert (a + b)[1..] == a[1..] + b;
      if a[0] == "" || a[0] == "." {
        RelativeConcat(done, a[1..], b);
      } else if a[0] == ".." && done != [] && done[|done| - 1] != ".." {
        RelativeConcat(done[..|done| - 1], a[1..], b);
      } else {
        RelativeConcat(done + [a[0]], a[1..], b);
      }
    }
  }

  lemma ReducedText(p: Path)
    requires p != [] && Reduced(p)
    ensures !IsAbs(Glue(p)) && RelativeSegments(Glue(p)) == p
  {
    SplitGlue(p);
    ReducedStays([], p);
    assert [] + p == p;
    assert Glue(p)[0] == p[0][0];
  }

  /* ---- Joining names under a folder ---- */

  // The text is what filepath.Clean would leave it as, and it is neither the root nor ".".
  predicate CleanFolder(text: string) {
    if IsAbs(text) then Segments(text) != [] && text == Render(Segments(text))
    else RelativeSegments(text) != [] && text == Glue(RelativeSegments(text))
  }

  // A relative path that is not clean, "." included.
  predicate Unclean(text: string) { !IsAbs(text) && text != "" && !CleanFolder(text) }

  // Below such a folder a walk's names are relative to it: the text is clean, or it cleans to ".".
  predicate Tidy(text: string) { CleanFolder(text) || (Unclean(text) && RelativeSegments(text) == []) }

  // No cleaned relative path begins with an unclean one.
  lemma NoUncleanInFront(parent: string, p: Path)
    requires Unclean(parent) && p != [] && Reduced(p)
    ensures TrimPrefix(Glue(p), parent + "/") == Glue(p)
  {
    if parent + "/" <= Glue(p) {
      var rest := Glue(p)[|parent| + 1..];
      assert Glue(p) == parent + "/" + rest;
      SplitAtSlash(parent, rest);
      SplitGlue(p);
      var q := Split(parent);
      assert q == p[..|q|];
      GlueSplit(parent);
      ReducedPrefix(p, |q|);
      ReducedText(q);
      assert false;
    }
  }

  lemma ReducedPrefix(p: Path, n: nat)
    requires Reduced(p) && n <= |p|
    ensures Reduced(p[..n])
  {
  }

  lemma {:induction false} CleanTrailing(done: Path, segs: seq<string>)
    ensures CleanFrom(done, segs + [""]) == CleanFrom(done, segs)
    decreases |segs|
  {
    if segs == [] {
      assert segs + [""] == [""];
    } else {
      assert (segs + [""])[1..] == segs[1..] + [""];
      if segs[0] == "" || segs[0] == "." {
        CleanTrailing(done, segs[1..]);
      } else if segs[0] == ".." {
        CleanTrailing(if done == [] then [] else done[..|done| - 1], segs[1..]);
      } else {
        CleanTrailing(done + [segs[0]], segs[1..]);
      }
    }
  }

  lemma TrailingSlash(text: string)
    ensures Segments(text + "/") == Segments(text)
  {
    SplitAtSlash(text, "");
    assert text + "/" + "" == text + "/";
    CleanTrailing([], Split(text));
  }

  // Joining an ordinary name appends one segment.
  lemma JoinAppends(text: string, name: string)
    requires Ordinary(name)
    ensures IsAbs(text) ==> Join(text, name) == Render(Segments(text) + [name])
    ensures IsAbs(text) ==> Segments(Join(text, name)) == Segments(text) + [name]
    ensures !IsAbs(text) ==> Join(text, name) == Glue(RelativeSegments(text) + [name])
    ensures CleanFolder(Join(text, name))
  {
    SplitNoSlash(name);
    if IsAbs(text) {
      AbsoluteJoin(text, name);
    } else {
      SplitHasNoSlash(text);
      RelativeIsReduced([], Split(text));
      var p := RelativeSegments(text) + [name];
      assert CleanRelative(RelativeSegments(text), [name]) == p;
      ReducedText(p);
    }
  }

  lemma AbsoluteJoin(text: string, name: string)
    requires IsAbs(text) && Ordinary(name)
    ensures Join(text, name) == Render(Segments(text) + [name])
    ensures Segments(Join(text, name)) == Segments(text) + [name]
    ensures CleanFolder(Join(text, name))
  {
    SplitNoSlash(name);
    var p := Segments(text) + [name];
    SegmentsOrdinary(text);
    CleanOrdinary(Segments(text), [name]);
    SplitRender(p);
    assert AllOrdinary(p);
    assert ([""] + p)[1..] == p;
    CleanOrdinary([], p);
    assert [] + p == p;
  }

  lemma RenderSnoc(p: Path, name: string)
    requires p != []
    ensures Render(p + [name]) == Render(p) + "/" + name
  {
    GlueSnoc(p, name);
    assert "/" + (Glue(p) + "/" + name) == "/" + Glue(p) + "/" + name;
  }

  lemma JoinClean(folder: string, name: string)
    requires CleanFolder(folder) && Ordinary(name)
    ensures Join(folder, name) == folder + "/" + name
    ensures Join(folder + "/", name) == folder + "/" + name
  {
    JoinAppends(folder, name);
    JoinAppends(folder + "/", name);
    if IsAbs(folder) {
      TrailingSlash(folder);
      RenderSnoc(Segments(folder), name);
    } else {
      assert folder != "" && (folder + "/")[0] == folder[0];
      SplitAtSlash(folder, "");
      assert folder + "/" + "" == folder + "/";
      RelativeConcat([], Split(folder), [""]);
      GlueSnoc(RelativeSegments(folder), name);
    }
  }

  /** A cleaned path starts with folder + "/" only when folder itself is clean. */
  lemma CleanPathHasCleanPrefix(folder: string, p: Path)
    requires IsAbs(folder) && p != [] && AllOrdinary(p)
    requires folder + "/" <= Render(p)
    ensures CleanFolder(folder)
  {
    var rest := Render(p)[|folder| + 1..];
    assert Render(p) == folder + "/" + rest;
    SplitAtSlash(folder, rest);
    SplitRender(p);
    var k := |Split(folder)| - 1;
    assert Split(folder) == ([""] + p)[..k + 1];
    var q := p[..k];
    assert Split(folder) == [""] + q;
    GlueSplit(folder);
    assert q != [] by {
      assert Glue([""]) == "";
    }
    assert ([""] + q)[1..] == q;
    assert folder == "" + "/" + Glue(q);
    CleanOrdinary([], q);
    assert [] + q == q;
  }
}
