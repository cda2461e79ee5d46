/** What the check of entry names is for: which paths an extraction can touch, whatever the archive. */
module Confinement {
  import opened Paths
  import opened Archive
  import opened RoundTrip

  ghost predicate SameOutside(fs: Fs, g: Fs, dst: Path) {
    forall p :: !(dst <= p) ==> (p in fs <==> p in g) && (p in fs ==> fs[p] == g[p])
  }

  function Up(p: Path): Path { if p == [] then [] else p[..|p| - 1] }

  // Each path of the disk lies in a folder.
  ghost predicate Rooted(fs: Fs) {
    [] !in fs && forall p :: p in fs ==> IsDir(fs, Up(p))
  }

  /* ---- Where a valid name leads ---- */

  lemma ConcatContainsRight(a: string, b: string, sub: string)
    requires Contains(b, sub)
    ensures Contains(a + b, sub)
  {
    var i :| OccursAt(b, sub, i);
    assert (a + b)[|a| + i..|a| + i + |sub|] == b[i..i + |sub|];
    assert OccursAt(a + b, sub, |a| + i);
  }

  lemma {:induction false} UpInsideShows(segs: seq<string>, i: nat)
    requires i < |segs| - 1 && segs[i] == ".."
    ensures Contains(Glue(segs), "../")
  {
    var rest := Glue(segs[1..]);
    if i == 0 {
      assert Glue(segs) == "../" + rest;
      assert OccursAt(Glue(segs), "../", 0);
    } else {
      UpInsideShows(segs[1..], i - 1);
      ConcatContainsRight(segs[0] + "/", rest, "../");
    }
  }

  lemma {:induction false} WithoutUpsStaysBelow(done: Path, segs: seq<string>)
    requires forall i :: 0 <= i < |segs| ==> segs[i] != ".."
    ensures done <= CleanFrom(done, segs)
    decreases |segs|
  {
    if segs != [] {
      WithoutUpsStaysBelow(if segs[0] == "" || segs[0] == "." then done else done + [segs[0]], segs[1..]);
    }
  }

  /** A name that passes the check leads below the destination or to the folder above it, no further. */
  lemma ValidTarget(dst: Path, name: string)
    requires ValidRelPath(name)
    ensures dst <= CleanFrom(dst, Split(name)) || CleanFrom(dst, Split(name)) == Up(dst)
  {
    var segs := Split(name);
    var init, last := segs[..|segs| - 1], segs[|segs| - 1];
    GlueSplit(name);
    forall i | 0 <= i < |init|
      ensures init[i] != ".."
    {
      if segs[i] == ".." {
        UpInsideShows(segs, i);
      }
    }
    WithoutUpsStaysBelow(dst, init);
    CleanConcat(dst, init, [last]);
    assert segs == init + [last];
    var q := CleanFrom(dst, init);
    assert CleanFrom(q, [last]) in {q, Up(q), q + [last]};
  }

  /* ---- Extraction under a folder that is there ---- */

  lemma {:induction false} MakeDirsConfined(fs: Fs, p: Path, dst: Path)
    requires dst != [] && dst <= p && IsDir(fs, Up(dst))
    ensures SameOutside(fs, MakeDirs(fs, p).fs, dst)
    decreases |p|
  {
    if p !in fs && p != dst {
      MakeDirsConfined(fs, p[..|p| - 1], dst);
    }
  }

  lemma PlaceConfined(fs: Fs, dst: Path, e: Entry)
    requires dst != [] && IsDir(fs, Up(dst))
    ensures SameOutside(fs, Place(fs, dst, e).fs, dst)
  {
    if ValidRelPath(e.name) {
      var target := CleanFrom(dst, Split(e.name));
      ValidTarget(dst, e.name);
      if e.isDir && !Exists(fs, target) {
        MakeDirsConfined(fs, target, dst);
      }
    }
  }

  lemma {:induction false} UnpackConfined(fs: Fs, dst: Path, tar: seq<Entry>)
    requires dst != [] && IsDir(fs, Up(dst))
    ensures SameOutside(fs, Unpack(fs, dst, tar).fs, dst)
    decreases |tar|
  {
    if tar != [] {
      PlaceConfined(fs, dst, tar[0]);
      var u := Place(fs, dst, tar[0]);
      if u.Ok? {
        assert IsDir(u.fs, Up(dst));
        UnpackConfined(u.fs, dst, tar[1..]);
      }
    }
  }

  /* ---- Extraction where the folder above is missing ---- */

  lemma {:induction false} FailedKeeps(fs: Fs, p: Path)
    ensures MakeDirs(fs, p).Failed? ==> MakeDirs(fs, p).fs == fs
    decreases |p|
  {
    if p != [] && p !in fs {
      FailedKeeps(fs, p[..|p| - 1]);
    }
  }

  lemma {:induction false} NothingBelow(fs: Fs, up: Path, p: Path)
    requires Rooted(fs) && up != [] && up !in fs && up <= p
    ensures p !in fs
    decreases |p|
  {
    if p != up {
      NothingBelow(fs, up, p[..|p| - 1]);
    }
  }

  lemma {:induction false} BlockedBelow(fs: Fs, up: Path, p: Path)
    requires Rooted(fs) && up != [] && up !in fs && MakeDirs(fs, up).Failed? && up <= p
    ensures MakeDirs(fs, p) == Failed(fs)
    decreases |p|
  {
    FailedKeeps(fs, p);
    NothingBelow(fs, up, p);
    if p != up {
      BlockedBelow(fs, up, p[..|p| - 1]);
    }
  }

  lemma {:induction false} BlockedUnpack(fs: Fs, dst: Path, tar: seq<Entry>)
    requires Rooted(fs) && dst != [] && Up(dst) != [] && Up(dst) !in fs && MakeDirs(fs, Up(dst)).Failed?
    ensures Unpack(fs, dst, tar).fs == fs
  {
    if tar != [] && ValidRelPath(tar[0].name) {
      var target := CleanFrom(dst, Split(tar[0].name));
      ValidTarget(dst, tar[0].name);
      BlockedBelow(fs, Up(dst), target);
      NothingBelow(fs, Up(dst), target);
      if target != Up(dst) {
        NothingBelow(fs, Up(dst), target[..|target| - 1]);
      }
      assert Place(fs, dst, tar[0]) == Failed(fs);
    }
  }

  /* ---- Exactly ---- */

  // The folder above the destination is there, or cannot be made.
  ghost predicate Confines(fs: Fs, dst: Path) {
    dst == [] || IsDir(fs, Up(dst)) || (Up(dst) !in fs && MakeDirs(fs, Up(dst)).Failed?)
  }

  lemma DotsLeadUp(dst: Path)
    ensures ValidRelPath("..") && CleanFrom(dst, Split("..")) == Up(dst)
  {
    SplitNoSlash("..");
    BackslashIn("..");
    assert !Contains("..", "../");
  }

  // The name ".." passes the check.
  lemma EscapesUp(fs: Fs, dst: Path) returns (tar: seq<Entry>)
    requires Rooted(fs) && !Confines(fs, dst)
    ensures !SameOutside(fs, Unpack(fs, dst, tar).fs, dst)
  {
    var up := Up(dst);
    DotsLeadUp(dst);
    if up in fs {
      var data := fs[up].content + [0];
      tar := [Entry("..", false, data)];
      assert Place(fs, dst, tar[0]) == Ok(fs[up := FsFile(data)]);
    } else {
      tar := [Entry("..", true, [])];
      assert Place(fs, dst, tar[0]) == MakeDirs(fs, up);
    }
    assert Unpack(fs, dst, tar).fs == Place(fs, dst, tar[0]).fs;
    assert !(dst <= up);
  }

  /** Whatever the archive, extraction touches no path outside its destination, if and only if the folder
      above the destination is there or cannot be made. */
  lemma ExtractionIsConfinedExactly(fs: Fs, dst: Path)
    requires Rooted(fs)
    ensures (forall tar :: SameOutside(fs, Unpack(fs, dst, tar).fs, dst)) <==> Confines(fs, dst)
  {
    if Confines(fs, dst) {
      forall tar
        ensures SameOutside(fs, Unpack(fs, dst, tar).fs, dst)
      {
        if dst != [] {
          if IsDir(fs, Up(dst)) {
            UnpackConfined(fs, dst, tar);
          } else {
            BlockedUnpack(fs, dst, tar);
          }
        }
      }
    } else {
      var tar := EscapesUp(fs, dst);
    }
  }
}
