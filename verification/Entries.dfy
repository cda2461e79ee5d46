/** What extraction makes of any disk and any archive, one entry after the other: which entries fail and what
    they leave, told of the disk itself. */
module Entries {
  import opened Paths
  import opened Archive

  // Nothing of p is there behind its first i segments, which are there.
  ghost predicate ThereUpTo(fs: Fs, p: Path, i: nat) {
    i <= |p| && (i == 0 || p[..i] in fs) && forall k :: i < k <= |p| ==> p[..k] !in fs
  }

  lemma {:induction false} LastThere(fs: Fs, p: Path) returns (i: nat)
    ensures ThereUpTo(fs, p, i)
    decreases |p|
  {
    assert p[..|p|] == p;
    if p == [] || p in fs {
      i := |p|;
    } else {
      var up := p[..|p| - 1];
      i := LastThere(fs, up);
      assert forall k :: 0 <= k <= |up| ==> up[..k] == p[..k];
    }
  }

  // The folders of p behind its first i segments are new; nothing else changed.
  ghost predicate AddsFolders(fs: Fs, p: Path, i: nat, g: Fs)
    requires i <= |p|
  {
    (forall q :: q in fs ==> q in g && g[q] == fs[q]) &&
    (forall k :: i < k <= |p| ==> p[..k] in g && g[p[..k]].FsDir?) &&
    (forall q :: q in g && q !in fs ==> exists k :: i < k <= |p| && q == p[..k])
  }

  lemma OneFolderMore(fs: Fs, p: Path, i: nat, g: Fs)
    requires i < |p| && p !in fs && AddsFolders(fs, p[..|p| - 1], i, g)
    ensures AddsFolders(fs, p, i, g[p := FsDir])
  {
    var n := |p| - 1;
    assert p[..|p|] == p;
    assert forall k :: 0 <= k <= n ==> p[..n][..k] == p[..k];
    forall q | q in g[p := FsDir] && q !in fs
      ensures exists k :: i < k <= |p| && q == p[..k]
    {
      if q == p {
        assert q == p[..|p|];
      } else {
        var k :| i < k <= n && q == p[..n][..k];
        assert q == p[..k];
      }
    }
  }

  /** os.MkdirAll looks for the last part of the path that is there: if that is a file nothing is made, and
      otherwise every folder behind it. */
  lemma {:induction false} MakeDirsExactly(fs: Fs, p: Path, i: nat)
    requires ThereUpTo(fs, p, i)
    ensures var r := MakeDirs(fs, p);
            if i > 0 && fs[p[..i]].FsFile? then r == Failed(fs)
            else r.Ok? && AddsFolders(fs, p, i, r.fs)
    decreases |p|
  {
    assert p[..|p|] == p;
    if i < |p| {
      var up := p[..|p| - 1];
      assert forall k :: 0 <= k <= |up| ==> up[..k] == p[..k];
      MakeDirsExactly(fs, up, i);
      if !(i > 0 && fs[p[..i]].FsFile?) {
        OneFolderMore(fs, p, i, MakeDirs(fs, up).fs);
      }
    }
  }

  // p is a folder of the disk, or its root.
  ghost predicate Folder(fs: Fs, p: Path) { p == [] || (p in fs && fs[p].FsDir?) }

  // The name is refused.
  ghost predicate Refused(name: string) {
    name == "" || name[0] == '/' || '\\' in name ||
    exists i :: 0 <= i && i + 2 < |name| && name[i] == '.' && name[i + 1] == '.' && name[i + 2] == '/'
  }

  lemma RefusedExactly(name: string)
    ensures Refused(name) <==> !ValidRelPath(name)
  {
    if '\\' in name {
      var i :| 0 <= i < |name| && name[i] == '\\';
      assert OccursAt(name, "\\", i);
    }
    if Contains(name, "\\") {
      var i :| OccursAt(name, "\\", i);
      assert name[i..i + 1][0] == name[i];
    }
    if i :| 0 <= i && i + 2 < |name| && name[i] == '.' && name[i + 1] == '.' && name[i + 2] == '/' {
      assert name[i..i + 3] == "../";
      assert OccursAt(name, "../", i);
    }
    if Contains(name, "../") {
      var i :| OccursAt(name, "../", i);
      var t := name[i..i + 3];
      assert t[0] == name[i] && t[1] == name[i + 1] && t[2] == name[i + 2];
    }
    assert name != "" ==> ("/" <= name <==> name[0] == '/');
  }

  // Written without truncation: the new content, and of a longer old one what lies behind it.
  predicate WrittenOver(was: Bytes, data: Bytes, now: Bytes) {
    data <= now && (|was| <= |data| ==> now == data) &&
    (|was| > |data| ==> |now| == |was| && forall i :: |data| <= i < |was| ==> now[i] == was[i])
  }

  // A file at target, over what was there; nothing else changed.
  ghost predicate PutsFile(fs: Fs, target: Path, data: Bytes, g: Fs) {
    target in g && g[target].FsFile? && g.Keys == fs.Keys + {target} &&
    (forall q :: q in fs && q != target ==> g[q] == fs[q]) &&
    WrittenOver(if target in fs && fs[target].FsFile? then fs[target].content else [], data, g[target].content)
  }

  /** One entry: it fails if its name is refused, if a file lies on the way of a new folder, or if a file's parent
      is no folder or its place a folder's; a folder is left as it is where something has its path, and made with
      its parents elsewhere; a file is put over what is there. A failing entry changes nothing. */
  lemma PlaceExactly(fs: Fs, dst: Path, e: Entry) returns (i: nat)
    ensures ThereUpTo(fs, CleanFrom(dst, Split(e.name)), i)
    ensures var t, r := CleanFrom(dst, Split(e.name)), Place(fs, dst, e);
            (r.Failed? ==> r.fs == fs) &&
            if Refused(e.name) then r.Failed?
            else if e.isDir then
              if t == [] || t in fs then r == Ok(fs)
              else if i > 0 && fs[t[..i]].FsFile? then r.Failed?
              else r.Ok? && AddsFolders(fs, t, i, r.fs)
            else if t == [] || !Folder(fs, t[..|t| - 1]) || Folder(fs, t) then r.Failed?
            else r.Ok? && PutsFile(fs, t, e.data, r.fs)
  {
    RefusedExactly(e.name);
    i := LastThere(fs, CleanFrom(dst, Split(e.name)));
    MakeDirsExactly(fs, CleanFrom(dst, Split(e.name)), i);
  }

  /** The extraction stops at the first entry that fails, with the disk as the entries before it left it. */
  lemma {:induction false} StopsAtFirst(fs: Fs, dst: Path, tar: seq<Entry>) returns (k: nat)
    requires Unpack(fs, dst, tar).Failed?
    ensures k < |tar| && Unpack(fs, dst, tar[..k]) == Ok(Unpack(fs, dst, tar).fs)
    ensures Place(Unpack(fs, dst, tar).fs, dst, tar[k]).Failed?
    decreases |tar|
  {
    k := 0;
    var r := Place(fs, dst, tar[0]);
    if r.Ok? {
      var j := StopsAtFirst(r.fs, dst, tar[1..]);
      k := j + 1;
      assert tar[..k][1..] == tar[1..][..j];
    } else {
      FailingPlaceChangesNothing(fs, dst, tar[0]);
    }
  }

  lemma {:induction false} MakeDirsFailsWhole(fs: Fs, p: Path)
    ensures MakeDirs(fs, p).Failed? ==> MakeDirs(fs, p).fs == fs
    decreases |p|
  {
    if p != [] && p !in fs {
      MakeDirsFailsWhole(fs, p[..|p| - 1]);
    }
  }

  lemma FailingPlaceChangesNothing(fs: Fs, dst: Path, e: Entry)
    ensures Place(fs, dst, e).Failed? ==> Place(fs, dst, e).fs == fs
  {
    MakeDirsFailsWhole(fs, CleanFrom(dst, Split(e.name)));
  }
}
