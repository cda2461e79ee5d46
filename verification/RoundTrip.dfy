/** Extracting the archive of a folder: when it succeeds and what it leaves on the disk. */
module RoundTrip {
  import opened Paths
  import opened Archive

  /* ---- Entry names are paths relative to the archived folder ---- */

  // The walk's path and the relative prefix of the folder whose listing is visited.
  ghost predicate InStep(path: string, parent: string, prefix: string) {
    if prefix == "" then path == parent + "/"
    else CleanFolder(path) && path + "/" == parent + "/" + prefix
  }

  lemma JoinBelow(path: string, parent: string, prefix: string, name: string)
    requires CleanFolder(parent) && InStep(path, parent, prefix) && Ordinary(name)
    ensures Join(path, name) == parent + "/" + (prefix + name)
  {
    if prefix == "" {
      JoinClean(parent, name);
      assert prefix + name == name;
    } else {
      JoinClean(path, name);
      assert path + "/" + name == parent + "/" + prefix + name;
      assert parent + "/" + prefix + name == parent + "/" + (prefix + name);
    }
  }

  lemma TrimBelow(parent: string, rel: string)
    ensures TrimPrefix(parent + "/" + rel, parent + "/") == rel
    ensures parent + "/" + rel + "/" == parent + "/" + (rel + "/")
  {
    assert (parent + "/" + rel)[|parent + "/"|..] == rel;
  }

  lemma StepDown(path: string, parent: string, prefix: string, name: string)
    requires CleanFolder(parent) && InStep(path, parent, prefix) && Ordinary(name)
    ensures Join(path, name) == parent + "/" + (prefix + name)
    ensures TrimPrefix(Join(path, name), parent + "/") == prefix + name
    ensures InStep(Join(path, name), parent, prefix + name + "/")
  {
    JoinBelow(path, parent, prefix, name);
    TrimBelow(parent, prefix + name);
    JoinAppends(path, name);
  }

  /** With a clean folder path every entry is named by its path below that folder. */
  lemma {:induction false} WalkGivesRelativeNames(path: string, l: Listing, parent: string, prefix: string)
    requires CleanFolder(parent) && WellNamed(l) && InStep(path, parent, prefix)
    ensures WalkListing(path, l, parent) == Tar(prefix, l)
    decreases l
  {
    match l
    case End =>
    case Item(name, node, rest) =>
      StepDown(path, parent, prefix, name);
      WalkGivesRelativeNames(path, rest, parent, prefix);
      if node.Dir? {
        WalkGivesRelativeNames(Join(path, name), node.entries, parent, prefix + name + "/");
      }
  }

  // The text in front of an entry's name for a cleaned relative folder.
  function InFront(q: Path): string { if q == [] then "" else Glue(q) + "/" }

  ghost predicate InStepCleaned(path: string, prefix: string) {
    !IsAbs(path) && Reduced(RelativeSegments(path)) && prefix == InFront(RelativeSegments(path))
  }

  lemma StepDownCleaned(path: string, prefix: string, parent: string, name: string)
    requires Unclean(parent) && InStepCleaned(path, prefix) && Ordinary(name)
    ensures TrimPrefix(Join(path, name), parent + "/") == prefix + name
    ensures InStepCleaned(Join(path, name), prefix + name + "/")
  {
    var q := RelativeSegments(path);
    var p := q + [name];
    JoinAppends(path, name);
    if q == [] {
      assert p == [name];
    } else {
      GlueSnoc(q, name);
    }
    assert Reduced(p);
    ReducedText(p);
    NoUncleanInFront(parent, p);
  }

  // Below an unclean relative folder every entry is named by its whole cleaned path.
  lemma {:induction false} WalkCleans(path: string, l: Listing, parent: string, prefix: string)
    requires Unclean(parent) && WellNamed(l) && InStepCleaned(path, prefix)
    ensures WalkListing(path, l, parent) == Tar(prefix, l)
    decreases l
  {
    match l
    case End =>
    case Item(name, node, rest) =>
      StepDownCleaned(path, prefix, parent, name);
      WalkCleans(path, rest, parent, prefix);
      if node.Dir? {
        WalkCleans(Join(path, name), node.entries, parent, prefix + name + "/");
      }
  }

  lemma UncleanIsInStep(parent: string, child: string)
    requires Unclean(parent) && (child == "" || Ordinary(child))
    ensures var q := RelativeSegments(parent);
            InStepCleaned(parent + "/" + child, InFront(if child == "" then q else q + [child]))
  {
    var q := RelativeSegments(parent);
    SplitHasNoSlash(parent);
    RelativeIsReduced([], Split(parent));
    SplitAtSlash(parent, child);
    SplitNoSlash(child);
    RelativeConcat([], Split(parent), [child]);
    assert (parent + "/" + child)[0] == parent[0];
    var p := if child == "" then q else q + [child];
    assert CleanRelative(q, [child]) == p;
    assert Reduced(p);
  }

  lemma CompressedUnclean(parent: string, l: Listing)
    requires Unclean(parent) && WellNamed(l)
    ensures Compressed(parent, "", Dir(l)) == Tar(InFront(RelativeSegments(parent)), l)
  {
    UncleanIsInStep(parent, "");
    assert parent + "/" + "" == parent + "/";
    WalkCleans(parent + "/", l, parent, InFront(RelativeSegments(parent)));
  }

  lemma CompressedFolder(parent: string, l: Listing)
    requires Tidy(parent) && WellNamed(l)
    ensures Compressed(parent, "", Dir(l)) == Tar("", l)
  {
    assert parent + "/" + "" == parent + "/";
    if CleanFolder(parent) {
      WalkGivesRelativeNames(parent + "/", l, parent, "");
    } else {
      CompressedUnclean(parent, l);
    }
  }

  // The CLI names the child folder: its archive is that of a listing with this one item.
  lemma CompressedChild(parent: string, child: string, node: Node)
    requires Tidy(parent) && Ordinary(child) && WellNamed(Item(child, node, End))
    ensures Compressed(parent, child, node) == Tar("", Item(child, node, End))
  {
    TrimBelow(parent, child);
    assert "" + child == child;
    if node.Dir? {
      if CleanFolder(parent) {
        JoinClean(parent, child);
        StepDown(parent + "/", parent, "", child);
        WalkGivesRelativeNames(parent + "/" + child, node.entries, parent, child + "/");
      } else {
        UncleanIsInStep(parent, child);
        assert [] + [child] == [child];
        WalkCleans(parent + "/" + child, node.entries, parent, child + "/");
      }
    }
  }

  /* ---- Which archives carry only valid names ---- */

  ghost predicate ValidNames(tar: seq<Entry>) {
    forall i :: 0 <= i < |tar| ==> ValidRelPath(tar[i].name)
  }

  ghost predicate GoodPrefix(prefix: string) {
    prefix != "" ==>
      ValidRelPath(prefix) && prefix[|prefix| - 1] == '/'
  }

  lemma ConcatContains(a: string, b: string, sub: string)
    requires Contains(a, sub)
    ensures Contains(a + b, sub)
  {
    var i :| OccursAt(a, sub, i);
    assert (a + b)[i..i + |sub|] == a[i..i + |sub|];
    assert OccursAt(a + b, sub, i);
  }

  lemma BackslashIn(s: string)
    ensures Contains(s, "\\") <==> '\\' in s
  {
    if Contains(s, "\\") {
      var i :| OccursAt(s, "\\", i);
      assert s[i..i + 1][0] == s[i];
    }
    if '\\' in s {
      var i :| 0 <= i < |s| && s[i] == '\\';
      assert OccursAt(s, "\\", i);
    }
  }

  // Where "../" occurs there is a slash right behind two dots.
  lemma DotDotAt(s: string, i: int)
    ensures OccursAt(s, "../", i) <==> 0 <= i <= |s| - 3 && s[i] == '.' && s[i + 1] == '.' && s[i + 2] == '/'
  {
  }

  lemma NoDotDotInName(prefix: string, name: string)
    requires GoodPrefix(prefix) && Ordinary(name)
    ensures !Contains(prefix + name, "../")
  {
    var s := prefix + name;
    forall i
      ensures !OccursAt(s, "../", i)
    {
      DotDotAt(s, i);
      DotDotAt(prefix, i);
      assert !OccursAt(prefix, "../", i);
      assert |prefix| <= i + 2 < |s| ==> s[i + 2] in name;
    }
  }

  lemma NameIsValid(prefix: string, name: string)
    requires GoodPrefix(prefix) && Ordinary(name)
    ensures ValidRelPath(prefix + name) <==> '\\' !in name
  {
    NoDotDotInName(prefix, name);
    BackslashIn(prefix + name);
    BackslashIn(prefix);
    assert prefix != "" ==> ("/" <= prefix <==> prefix[0] == '/');
    assert (prefix + name)[0] == if prefix != "" then prefix[0] else name[0];
  }

  lemma FolderPrefix(prefix: string, name: string)
    requires GoodPrefix(prefix) && Ordinary(name) && '\\' !in name
    ensures GoodPrefix(prefix + name + "/") <==> !EndsWith(name, "..")
  {
    NoDotDotInName(prefix, name);
    NameIsValid(prefix, name);
    var s, t := prefix + name, prefix + name + "/";
    BackslashIn(s);
    BackslashIn(t);
    assert t[..|s|] == s;
    if EndsWith(name, "..") {
      var tail := name[|name| - 2..];
      assert tail[0] == '.' && tail[1] == '.';
      assert t[|t| - 3] == tail[0] && t[|t| - 2] == tail[1] && t[|t| - 1] == '/';
      DotDotAt(t, |t| - 3);
      assert OccursAt(t, "../", |t| - 3);
    } else {
      assert |name| >= 2 ==> name[|name| - 2..] == [name[|name| - 2], name[|name| - 1]];
      forall i
        ensures !OccursAt(t, "../", i)
      {
        DotDotAt(t, i);
        DotDotAt(s, i);
        assert !OccursAt(s, "../", i);
      }
    }
  }

  lemma {:induction false} BadPrefixShows(prefix: string, l: Listing)
    requires l.Item? && Contains(prefix, "../")
    ensures !ValidNames(Tar(prefix, l))
  {
    ConcatContains(prefix, l.name, "../");
    assert Tar(prefix, l)[0] == Header(prefix + l.name, l.node);
  }

  lemma ValidConcat(a: seq<Entry>, b: seq<Entry>)
    ensures ValidNames(a + b) <==> ValidNames(a) && ValidNames(b)
  {
    if ValidNames(a + b) {
      assert forall i :: 0 <= i < |a| ==> a[i] == (a + b)[i];
      assert forall i :: 0 <= i < |b| ==> b[i] == (a + b)[|a| + i];
    }
  }

  /** Every entry name passes the check of the reader exactly when the listing is archivable. */
  lemma {:induction false} ValidExactly(prefix: string, l: Listing)
    requires WellNamed(l) && GoodPrefix(prefix)
    ensures ValidNames(Tar(prefix, l)) <==> Archivable(l)
    decreases l
  {
    match l
    case End =>
    case Item(name, node, rest) =>
      var own := [Header(prefix + name, node)];
      var below := if node.Dir? then Tar(prefix + name + "/", node.entries) else [];
      ValidConcat(own + below, Tar(prefix, rest));
      ValidConcat(own, below);
      NameIsValid(prefix, name);
      assert ValidNames(own) <==> '\\' !in name by {
        assert own[0].name == prefix + name;
      }
      ValidExactly(prefix, rest);
      if node.Dir? && '\\' !in name {
        FolderExactly(prefix, name, node.entries);
        if !EndsWith(name, "..") {
          ValidExactly(prefix + name + "/", node.entries);
        }
      }
  }

  lemma FolderExactly(prefix: string, name: string, es: Listing)
    requires GoodPrefix(prefix) && Ordinary(name) && '\\' !in name
    ensures !EndsWith(name, "..") ==> GoodPrefix(prefix + name + "/")
    ensures EndsWith(name, "..") && es.Item? ==> !ValidNames(Tar(prefix + name + "/", es))
  {
    FolderPrefix(prefix, name);
    var t := prefix + name + "/";
    if EndsWith(name, "..") && es.Item? {
      NameIsValid(prefix, name);
      BackslashIn(prefix + name);
      BackslashIn(t);
      assert t[0] == (prefix + name)[0];
      BadPrefixShows(t, es);
    }
  }

  /* ---- Extraction ---- */

  lemma {:induction false} UnpackConcat(fs: Fs, dst: Path, a: seq<Entry>, b: seq<Entry>)
    ensures Unpack(fs, dst, a + b) ==
            match Unpack(fs, dst, a)
            case Failed(f) => Failed(f)
            case Ok(f) => Unpack(f, dst, b)
    decreases |a|
  {
    if a == [] {
      assert a + b == b;
    } else {
      assert (a + b)[1..] == a[1..] + b;
      var u := Place(fs, dst, a[0]);
      if u.Ok? {
        UnpackConcat(u.fs, dst, a[1..], b);
      }
    }
  }

  /** One invalid name stops the extraction. */
  lemma {:induction false} UnpackNeedsValidNames(fs: Fs, dst: Path, tar: seq<Entry>)
    ensures Unpack(fs, dst, tar).Ok? ==> ValidNames(tar)
    decreases |tar|
  {
    if tar != [] {
      var u := Place(fs, dst, tar[0]);
      if u.Ok? {
        UnpackNeedsValidNames(u.fs, dst, tar[1..]);
        assert forall i :: 0 < i < |tar| ==> tar[i] == tar[1..][i - 1];
      }
    }
  }

  // The disk after the entries of a listing at base were laid over it one by one.
  function Laid(fs: Fs, base: Path, l: Listing): Fs
    decreases l
  {
    match l
    case End => fs
    case Item(name, File(data), rest) =>
      var p := base + [name];
      Laid(fs[p := FsFile(Overlay(Old(fs, p), data))], base, rest)
    case Item(name, Dir(es), rest) =>
      var p := base + [name];
      Laid(Laid(fs[p := FsDir], p, es), base, rest)
  }

  // On that way no file meets a folder of its path, and no folder a file.
  ghost predicate Fits(fs: Fs, base: Path, l: Listing)
    decreases l
  {
    match l
    case End => true
    case Item(name, File(data), rest) =>
      var p := base + [name];
      (p in fs ==> fs[p].FsFile?) && Fits(fs[p := FsFile(Overlay(Old(fs, p), data))], base, rest)
    case Item(name, Dir(es), rest) =>
      var p := base + [name];
      (p in fs ==> fs[p].FsDir?) && Fits(fs[p := FsDir], p, es) && Fits(Laid(fs[p := FsDir], p, es), base, rest)
  }

  // The folder below which prefix names paths.
  ghost predicate Below(dst: Path, base: Path, prefix: string) {
    forall name :: Ordinary(name) ==> CleanFrom(dst, Split(prefix + name)) == base + [name]
  }

  lemma {:induction false} CleanConcat(done: Path, a: Path, b: Path)
    ensures CleanFrom(done, a + b) == CleanFrom(CleanFrom(done, a), b)
    decreases |a|
  {
    if a == [] {
      assert a + b == b;
    } else {
      assert (a + b)[1..] == a[1..] + b;
      if a[0] == "" || a[0] == "." {
        CleanConcat(done, a[1..], b);
      } else if a[0] == ".." {
        CleanConcat(if done == [] then [] else done[..|done| - 1], a[1..], b);
      } else {
        CleanConcat(done + [a[0]], a[1..], b);
      }
    }
  }

  lemma BelowRoot(dst: Path)
    ensures Below(dst, dst, "")
  {
    forall name | Ordinary(name)
      ensures CleanFrom(dst, Split("" + name)) == dst + [name]
    {
      assert "" + name == name;
      SplitNoSlash(name);
      CleanOrdinary(dst, [name]);
    }
  }

  lemma BelowFolder(dst: Path, base: Path, prefix: string, folder: string)
    requires Below(dst, base, prefix) && Ordinary(folder)
    ensures Below(dst, base + [folder], prefix + folder + "/")
  {
    forall name | Ordinary(name)
      ensures CleanFrom(dst, Split(prefix + folder + "/" + name)) == base + [folder] + [name]
    {
      SplitAtSlash(prefix + folder, name);
      CleanConcat(dst, Split(prefix + folder), Split(name));
      SplitNoSlash(name);
      CleanOrdinary(base + [folder], [name]);
    }
  }

  lemma PlaceOne(fs: Fs, dst: Path, base: Path, prefix: string, name: string, node: Node)
    requires Below(dst, base, prefix) && Ordinary(name) && ValidRelPath(prefix + name) && IsDir(fs, base)
    requires base + [name] in fs ==> fs[base + [name]].FsDir? == node.Dir?
    ensures Place(fs, dst, Header(prefix + name, node)) ==
            Ok(fs[base + [name] := if node.Dir? then FsDir
                                   else FsFile(Overlay(Old(fs, base + [name]), node.data))])
  {
    var p := base + [name];
    assert p[..|p| - 1] == base;
    assert CleanFrom(dst, Split(prefix + name)) == p;
    if node.Dir? {
      if p in fs {
        assert fs[p := FsDir] == fs;
      } else {
        assert MakeDirs(fs, base) == Ok(fs);
      }
    }
  }

  lemma {:induction false} LaidKeepsFolders(fs: Fs, base: Path, l: Listing, p: Path)
    requires Fits(fs, base, l) && IsDir(fs, p)
    ensures IsDir(Laid(fs, base, l), p)
    decreases l
  {
    match l
    case End =>
    case Item(name, File(data), rest) =>
      LaidKeepsFolders(fs[base + [name] := FsFile(Overlay(Old(fs, base + [name]), data))], base, rest, p);
    case Item(name, Dir(es), rest) =>
      var q := base + [name];
      LaidKeepsFolders(fs[q := FsDir], q, es, p);
      LaidKeepsFolders(Laid(fs[q := FsDir], q, es), base, rest, p);
  }

  /** The reader follows the writer's pre-order: each folder is there before its content. */
  lemma {:induction false} UnpackLays(fs: Fs, dst: Path, base: Path, prefix: string, l: Listing)
    requires WellNamed(l) && Below(dst, base, prefix) && IsDir(fs, base)
    requires ValidNames(Tar(prefix, l)) && Fits(fs, base, l)
    ensures Unpack(fs, dst, Tar(prefix, l)) == Ok(Laid(fs, base, l))
    decreases l
  {
    match l
    case End =>
    case Item(name, node, rest) =>
      var p := base + [name];
      var own := Header(prefix + name, node);
      var below := if node.Dir? then Tar(prefix + name + "/", node.entries) else [];
      ValidConcat([own] + below, Tar(prefix, rest));
      ValidConcat([own], below);
      assert [own][0] == own;
      PlaceOne(fs, dst, base, prefix, name, node);
      var fs1 := Place(fs, dst, own).fs;
      UnpackConcat(fs, dst, [own] + below, Tar(prefix, rest));
      UnpackConcat(fs, dst, [own], below);
      assert Unpack(fs, dst, [own]) == Ok(fs1);
      var fs2 := fs1;
      if node.Dir? {
        BelowFolder(dst, base, prefix, name);
        UnpackLays(fs1, dst, p, prefix + name + "/", node.entries);
        fs2 := Laid(fs1, p, node.entries);
        LaidKeepsFolders(fs1, p, node.entries, base);
      }
      UnpackLays(fs2, dst, base, prefix, rest);
  }

  /* ---- The disk after extraction, path by path ---- */

  lemma {:induction false} FilesAreBelow(base: Path, l: Listing, p: Path)
    requires p in Files(base, l)
    ensures |p| > |base| && p[..|base|] == base && HasName(l, p[|base|])
    decreases l
  {
    match l
    case End =>
    case Item(name, File(data), rest) =>
      if p != base + [name] {
        FilesAreBelow(base, rest, p);
      }
    case Item(name, Dir(es), rest) =>
      if p in Files(base, rest) {
        FilesAreBelow(base, rest, p);
      } else if p != base + [name] {
        FilesAreBelow(base + [name], es, p);
        assert p[..|base|] == p[..|base| + 1][..|base|];
        assert p[|base|] == p[..|base| + 1][|base|];
      }
  }

  // Two items of one folder never share a path.
  lemma ItemsApart(base: Path, name: string, node: Node, rest: Listing)
    requires !HasName(rest, name)
    ensures base + [name] !in Files(base, rest)
    ensures node.Dir? ==> base + [name] !in Files(base + [name], node.entries)
    ensures node.Dir? ==> Files(base + [name], node.entries).Keys !! Files(base, rest).Keys
  {
    if base + [name] in Files(base, rest) {
      FilesAreBelow(base, rest, base + [name]);
    }
    if node.Dir? {
      var es := node.entries;
      if base + [name] in Files(base + [name], es) {
        FilesAreBelow(base + [name], es, base + [name]);
      }
      forall p | p in Files(base + [name], es)
        ensures p !in Files(base, rest)
      {
        FilesAreBelow(base + [name], es, p);
        assert p[|base|] == p[..|base| + 1][|base|];
        if p in Files(base, rest) {
          FilesAreBelow(base, rest, p);
        }
      }
    }
  }

  lemma MergeTwice(fs: Fs, a: Fs, b: Fs)
    requires a.Keys !! b.Keys
    ensures Merge(Merge(fs, a), b) == Merge(fs, a + b)
  {
  }

  lemma MergeOne(fs: Fs, p: Path, node: FsNode)
    ensures Merge(fs, map[p := node]) ==
            fs[p := if node.FsDir? then FsDir else FsFile(Overlay(Old(fs, p), node.content))]
  {
  }

  /** Laying a listing over a disk of the same kinds merges its files path by path. */
  lemma {:induction false} LaidIsMerge(fs: Fs, base: Path, l: Listing)
    requires WellNamed(l) && SameKinds(fs, Files(base, l))
    ensures Fits(fs, base, l)
    ensures Laid(fs, base, l) == Merge(fs, Files(base, l))
    decreases l
  {
    match l
    case End =>
      assert Merge(fs, map[]) == fs;
    case Item(name, File(data), rest) =>
      var p := base + [name];
      var own: Fs := map[p := FsFile(data)];
      assert p in own + Files(base, rest);
      ItemsApart(base, name, l.node, rest);
      MergeOne(fs, p, FsFile(data));
      LaidIsMerge(Merge(fs, own), base, rest);
      MergeTwice(fs, own, Files(base, rest));
    case Item(name, Dir(es), rest) =>
      FolderIsMerge(fs, base, l, name, es, rest);
      var own: Fs := map[base + [name] := FsDir] + Files(base + [name], es);
      LaidIsMerge(Merge(fs, own), base, rest);
      MergeTwice(fs, own, Files(base, rest));
  }

  lemma {:induction false} FolderIsMerge(fs: Fs, base: Path, l: Listing, name: string, es: Listing, rest: Listing)
    requires l == Item(name, Dir(es), rest)
    requires WellNamed(l) && SameKinds(fs, Files(base, l))
    ensures var p := base + [name];
            var own: Fs := map[p := FsDir] + Files(p, es);
            own.Keys !! Files(base, rest).Keys &&
            (p in fs ==> fs[p].FsDir?) &&
            Fits(fs[p := FsDir], p, es) &&
            Laid(fs[p := FsDir], p, es) == Merge(fs, own) &&
            SameKinds(Merge(fs, own), Files(base, rest))
    decreases l, 0
  {
    var p := base + [name];
    var dir: Fs := map[p := FsDir];
    var own := dir + Files(p, es);
    ItemsApart(base, name, l.node, rest);
    assert Files(base, l) == own + Files(base, rest);
    assert p in Files(base, l);
    MergeOne(fs, p, FsDir);
    forall q | q in fs[p := FsDir] && q in Files(p, es)
      ensures fs[p := FsDir][q].FsDir? == Files(p, es)[q].FsDir?
    {
      assert q in Files(base, l) && Files(base, l)[q] == Files(p, es)[q];
    }
    LaidIsMerge(Merge(fs, dir), p, es);
    MergeTwice(fs, dir, Files(p, es));
  }

  /* ---- Main results ---- */

  /** Into a folder of the same kinds: success exactly for archivable listings, and then every listed
      path holds its content laid over what was there. */
  lemma Extraction(fs: Fs, dst: Path, l: Listing)
    requires WellNamed(l) && IsDir(fs, dst) && SameKinds(fs, Files(dst, l))
    ensures Archivable(l) ==> Unpack(fs, dst, Tar("", l)) == Ok(Merge(fs, Files(dst, l)))
    ensures !Archivable(l) ==> Unpack(fs, dst, Tar("", l)).Failed?
  {
    ValidExactly("", l);
    UnpackNeedsValidNames(fs, dst, Tar("", l));
    if Archivable(l) {
      BelowRoot(dst);
      LaidIsMerge(fs, dst, l);
      UnpackLays(fs, dst, dst, "", l);
    }
  }

  /** The first item is enough to make a missing destination, if it is a folder. */
  lemma MissingDestination(fs: Fs, dst: Path, l: Listing)
    requires WellNamed(l) && l.Item? && '\\' !in l.name
    requires dst != [] && dst !in fs && dst + [l.name] !in fs && MakeDirs(fs, dst).Ok?
    ensures l.node.Dir? ==> Unpack(fs, dst, Tar("", l)) == Unpack(MakeDirs(fs, dst).fs, dst, Tar("", l))
    ensures l.node.File? ==> Unpack(fs, dst, Tar("", l)) == Failed(fs)
  {
    var p := dst + [l.name];
    var e := Header("" + l.name, l.node);
    assert Tar("", l)[0] == e;
    NameIsValid("", l.name);
    BelowRoot(dst);
    assert CleanFrom(dst, Split("" + l.name)) == p;
    assert p[..|p| - 1] == dst;
    if l.node.Dir? {
      var made := MakeDirs(fs, dst).fs;
      MadeFolder(fs, dst, p);
      assert Place(fs, dst, e) == Ok(made[p := FsDir]);
      assert MakeDirs(made, dst) == Ok(made);
      assert Place(made, dst, e) == Ok(made[p := FsDir]);
    }
  }

  lemma {:induction false} MadeFolder(fs: Fs, dst: Path, p: Path)
    requires MakeDirs(fs, dst).Ok? && |p| > |dst|
    ensures IsDir(MakeDirs(fs, dst).fs, dst)
    ensures p in MakeDirs(fs, dst).fs <==> p in fs
    decreases |dst|
  {
    if dst != [] && dst !in fs {
      MadeFolder(fs, dst[..|dst| - 1], p);
    }
  }

  /** A folder path that filepath.Clean would change turns every name into an absolute one. */
  lemma UncleanFolderFails(parent: string, l: Listing, fs: Fs, dst: Path)
    requires IsAbs(parent) && !CleanFolder(parent)
    requires WellNamed(l) && l.Item?
    ensures Unpack(fs, dst, Compressed(parent, "", Dir(l))) == Failed(fs)
  {
    var root := parent + "/" + "";
    var file := Join(root, l.name);
    JoinAppends(root, l.name);
    SegmentsOrdinary(file);
    if parent + "/" <= file {
      CleanPathHasCleanPrefix(parent, Segments(file));
    }
    var tar := Compressed(parent, "", Dir(l));
    assert TrimPrefix(root, parent + "/") == "";
    assert tar == WalkListing(root, l, parent);
    assert tar[0] == Header(file, l.node);
    assert "/" <= file;
  }

  lemma MergeApart(fs: Fs, files: Fs)
    requires fs.Keys !! files.Keys
    ensures Merge(fs, files) == fs + files && SameKinds(fs, files)
  {
  }

  lemma FirstEntry(path: string, l: Listing, parent: string)
    requires l.Item? && TrimPrefix(Join(path, l.name), parent + "/") != ""
    ensures WalkListing(path, l, parent) != []
    ensures WalkListing(path, l, parent)[0] == Header(TrimPrefix(Join(path, l.name), parent + "/"), l.node)
  {
    var own := Header(TrimPrefix(Join(path, l.name), parent + "/"), l.node);
    assert WalkNode(Join(path, l.name), l.node, parent)[0] == own;
    assert WalkListing(path, l, parent) ==
           WalkNode(Join(path, l.name), l.node, parent) + WalkListing(path, l.rest, parent);
  }

  // Below a folder given by an unclean path, the child itself is named well and its content is not.
  lemma UncleanChildFails(parent: string, child: string, es: Listing, fs: Fs, dst: Path)
    requires IsAbs(parent) && !CleanFolder(parent) && Ordinary(child)
    requires WellNamed(es) && es.Item?
    ensures Unpack(fs, dst, Compressed(parent, child, Dir(es))).Failed?
  {
    var path := parent + "/" + child;
    var file := Join(path, es.name);
    assert path[0] == parent[0] == '/';
    AbsoluteJoin(path, es.name);
    SegmentsOrdinary(file);
    if parent + "/" <= file {
      CleanPathHasCleanPrefix(parent, Segments(file));
    }
    TrimBelow(parent, child);
    var tar := Compressed(parent, child, Dir(es));
    assert TrimPrefix(file, parent + "/") == file != "";
    FirstEntry(path, es, parent);
    assert tar == [Header(child, Dir(es))] + WalkListing(path, es, parent);
    assert tar[1] == Header(file, es.node) && "/" <= file;
    UnpackNeedsValidNames(fs, dst, tar);
  }

  lemma BareChild(parent: string, child: string, node: Node)
    requires Ordinary(child) && (node.Dir? ==> node.entries.End?)
    ensures Compressed(parent, child, node) == Tar("", Item(child, node, End))
  {
    TrimBelow(parent, child);
    assert "" + child == child;
  }

  // The child is a file or an empty folder.
  predicate Bare(node: Node) { node.File? || node.entries.End? }

  // One child of a folder given as the CLI gives it, by an absolute path or a clean one. It comes back exactly
  // if its names can be archived, and the path is clean or the child has no content to be named.
  lemma JoinedChildRoundTrip(parent: string, child: string, node: Node, fs: Fs, dst: Path)
    requires IsAbs(parent) || Tidy(parent) || Bare(node)
    requires WellNamed(Item(child, node, End)) && IsDir(fs, dst)
    requires fs.Keys !! Files(dst, Item(child, node, End)).Keys
    ensures Unpack(fs, dst, Compressed(parent, child, node)) == Ok(fs + Files(dst, Item(child, node, End)))
            <==> Archivable(Item(child, node, End)) && (Tidy(parent) || Bare(node))
  {
    var item := Item(child, node, End);
    if Tidy(parent) || Bare(node) {
      if Tidy(parent) {
        CompressedChild(parent, child, node);
      } else {
        BareChild(parent, child, node);
      }
      MergeApart(fs, Files(dst, item));
      Extraction(fs, dst, item);
    } else {
      UncleanChildFails(parent, child, node.entries, fs, dst);
    }
  }

  /** Over an existing tree the archive's content arrives exactly when no file there is longer. */
  lemma OverwriteExactly(fs: Fs, dst: Path, l: Listing)
    requires WellNamed(l) && Archivable(l) && IsDir(fs, dst) && SameKinds(fs, Files(dst, l))
    ensures Unpack(fs, dst, Tar("", l)) == Ok(fs + Files(dst, l))
            <==> NothingLonger(fs, Files(dst, l))
  {
    Extraction(fs, dst, l);
    MergeIsUnion(fs, Files(dst, l));
  }

  ghost predicate NothingLonger(fs: Fs, files: Fs) {
    forall p :: p in files && files[p].FsFile? ==> |Old(fs, p)| <= |files[p].content|
  }

  lemma MergeIsUnion(fs: Fs, files: Fs)
    ensures Merge(fs, files) == fs + files <==> NothingLonger(fs, files)
  {
  }
}
