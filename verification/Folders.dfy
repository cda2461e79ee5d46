/** Archives of a folder given by any path. Those given by a relative path that filepath.Clean would change
    carry the cleaned path in their names, so that extraction, where it succeeds, puts everything too deep. */
module Folders {
  import opened Paths
  import opened Archive
  import opened RoundTrip
  import opened Confinement

  /* ---- Where the entries end up ---- */

  lemma {:induction false} MakeDirsMakes(fs: Fs, p: Path)
    ensures MakeDirs(fs, p).Ok? ==> IsDir(MakeDirs(fs, p).fs, p)
    ensures fs.Keys <= MakeDirs(fs, p).fs.Keys
    ensures forall k :: k in MakeDirs(fs, p).fs && k !in fs ==> k <= p
    decreases |p|
  {
    if p != [] && p !in fs {
      MakeDirsMakes(fs, p[..|p| - 1]);
    }
  }

  lemma {:induction false} UnpackMakesAll(fs: Fs, dst: Path, tar: seq<Entry>, e: Entry)
    requires Unpack(fs, dst, tar).Ok? && e in tar
    ensures Exists(Unpack(fs, dst, tar).fs, CleanFrom(dst, Split(e.name)))
    decreases |tar|
  {
    var g := Place(fs, dst, tar[0]).fs;
    if e == tar[0] {
      MakeDirsMakes(fs, CleanFrom(dst, Split(e.name)));
      UnpackKeepsKeys(g, dst, tar[1..]);
    } else {
      UnpackMakesAll(g, dst, tar[1..], e);
    }
  }

  lemma {:induction false} UnpackKeepsKeys(fs: Fs, dst: Path, tar: seq<Entry>)
    ensures fs.Keys <= Unpack(fs, dst, tar).fs.Keys
    decreases |tar|
  {
    if tar != [] {
      MakeDirsMakes(fs, CleanFrom(dst, Split(tar[0].name)));
      if Place(fs, dst, tar[0]).Ok? {
        UnpackKeepsKeys(Place(fs, dst, tar[0]).fs, dst, tar[1..]);
      }
    }
  }

  ghost predicate AllBelow(dst: Path, base: Path, tar: seq<Entry>) {
    forall e :: e in tar ==> base <= CleanFrom(dst, Split(e.name))
  }

  lemma {:induction false} TarStaysBelow(dst: Path, base: Path, prefix: string, l: Listing)
    requires WellNamed(l) && Below(dst, base, prefix)
    ensures AllBelow(dst, base, Tar(prefix, l))
    decreases l
  {
    match l
    case End =>
    case Item(name, node, rest) =>
      TarStaysBelow(dst, base, prefix, rest);
      if node.Dir? {
        BelowFolder(dst, base, prefix, name);
        TarStaysBelow(dst, base + [name], prefix + name + "/", node.entries);
      }
  }

  // What an extraction makes lies above or below the folder that all its entries lead into.
  lemma {:induction false} UnpackMakesAround(fs: Fs, dst: Path, tar: seq<Entry>, base: Path, p: Path)
    requires AllBelow(dst, base, tar) && p in Unpack(fs, dst, tar).fs && p !in fs
    ensures p <= base || base <= p
    decreases |tar|
  {
    var target := CleanFrom(dst, Split(tar[0].name));
    MakeDirsMakes(fs, target);
    var u := Place(fs, dst, tar[0]);
    if p in u.fs {
      assert tar[0] in tar && p <= target;
    } else {
      UnpackMakesAround(u.fs, dst, tar[1..], base, p);
    }
  }

  /* ---- How deep a listing goes ---- */

  function Height(l: Listing): nat
    decreases l
  {
    match l
    case End => 0
    case Item(_, node, rest) =>
      var h := if node.Dir? then 1 + Height(node.entries) else 1;
      if h >= Height(rest) then h else Height(rest)
  }

  lemma {:induction false} NothingDeeper(base: Path, l: Listing, p: Path)
    requires p in Files(base, l)
    ensures |p| <= |base| + Height(l)
    decreases l
  {
    match l
    case End =>
    case Item(name, File(data), rest) =>
      if p != base + [name] {
        NothingDeeper(base, rest, p);
      }
    case Item(name, Dir(es), rest) =>
      if p in Files(base, rest) {
        NothingDeeper(base, rest, p);
      } else if p != base + [name] {
        NothingDeeper(base + [name], es, p);
      }
  }

  // Some entry leads as deep as the listing goes.
  lemma {:induction false} DeepestEntry(dst: Path, base: Path, prefix: string, l: Listing) returns (e: Entry)
    requires WellNamed(l) && l.Item? && Below(dst, base, prefix)
    ensures e in Tar(prefix, l) && |CleanFrom(dst, Split(e.name))| == |base| + Height(l)
    decreases l
  {
    var h := if l.node.Dir? then 1 + Height(l.node.entries) else 1;
    if h < Height(l.rest) {
      e := DeepestEntry(dst, base, prefix, l.rest);
    } else if h > 1 {
      BelowFolder(dst, base, prefix, l.name);
      e := DeepestEntry(dst, base + [l.name], prefix + l.name + "/", l.node.entries);
    } else {
      e := Header(prefix + l.name, l.node);
      assert CleanFrom(dst, Split(prefix + l.name)) == base + [l.name];
    }
  }

  /* ---- Result ---- */

  lemma BelowSegments(dst: Path, q: Path)
    requires q != [] && AllOrdinary(q)
    ensures Below(dst, dst + q, Glue(q) + "/")
  {
    forall name | Ordinary(name)
      ensures CleanFrom(dst, Split(Glue(q) + "/" + name)) == dst + q + [name]
    {
      SplitAtSlash(Glue(q), name);
      SplitGlue(q);
      SplitNoSlash(name);
      assert AllOrdinary(q + [name]);
      CleanOrdinary(dst, q + [name]);
      assert dst + (q + [name]) == dst + q + [name];
    }
  }

  // A cleaned path that leads up gives names that the reader refuses.
  lemma UpwardsMakesNothing(fs: Fs, dst: Path, q: Path, l: Listing)
    requires q != [] && q[0] == ".." && l.Item?
    ensures Unpack(fs, dst, Tar(Glue(q) + "/", l)) == Failed(fs)
  {
    var prefix := Glue(q) + "/";
    assert prefix == "../" + (if |q| == 1 then "" else Glue(q[1..]) + "/");
    assert OccursAt(prefix + l.name, "../", 0);
    assert Tar(prefix, l)[0].name == prefix + l.name;
  }

  /** Extracting such an archive never adds the folder's files. */
  lemma MisplacedNeverComesBack(parent: string, l: Listing, fs: Fs, dst: Path, files: Fs)
    requires Unclean(parent) && RelativeSegments(parent) != []
    requires WellNamed(l) && l.Item? && Rooted(fs) && fs.Keys !! files.Keys
    requires dst + [l.name] in files && forall p :: p in files ==> |p| <= |dst| + Height(l)
    ensures Unpack(fs, dst, Compressed(parent, "", Dir(l))) != Ok(fs + files)
  {
    var q := RelativeSegments(parent);
    CompressedUnclean(parent, l);
    SplitHasNoSlash(parent);
    RelativeIsReduced([], Split(parent));
    if q[0] == ".." {
      UpwardsMakesNothing(fs, dst, q, l);
    } else {
      assert AllOrdinary(q);
      TooDeep(fs, fs, dst, q, l, files, dst + [l.name]);
    }
  }

  /** Whether or not it succeeds, its extraction makes only what lies around the whole cleaned path. */
  lemma MisplacedStaysApart(parent: string, l: Listing, fs: Fs, dst: Path, p: Path)
    requires Unclean(parent) && RelativeSegments(parent) != [] && WellNamed(l) && l.Item? && p !in fs
    requires !(p <= dst + RelativeSegments(parent)) && !(dst + RelativeSegments(parent) <= p)
    ensures p !in Unpack(fs, dst, Compressed(parent, "", Dir(l))).fs
  {
    var q := RelativeSegments(parent);
    var tar := Tar(Glue(q) + "/", l);
    CompressedUnclean(parent, l);
    SplitHasNoSlash(parent);
    RelativeIsReduced([], Split(parent));
    if q[0] == ".." {
      UpwardsMakesNothing(fs, dst, q, l);
    } else {
      assert AllOrdinary(q);
      BelowSegments(dst, q);
      TarStaysBelow(dst, dst + q, Glue(q) + "/", l);
      if p in Unpack(fs, dst, tar).fs {
        UnpackMakesAround(fs, dst, tar, dst + q, p);
      }
    }
  }

  lemma FolderIsThere(fs: Fs, dst: Path, q: Path, deep: Path)
    requires Rooted(fs) && deep in fs && q != [] && dst + q <= deep
    ensures dst + [q[0]] in fs
  {
    var top := dst + [q[0]];
    assert (dst + q)[..|top|] == top && deep[..|dst + q|] == dst + q;
    assert top <= deep;
    if top !in fs {
      NothingBelow(fs, top, deep);
    }
  }

  lemma OnlyFolderAround(dst: Path, q: Path, own: Path)
    requires q != [] && |own| > |dst| && dst <= own && (own <= dst + q || dst + q <= own)
    ensures own[|dst|] == q[0]
  {
    assert (dst + q)[|dst|] == q[0];
  }

  // Entries below q, extracted over g, do not make of fs what one of the files, in a folder that was not
  // there, and no deeper ones would.
  lemma TooDeep(fs: Fs, g: Fs, dst: Path, q: Path, l: Listing, files: Fs, own: Path)
    requires q != [] && AllOrdinary(q) && WellNamed(l) && l.Item? && Rooted(fs)
    requires |own| > |dst| && dst <= own && own in files && own !in g && dst + [own[|dst|]] !in fs
    requires forall p :: p in files ==> |p| < |dst| + |q| + Height(l)
    ensures Unpack(g, dst, Tar(Glue(q) + "/", l)) != Ok(fs + files)
  {
    var tar := Tar(Glue(q) + "/", l);
    BelowSegments(dst, q);
    TarStaysBelow(dst, dst + q, Glue(q) + "/", l);
    var e := DeepestEntry(dst, dst + q, Glue(q) + "/", l);
    if Unpack(g, dst, tar) == Ok(fs + files) {
      var deep := CleanFrom(dst, Split(e.name));
      UnpackMakesAll(g, dst, tar, e);
      FolderIsThere(fs, dst, q, deep);
      UnpackMakesAround(g, dst, tar, dst + q, own);
      OnlyFolderAround(dst, q, own);
      assert false;
    }
  }

  // Below an unclean path, the child itself is named well and its content by the whole path.
  lemma MisplacedChild(parent: string, child: string, es: Listing)
    requires Unclean(parent) && RelativeSegments(parent) != [] && Ordinary(child) && WellNamed(es)
    ensures Compressed(parent, child, Dir(es)) ==
            [Header(child, Dir(es))] + Tar(Glue(RelativeSegments(parent) + [child]) + "/", es)
  {
    TrimBelow(parent, child);
    UncleanIsInStep(parent, child);
    WalkCleans(parent + "/" + child, es, parent, Glue(RelativeSegments(parent) + [child]) + "/");
  }

  lemma FirstMakesFolder(fs: Fs, dst: Path, child: string, es: Listing, tar: seq<Entry>)
    requires Ordinary(child) && IsDir(fs, dst) && dst + [child] !in fs
    ensures Unpack(fs, dst, [Header(child, Dir(es))] + tar) ==
            if ValidRelPath(child) then Unpack(fs[dst + [child] := FsDir], dst, tar) else Failed(fs)
  {
    SplitNoSlash(child);
    var p := dst + [child];
    assert CleanFrom(dst, Split(child)) == p && p[..|p| - 1] == dst;
    assert MakeDirs(fs, dst) == Ok(fs);
    assert ([Header(child, Dir(es))] + tar)[1..] == tar;
  }

  lemma MisplacedChildNeverComesBack(parent: string, child: string, es: Listing, fs: Fs, dst: Path, files: Fs)
    requires Unclean(parent) && RelativeSegments(parent) != [] && Ordinary(child) && WellNamed(es) && es.Item?
    requires Rooted(fs) && IsDir(fs, dst) && fs.Keys !! files.Keys
    requires dst + [child] in files && dst + [child, es.name] in files
    requires forall p :: p in files ==> |p| <= |dst| + 1 + Height(es)
    ensures Unpack(fs, dst, Compressed(parent, child, Dir(es))) != Ok(fs + files)
  {
    var q := RelativeSegments(parent) + [child];
    MisplacedChild(parent, child, es);
    FirstMakesFolder(fs, dst, child, es, Tar(Glue(q) + "/", es));
    SplitHasNoSlash(parent);
    RelativeIsReduced([], Split(parent));
    var g := fs[dst + [child] := FsDir];
    if q[0] == ".." {
      UpwardsMakesNothing(g, dst, q, es);
    } else {
      assert AllOrdinary(q);
      TooDeep(fs, g, dst, q, es, files, dst + [child, es.name]);
    }
  }

  /** Archiving a folder and extracting it where none of its paths exist rebuilds exactly its files, if
      and only if its names can be archived and the folder was given by a clean path or one for ".". */
  lemma RoundTripExactly(parent: string, l: Listing, fs: Fs, dst: Path)
    requires parent != "" && WellNamed(l)
    requires Rooted(fs) && IsDir(fs, dst) && fs.Keys !! Files(dst, l).Keys
    ensures Unpack(fs, dst, Compressed(parent, "", Dir(l))) == Ok(fs + Files(dst, l))
            <==> Archivable(l) && (l.End? || Tidy(parent))
  {
    if Tidy(parent) {
      MergeApart(fs, Files(dst, l));
      CompressedFolder(parent, l);
      Extraction(fs, dst, l);
    } else if l.End? {
      assert parent + "/" + "" == parent + "/";
      assert fs + map[] == fs;
    } else if IsAbs(parent) {
      UncleanFolderFails(parent, l, fs, dst);
    } else {
      forall p | p in Files(dst, l)
        ensures |p| <= |dst| + Height(l)
      {
        NothingDeeper(dst, l, p);
      }
      MisplacedNeverComesBack(parent, l, fs, dst, Files(dst, l));
    }
  }

  /** The same for one named child of a folder, where a file or an empty folder comes back in any case. */
  lemma ChildRoundTripExactly(parent: string, child: string, node: Node, fs: Fs, dst: Path)
    requires parent != "" && WellNamed(Item(child, node, End))
    requires Rooted(fs) && IsDir(fs, dst) && fs.Keys !! Files(dst, Item(child, node, End)).Keys
    ensures Unpack(fs, dst, Compressed(parent, child, node)) == Ok(fs + Files(dst, Item(child, node, End)))
            <==> Archivable(Item(child, node, End)) && (Tidy(parent) || Bare(node))
  {
    if IsAbs(parent) || Tidy(parent) || Bare(node) {
      JoinedChildRoundTrip(parent, child, node, fs, dst);
    } else {
      var files := Files(dst, Item(child, node, End));
      forall p | p in files
        ensures |p| <= |dst| + 1 + Height(node.entries)
      {
        NothingDeeper(dst, Item(child, node, End), p);
      }
      assert dst + [child] + [node.entries.name] == dst + [child, node.entries.name];
      MisplacedChildNeverComesBack(parent, child, node.entries, fs, dst, files);
    }
  }
}
