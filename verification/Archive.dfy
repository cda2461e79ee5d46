/** The tar archive of a folder and its extraction (controllers/tar_util.go). An archive is its
    sequence of entries; a disk maps cleaned absolute paths to what is there. */
module Archive {
  import opened Paths

  type Bytes = seq<bv8>

  // A folder's content, in the order in which the walk visits it.
  datatype Node = File(data: Bytes) | Dir(entries: Listing)
  datatype Listing = End | Item(name: string, node: Node, rest: Listing)

  datatype Entry = Entry(name: string, isDir: bool, data: Bytes)

  datatype FsNode = FsFile(content: Bytes) | FsDir
  type Fs = map<Path, FsNode>

  // The disk after extraction, complete or given up at the first error.
  datatype Unpacked = Ok(fs: Fs) | Failed(fs: Fs)

  /* ---- Writing ---- */

  function Header(name: string, node: Node): Entry {
    match node
    case File(data) => Entry(name, false, data)
    case Dir(_) => Entry(name, true, [])
  }

  // Nothing is written for the folder that is being archived itself.
  function OwnEntry(name: string, node: Node): seq<Entry> {
    if name == "" then [] else [Header(name, node)]
  }

  function WalkNode(path: string, node: Node, parent: string): seq<Entry>
    decreases node, 1
  {
    OwnEntry(TrimPrefix(path, parent + "/"), node) +
    (if node.Dir? then WalkListing(path, node.entries, parent) else [])
  }

  function WalkListing(path: string, l: Listing, parent: string): seq<Entry>
    decreases l, 0
  {
    match l
    case End => []
    case Item(name, node, rest) =>
      WalkNode(Join(path, name), node, parent) + WalkListing(path, rest, parent)
  }

  function Compressed(parent: string, child: string, node: Node): seq<Entry> {
    WalkNode(parent + "/" + child, node, parent)
  }

  class TarStream {
    var entries: seq<Entry>

    constructor ()
      ensures entries == []
    {
      entries := [];
    }

    method WriteHeader(name: string, isDir: bool)
      modifies this
      ensures entries == old(entries) + [Entry(name, isDir, [])]
    {
      entries := entries + [Entry(name, isDir, [])];
    }

    // Content goes to the entry whose header came last.
    method Write(data: Bytes)
      requires entries != []
      modifies this
      ensures |entries| == |old(entries)| && entries[..|entries| - 1] == old(entries)[..|entries| - 1]
      ensures entries[|entries| - 1] == old(entries[|entries| - 1]).(data := old(entries[|entries| - 1].data) + data)
    {
      var n := |entries| - 1;
      entries := entries[n := entries[n].(data := entries[n].data + data)];
    }

    method WriteEntry(name: string, node: Node)
      modifies this
      ensures entries == old(entries) + [Header(name, node)]
    {
      WriteHeader(name, node.Dir?);
      if node.File? {
        assert [] + node.data == node.data;
        Write(node.data);
      }
    }

    method WriteOwn(name: string, node: Node)
      modifies this
      ensures entries == old(entries) + OwnEntry(name, node)
    {
      if name != "" {
        WriteEntry(name, node);
      }
    }

    method Visit(path: string, node: Node, parent: string)
      modifies this
      ensures entries == old(entries) + WalkNode(path, node, parent)
      decreases node, 1
    {
      ghost var before := entries;
      ghost var own := OwnEntry(TrimPrefix(path, parent + "/"), node);
      ghost var inner := if node.Dir? then WalkListing(path, node.entries, parent) else [];
      WriteOwn(TrimPrefix(path, parent + "/"), node);
      ghost var middle := entries;
      if node.Dir? {
        VisitAll(path, node.entries, parent);
      }
      Appended(before, middle, entries, own, inner);
    }

    method VisitAll(path: string, l: Listing, parent: string)
      modifies this
      ensures entries == old(entries) + WalkListing(path, l, parent)
      decreases l, 0
    {
      match l
      case End =>
      case Item(name, node, rest) =>
        ghost var before := entries;
        var file := Join(path, name);
        Visit(file, node, parent);
        ghost var middle := entries;
        VisitAll(path, rest, parent);
        Appended(before, middle, entries, WalkNode(file, node, parent), WalkListing(path, rest, parent));
    }
  }

  lemma Appended<T>(a: seq<T>, b: seq<T>, c: seq<T>, x: seq<T>, y: seq<T>)
    requires b == a + x && c == b + y
    ensures c == a + (x + y)
  {
  }

  method Compress(parent: string, child: string, node: Node) returns (tar: seq<Entry>)
    ensures tar == Compressed(parent, child, node)
  {
    var tw := new TarStream();
    tw.Visit(parent + "/" + child, node, parent);
    tar := tw.entries;
  }

  /* ---- Reading ---- */

  ghost predicate ValidRelPath(p: string) {
    p != "" && !Contains(p, "\\") && !("/" <= p) && !Contains(p, "../")
  }

  ghost predicate Exists(fs: Fs, p: Path) { p == [] || p in fs }

  ghost predicate IsDir(fs: Fs, p: Path) { p == [] || (p in fs && fs[p].FsDir?) }

  function Old(fs: Fs, p: Path): Bytes {
    if p in fs && fs[p].FsFile? then fs[p].content else []
  }

  // Files are opened without truncation, so a longer old content keeps its tail.
  function Overlay(present: Bytes, data: Bytes): Bytes {
    if |present| > |data| then data + present[|data|..] else data
  }

  // os.MkdirAll
  function MakeDirs(fs: Fs, p: Path): Unpacked
    decreases |p|
  {
    if p == [] then Ok(fs)
    else if p in fs then (if fs[p].FsDir? then Ok(fs) else Failed(fs))
    else match MakeDirs(fs, p[..|p| - 1])
      case Failed(f) => Failed(f)
      case Ok(f) => Ok(f[p := FsDir])
  }

  ghost function Place(fs: Fs, dst: Path, e: Entry): Unpacked {
    var target := CleanFrom(dst, Split(e.name));
    if !ValidRelPath(e.name) then Failed(fs)
    else if e.isDir then
      if Exists(fs, target) then Ok(fs) else MakeDirs(fs, target)
    else if target == [] || !IsDir(fs, target[..|target| - 1]) || IsDir(fs, target) then Failed(fs)
    else Ok(fs[target := FsFile(Overlay(Old(fs, target), e.data))])
  }

  ghost function Unpack(fs: Fs, dst: Path, tar: seq<Entry>): Unpacked
    decreases |tar|
  {
    if tar == [] then Ok(fs)
    else match Place(fs, dst, tar[0])
      case Failed(f) => Failed(f)
      case Ok(f) => Unpack(f, dst, tar[1..])
  }

  method Occurs(s: string, sub: string) returns (r: bool)
    ensures r <==> Contains(s, sub)
  {
    var i := 0;
    while i + |sub| <= |s|
      invariant 0 <= i
      invariant forall k :: k < i ==> !OccursAt(s, sub, k)
    {
      if s[i..i + |sub|] == sub {
        assert OccursAt(s, sub, i);
        return true;
      }
      i := i + 1;
    }
    return false;
  }

  method CheckRelPath(p: string) returns (valid: bool)
    ensures valid <==> ValidRelPath(p)
  {
    var backslash := Occurs(p, "\\");
    var dotdot := Occurs(p, "../");
    valid := !(p == "" || backslash || "/" <= p || dotdot);
  }

  class Disk {
    var fs: Fs

    constructor (fs: Fs)
      ensures this.fs == fs
    {
      this.fs := fs;
    }

    method MkdirAll(p: Path) returns (ok: bool)
      modifies this
      ensures MakeDirs(old(fs), p) == if ok then Ok(fs) else Failed(fs)
      decreases |p|
    {
      if p == [] {
        return true;
      }
      if p in fs {
        return fs[p].FsDir?;
      }
      ok := MkdirAll(p[..|p| - 1]);
      if ok {
        fs := fs[p := FsDir];
      }
    }

    method WriteFile(p: Path, data: Bytes) returns (ok: bool)
      modifies this
      ensures ok <==> p != [] && IsDir(old(fs), p[..|p| - 1]) && !IsDir(old(fs), p)
      ensures fs == if ok then old(fs)[p := FsFile(Overlay(Old(old(fs), p), data))] else old(fs)
    {
      if p == [] {
        return false;
      }
      var up := p[..|p| - 1];
      if !(up == [] || (up in fs && fs[up].FsDir?)) || (p in fs && fs[p].FsDir?) {
        return false;
      }
      fs := fs[p := FsFile(Overlay(Old(fs, p), data))];
      return true;
    }

    method Uncompress(tar: seq<Entry>, dst: string) returns (ok: bool)
      modifies this
      ensures Unpack(old(fs), Segments(dst), tar) == if ok then Ok(fs) else Failed(fs)
    {
      var i := 0;
      while i < |tar|
        invariant 0 <= i <= |tar|
        invariant Unpack(old(fs), Segments(dst), tar) == Unpack(fs, Segments(dst), tar[i..])
      {
        var e := tar[i];
        assert tar[i..][1..] == tar[i + 1..];
        var valid := CheckRelPath(e.name);
        if !valid {
          return false;
        }
        var target := CleanFrom(Segments(dst), Split(e.name));
        if e.isDir {
          if !(target == [] || target in fs) {
            var made := MkdirAll(target);
            if !made {
              return false;
            }
          }
        } else {
          var written := WriteFile(target, e.data);
          if !written {
            return false;
          }
        }
        i := i + 1;
      }
      return true;
    }
  }

  /* ---- What a listing stands for on a disk ---- */

  predicate HasName(l: Listing, name: string) {
    l.Item? && (l.name == name || HasName(l.rest, name))
  }

  // Names a file system can hold, each once in its folder.
  predicate WellNamed(l: Listing) {
    l.Item? ==>
      Ordinary(l.name) && !HasName(l.rest, l.name) &&
      (l.node.Dir? ==> WellNamed(l.node.entries)) && WellNamed(l.rest)
  }

  // The archive can carry these names: no backslash, and no folder with content ends in "..".
  ghost predicate Archivable(l: Listing) {
    l.Item? ==>
      '\\' !in l.name &&
      (l.node.Dir? && l.node.entries.Item? ==> !EndsWith(l.name, "..") && Archivable(l.node.entries)) &&
      Archivable(l.rest)
  }

  // The paths and contents of a listing that sits at base.
  function Files(base: Path, l: Listing): Fs
    decreases l
  {
    match l
    case End => map[]
    case Item(name, File(data), rest) => map[base + [name] := FsFile(data)] + Files(base, rest)
    case Item(name, Dir(es), rest) => (map[base + [name] := FsDir] + Files(base + [name], es)) + Files(base, rest)
  }

  // The archive of a listing, with its names relative to prefix.
  function Tar(prefix: string, l: Listing): seq<Entry>
    decreases l
  {
    match l
    case End => []
    case Item(name, node, rest) =>
      [Header(prefix + name, node)] +
      (if node.Dir? then Tar(prefix + name + "/", node.entries) else []) +
      Tar(prefix, rest)
  }

  // files laid over fs.
  function Merge(fs: Fs, files: Fs): Fs {
    map p | p in fs.Keys + files.Keys ::
      if p !in files then fs[p]
      else match files[p]
        case FsDir => FsDir
        case FsFile(data) => FsFile(Overlay(Old(fs, p), data))
  }

  ghost predicate SameKinds(fs: Fs, files: Fs) {
    forall p :: p in fs && p in files ==> fs[p].FsDir? == files[p].FsDir?
  }
}
