/** The tree of files and directories a session builds from its list of paths. */
module FileTree {
  import opened Text

  datatype File = File(name: string, path: string)

  /** A directory under construction; `dirs` is its map of subdirectories in insertion order. */
  datatype Dir = Dir(name: string, path: string, dirs: seq<Dir>, files: seq<File>)

  datatype Node = DirNode(name: string, path: string, children: seq<Node>) | FileNode(name: string, path: string)

  /** A string comparison as used for sorting: total and transitive, but distinct names may tie. */
  ghost predicate Ordering(le: (string, string) -> bool) {
    && (forall a, b :: le(a, b) || le(b, a))
    && (forall a, b, c :: le(a, b) && le(b, c) ==> le(a, c))
  }

  ghost predicate TotallyOrders(le: (string, string) -> bool) {
    Ordering(le) && forall a, b :: le(a, b) && le(b, a) ==> a == b
  }

  function NonEmpty(parts: seq<string>): seq<string> {
    if parts == [] then [] else (if parts[0] == "" then [] else [parts[0]]) + NonEmpty(parts[1..])
  }

  function Components(path: string): seq<string> { NonEmpty(Split(path, '/')) }

  // ---------- components ----------

  lemma {:induction false} NonEmptyAppend(a: seq<string>, b: seq<string>)
    ensures NonEmpty(a + b) == NonEmpty(a) + NonEmpty(b)
  {
    if a == [] {
      assert a + b == b;
    } else {
      assert (a + b)[1..] == a[1..] + b;
      NonEmptyAppend(a[1..], b);
    }
  }

  /** Without a slash a path is its own component, unless it is empty. */
  lemma ComponentsOfName(name: string)
    requires '/' !in name
    ensures Components(name) == if name == "" then [] else [name]
  {
    SplitNone(name, '/');
    assert [name][1..] == [] && NonEmpty([]) == [];
    assert NonEmpty([name]) == (if name == "" then [] else [name]) + [];
  }

  /** A slash separates the components on its two sides. */
  lemma ComponentsOfTwo(a: string, b: string)
    ensures Components(a + "/" + b) == Components(a) + Components(b)
  {
    SplitTwo(a, b);
    NonEmptyAppend(Split(a, '/'), Split(b, '/'));
  }

  lemma SplitTwo(a: string, b: string)
    ensures Split(a + "/" + b, '/') == Split(a, '/') + Split(b, '/')
  {
    var parts := Split(a, '/');
    var front, last := parts[..|parts| - 1], parts[|parts| - 1];
    SplitAppend(a, "/" + b, '/');
    LastPartIsOpen(a, '/');
    SplitFirst(last, b, '/');
    assert last + ("/" + b) == last + ['/'] + b && a + "/" + b == a + ("/" + b);
    assert parts == front + [last];
    Associate(front, [last], Split(b, '/'));
  }

  lemma Associate<T>(a: seq<T>, b: seq<T>, c: seq<T>)
    ensures a + (b + c) == a + b + c
  {
  }

  /** The components of a path joined by single slashes. */
  function Canonical(parts: seq<string>): string {
    if parts == [] then ""
    else if |parts| == 1 then parts[0]
    else Canonical(parts[..|parts| - 1]) + "/" + parts[|parts| - 1]
  }

  /** Exactly the paths without an empty component, and the empty path, are their components joined. */
  lemma CanonicalIffNoEmptyPart(path: string)
    ensures Canonical(Components(path)) == path <==> path == "" || "" !in Split(path, '/')
  {
    PartsJoined(path);
    if path != "" && Canonical(Components(path)) == path {
      ComponentsAreNames(path);
      if Components(path) == [] { assert false; }
      PartsOfCanonical(Components(path));
    }
    if "" !in Split(path, '/') { AllNonEmpty(Split(path, '/')); }
  }

  lemma {:induction false} AllNonEmpty(parts: seq<string>)
    requires "" !in parts
    ensures NonEmpty(parts) == parts
  {
    if parts != [] {
      assert parts[0] in parts;
      AllNonEmpty(parts[1..]);
    }
  }

  lemma {:induction false} NonEmptyMembers(parts: seq<string>)
    ensures forall part | part in NonEmpty(parts) :: part != "" && part in parts
  {
    if parts != [] {
      NonEmptyMembers(parts[1..]);
    }
  }

  lemma ComponentsAreNames(path: string)
    ensures forall part | part in Components(path) :: part != "" && '/' !in part
  {
    NonEmptyMembers(Split(path, '/'));
    PartsHaveNoSeparator(path, '/');
  }

  /** Joining all parts of a split, empty ones too, gives the path back. */
  lemma {:induction false} PartsJoined(path: string)
    ensures Canonical(Split(path, '/')) == path
  {
    if path != "" {
      var rest := Split(path[1..], '/');
      PartsJoined(path[1..]);
      if path[0] == '/' {
        CanonicalPrepend("", rest);
        assert path == "" + "/" + path[1..];
      } else {
        CanonicalLonger(path[0], rest);
        assert path == [path[0]] + path[1..];
      }
    } else {
      assert Split("", '/') == [""];
    }
  }

  lemma {:induction false} CanonicalPrepend(part: string, rest: seq<string>)
    requires rest != []
    ensures Canonical([part] + rest) == part + "/" + Canonical(rest)
  {
    var all := [part] + rest;
    if |rest| == 1 {
      assert all[..1] == [part];
    } else {
      assert all[..|all| - 1] == [part] + rest[..|rest| - 1];
      CanonicalPrepend(part, rest[..|rest| - 1]);
      assert part + "/" + Canonical(rest[..|rest| - 1]) + "/" + rest[|rest| - 1]
          == part + "/" + (Canonical(rest[..|rest| - 1]) + "/" + rest[|rest| - 1]);
    }
  }

  lemma CanonicalLonger(c: char, rest: seq<string>)
    requires rest != []
    ensures Canonical([[c] + rest[0]] + rest[1..]) == [c] + Canonical(rest)
  {
    if |rest| == 1 {
      assert rest[1..] == [];
    } else {
      CanonicalPrepend([c] + rest[0], rest[1..]);
      CanonicalPrepend(rest[0], rest[1..]);
      FirstLonger(c, rest[0], Canonical(rest[1..]));
      assert rest == [rest[0]] + rest[1..];
    }
  }

  lemma FirstLonger(c: char, part: string, more: string)
    ensures [c] + part + "/" + more == [c] + (part + "/" + more)
  {
  }

  lemma {:induction false} PartsOfCanonical(parts: seq<string>)
    requires parts != [] && forall part | part in parts :: part != "" && '/' !in part
    ensures Split(Canonical(parts), '/') == parts
  {
    if |parts| == 1 {
      assert parts[0] in parts;
      SplitNone(parts[0], '/');
    } else {
      var rest := parts[1..];
      assert parts == [parts[0]] + rest && parts[0] in parts;
      assert forall part | part in rest :: part in parts;
      PartsOfCanonical(rest);
      CanonicalPrepend(parts[0], rest);
      SplitFirst(parts[0], Canonical(rest), '/');
    }
  }

  // ---------- insertion ----------

  function FindDir(dirs: seq<Dir>, name: string): (k: int)
    ensures -1 <= k < |dirs|
    ensures k >= 0 ==> dirs[k].name == name
    ensures k < 0 ==> forall i | 0 <= i < |dirs| :: dirs[i].name != name
  {
    if dirs == [] then -1
    else if dirs[|dirs| - 1].name == name then |dirs| - 1
    else FindDir(dirs[..|dirs| - 1], name)
  }

  function Join(parent: string, name: string): string {
    if parent != "" then parent + "/" + name else name
  }

  function Insert(d: Dir, parts: seq<string>, path: string): Dir
    requires parts != []
    decreases |parts|
  {
    if |parts| == 1 then d.(files := d.files + [File(parts[0], path)])
    else
      var k := FindDir(d.dirs, parts[0]);
      if k >= 0 then d.(dirs := d.dirs[k := Insert(d.dirs[k], parts[1..], path)])
      else d.(dirs := d.dirs + [Insert(Dir(parts[0], Join(d.path, parts[0]), [], []), parts[1..], path)])
  }

  const EMPTY_ROOT := Dir("", "", [], [])

  function InsertAll(paths: seq<string>): Dir {
    if paths == [] then EMPTY_ROOT
    else
      var d, parts := InsertAll(paths[..|paths| - 1]), Components(paths[|paths| - 1]);
      if parts == [] then d else Insert(d, parts, paths[|paths| - 1])
  }

  // ---------- sorting into nodes ----------

  /** Stable: a node goes before the first one it may precede. */
  function Place(n: Node, nodes: seq<Node>, le: (string, string) -> bool): (r: seq<Node>)
    ensures forall m :: m in r <==> m == n || m in nodes
  {
    if nodes == [] || le(n.name, nodes[0].name) then [n] + nodes else [nodes[0]] + Place(n, nodes[1..], le)
  }

  function Sort(nodes: seq<Node>, le: (string, string) -> bool): (r: seq<Node>)
    ensures forall m :: m in r <==> m in nodes
  {
    if nodes == [] then [] else Place(nodes[0], Sort(nodes[1..], le), le)
  }

  function ToNodes(d: Dir, le: (string, string) -> bool): seq<Node>
    decreases d, 1
  {
    Sort(DirNodes(d.dirs, le), le) + Sort(FileNodes(d.files), le)
  }

  function DirNodes(dirs: seq<Dir>, le: (string, string) -> bool): (r: seq<Node>)
    ensures |r| == |dirs|
    decreases dirs, 0
  {
    if dirs == [] then []
    else [DirNode(dirs[0].name, dirs[0].path, ToNodes(dirs[0], le))] + DirNodes(dirs[1..], le)
  }

  function FileNodes(files: seq<File>): (r: seq<Node>)
    ensures |r| == |files|
    ensures forall m | m in r :: m.FileNode?
  {
    if files == [] then [] else [FileNode(files[0].name, files[0].path)] + FileNodes(files[1..])
  }

  function Tree(paths: seq<string>, le: (string, string) -> bool): seq<Node> { ToNodes(InsertAll(paths), le) }

  method BuildFileTree(paths: seq<string>, le: (string, string) -> bool) returns (nodes: seq<Node>)
    ensures nodes == Tree(paths, le)
  {
    var root := EMPTY_ROOT;
    for i := 0 to |paths|
      invariant root == InsertAll(paths[..i])
    {
      InsertOneMore(paths, i);
      var parts := Components(paths[i]);
      if parts != [] {
        root := Insert(root, parts, paths[i]);
      }
    }
    assert paths[..|paths|] == paths;
    nodes := ToNodes(root, le);
  }

  lemma InsertOneMore(paths: seq<string>, i: nat)
    requires i < |paths|
    ensures var d, parts := InsertAll(paths[..i]), Components(paths[i]);
            InsertAll(paths[..i + 1]) == if parts == [] then d else Insert(d, parts, paths[i])
  {
    assert paths[..i + 1][..i] == paths[..i];
  }

  // ---------- leaves ----------

  /** A file with the names on the way to it, itself included. */
  type Leaf = (seq<string>, string)

  function Leaves(nodes: seq<Node>, prefix: seq<string>): multiset<Leaf>
    decreases nodes, 0
  {
    if nodes == [] then multiset{} else NodeLeaves(nodes[0], prefix) + Leaves(nodes[1..], prefix)
  }

  function NodeLeaves(n: Node, prefix: seq<string>): multiset<Leaf>
    decreases n, 1
  {
    match n
    case DirNode(name, _, children) => Leaves(children, prefix + [name])
    case FileNode(name, path) => multiset{(prefix + [name], path)}
  }

  function DirLeaves(d: Dir, prefix: seq<string>): multiset<Leaf>
    decreases d, 1
  {
    DirsLeaves(d.dirs, prefix) + FilesLeaves(d.files, prefix)
  }

  function DirsLeaves(dirs: seq<Dir>, prefix: seq<string>): multiset<Leaf>
    decreases dirs, 0
  {
    if dirs == [] then multiset{} else DirLeaves(dirs[0], prefix + [dirs[0].name]) + DirsLeaves(dirs[1..], prefix)
  }

  function FilesLeaves(files: seq<File>, prefix: seq<string>): multiset<Leaf> {
    if files == [] then multiset{}
    else multiset{(prefix + [files[0].name], files[0].path)} + FilesLeaves(files[1..], prefix)
  }

  /** The leaves a list of paths asks for: its paths with a non-empty component. */
  function Wanted(paths: seq<string>): multiset<Leaf> {
    if paths == [] then multiset{}
    else
      var last := paths[|paths| - 1];
      Wanted(paths[..|paths| - 1]) + if Components(last) == [] then multiset{} else multiset{(Components(last), last)}
  }

  lemma {:induction false} LeavesAppend(a: seq<Node>, b: seq<Node>, prefix: seq<string>)
    ensures Leaves(a + b, prefix) == Leaves(a, prefix) + Leaves(b, prefix)
  {
    if a == [] {
      assert a + b == b;
    } else {
      assert (a + b)[1..] == a[1..] + b;
      LeavesAppend(a[1..], b, prefix);
    }
  }

  lemma {:induction false} PlaceLeaves(n: Node, nodes: seq<Node>, le: (string, string) -> bool, prefix: seq<string>)
    ensures Leaves(Place(n, nodes, le), prefix) == NodeLeaves(n, prefix) + Leaves(nodes, prefix)
  {
    var placed := Place(n, nodes, le);
    if nodes == [] || le(n.name, nodes[0].name) {
      assert placed[1..] == nodes;
    } else {
      assert placed[1..] == Place(n, nodes[1..], le);
      PlaceLeaves(n, nodes[1..], le, prefix);
    }
  }

  lemma {:induction false} SortLeaves(nodes: seq<Node>, le: (string, string) -> bool, prefix: seq<string>)
    ensures Leaves(Sort(nodes, le), prefix) == Leaves(nodes, prefix)
  {
    if nodes != [] {
      SortLeaves(nodes[1..], le, prefix);
      PlaceLeaves(nodes[0], Sort(nodes[1..], le), le, prefix);
    }
  }

  lemma {:induction false} FileNodesLeaves(files: seq<File>, prefix: seq<string>)
    ensures Leaves(FileNodes(files), prefix) == FilesLeaves(files, prefix)
  {
    if files != [] {
      FileNodesLeaves(files[1..], prefix);
      assert FileNodes(files)[1..] == FileNodes(files[1..]);
    }
  }

  lemma {:induction false} ToNodesLeaves(d: Dir, le: (string, string) -> bool, prefix: seq<string>)
    ensures Leaves(ToNodes(d, le), prefix) == DirLeaves(d, prefix)
    decreases d, 1
  {
    DirNodesLeaves(d.dirs, le, prefix);
    FileNodesLeaves(d.files, prefix);
    SortLeaves(DirNodes(d.dirs, le), le, prefix);
    SortLeaves(FileNodes(d.files), le, prefix);
    LeavesAppend(Sort(DirNodes(d.dirs, le), le), Sort(FileNodes(d.files), le), prefix);
  }

  lemma {:induction false} DirNodesLeaves(dirs: seq<Dir>, le: (string, string) -> bool, prefix: seq<string>)
    ensures Leaves(DirNodes(dirs, le), prefix) == DirsLeaves(dirs, prefix)
    decreases dirs, 0
  {
    if dirs != [] {
      ToNodesLeaves(dirs[0], le, prefix + [dirs[0].name]);
      DirNodesLeaves(dirs[1..], le, prefix);
      assert DirNodes(dirs, le)[1..] == DirNodes(dirs[1..], le);
    }
  }

  lemma {:induction false} FilesLeavesSnoc(files: seq<File>, f: File, prefix: seq<string>)
    ensures FilesLeaves(files + [f], prefix) == FilesLeaves(files, prefix) + multiset{(prefix + [f.name], f.path)}
  {
    if files == [] {
      assert (files + [f])[1..] == [];
    } else {
      assert (files + [f])[1..] == files[1..] + [f];
      FilesLeavesSnoc(files[1..], f, prefix);
    }
  }

  lemma {:induction false} DirsLeavesSnoc(dirs: seq<Dir>, d: Dir, prefix: seq<string>)
    ensures DirsLeaves(dirs + [d], prefix) == DirsLeaves(dirs, prefix) + DirLeaves(d, prefix + [d.name])
  {
    if dirs == [] {
      assert (dirs + [d])[1..] == [];
    } else {
      assert (dirs + [d])[1..] == dirs[1..] + [d];
      DirsLeavesSnoc(dirs[1..], d, prefix);
    }
  }

  lemma {:induction false} DirsLeavesUpdate(dirs: seq<Dir>, k: nat, d: Dir, prefix: seq<string>, leaf: Leaf)
    requires k < |dirs| && d.name == dirs[k].name
    requires DirLeaves(d, prefix + [d.name]) == DirLeaves(dirs[k], prefix + [d.name]) + multiset{leaf}
    ensures DirsLeaves(dirs[k := d], prefix) == DirsLeaves(dirs, prefix) + multiset{leaf}
  {
    if k == 0 {
      assert dirs[k := d][1..] == dirs[1..];
    } else {
      assert dirs[k := d][1..] == dirs[1..][k - 1 := d];
      DirsLeavesUpdate(dirs[1..], k - 1, d, prefix, leaf);
    }
  }

  /** Inserting a path adds exactly one leaf, reached by exactly its components. */
  lemma {:induction false} InsertAddsLeaf(d: Dir, parts: seq<string>, path: string, prefix: seq<string>)
    requires parts != []
    ensures Insert(d, parts, path).name == d.name && Insert(d, parts, path).path == d.path
    ensures DirLeaves(Insert(d, parts, path), prefix) == DirLeaves(d, prefix) + multiset{(prefix + parts, path)}
    decreases |parts|
  {
    if |parts| == 1 {
      assert parts == [parts[0]];
      FilesLeavesSnoc(d.files, File(parts[0], path), prefix);
    } else {
      var k := FindDir(d.dirs, parts[0]);
      assert prefix + [parts[0]] + parts[1..] == prefix + parts;
      if k >= 0 {
        InsertAddsLeaf(d.dirs[k], parts[1..], path, prefix + [parts[0]]);
        DirsLeavesUpdate(d.dirs, k, Insert(d.dirs[k], parts[1..], path), prefix, (prefix + parts, path));
      } else {
        var sub := Dir(parts[0], Join(d.path, parts[0]), [], []);
        InsertAddsLeaf(sub, parts[1..], path, prefix + [parts[0]]);
        DirsLeavesSnoc(d.dirs, Insert(sub, parts[1..], path), prefix);
      }
    }
  }

  lemma {:induction false} InsertAllLeaves(paths: seq<string>)
    ensures DirLeaves(InsertAll(paths), []) == Wanted(paths)
  {
    if paths != [] {
      var last := paths[|paths| - 1];
      InsertAllLeaves(paths[..|paths| - 1]);
      if Components(last) != [] {
        InsertAddsLeaf(InsertAll(paths[..|paths| - 1]), Components(last), last, []);
        assert [] + Components(last) == Components(last);
      }
    }
  }

  // ---------- shape ----------

  /** Subdirectories are distinct, non-empty, and carry the joined path, all the way down. */
  ghost predicate Sound(d: Dir)
    decreases d
  {
    && (forall i, j | 0 <= i < j < |d.dirs| :: d.dirs[i].name != d.dirs[j].name)
    && (forall sub | sub in d.dirs ::
          Sound(sub) && sub.path == Join(d.path, sub.name) && (sub.dirs != [] || sub.files != []))
  }

  lemma {:induction false} InsertSound(d: Dir, parts: seq<string>, path: string)
    requires parts != [] && Sound(d)
    ensures var e := Insert(d, parts, path);
            Sound(e) && e.name == d.name && e.path == d.path && (e.dirs != [] || e.files != [])
    decreases |parts|
  {
    if |parts| > 1 {
      var k := FindDir(d.dirs, parts[0]);
      if k >= 0 {
        assert d.dirs[k] in d.dirs;
        InsertSound(d.dirs[k], parts[1..], path);
      } else {
        InsertSound(Dir(parts[0], Join(d.path, parts[0]), [], []), parts[1..], path);
      }
    }
  }

  lemma {:induction false} InsertAllSound(paths: seq<string>)
    ensures Sound(InsertAll(paths)) && InsertAll(paths).path == ""
  {
    if paths != [] {
      InsertAllSound(paths[..|paths| - 1]);
      var parts := Components(paths[|paths| - 1]);
      if parts != [] {
        InsertSound(InsertAll(paths[..|paths| - 1]), parts, paths[|paths| - 1]);
      }
    }
  }

  /** `n` may stand before `m`: directories before files, each kind in order, no directory twice. */
  ghost predicate Before(n: Node, m: Node, le: (string, string) -> bool) {
    match n
    case DirNode(name, _, _) => m.FileNode? || (le(name, m.name) && name != m.name)
    case FileNode(name, _) => m.FileNode? && le(name, m.name)
  }

  /** Siblings in order, and no directory empty or misnamed, all the way down. */
  ghost predicate Tidy(nodes: seq<Node>, parent: string, le: (string, string) -> bool)
    decreases nodes, 0
  {
    nodes == [] || (
      && TidyNode(nodes[0], parent, le)
      && (forall m | m in nodes[1..] :: Before(nodes[0], m, le))
      && Tidy(nodes[1..], parent, le))
  }

  ghost predicate TidyNode(n: Node, parent: string, le: (string, string) -> bool)
    decreases n, 1
  {
    n.DirNode? ==> n.path == Join(parent, n.name) && n.children != [] && Tidy(n.children, n.path, le)
  }

  lemma {:induction false} PlaceTidy(n: Node, nodes: seq<Node>, parent: string, le: (string, string) -> bool)
    requires Ordering(le) && TidyNode(n, parent, le) && Tidy(nodes, parent, le)
    requires forall m | m in nodes :: m.DirNode? == n.DirNode? && (n.DirNode? ==> m.name != n.name)
    ensures Tidy(Place(n, nodes, le), parent, le)
  {
    if nodes == [] {
    } else if le(n.name, nodes[0].name) {
      var placed := Place(n, nodes, le);
      assert placed[1..] == nodes;
      forall m | m in nodes ensures Before(n, m, le) {
        assert m == nodes[0] || m in nodes[1..];
      }
    } else {
      var placed := Place(n, nodes, le);
      assert placed[1..] == Place(n, nodes[1..], le);
      PlaceTidy(n, nodes[1..], parent, le);
      forall m | m in placed[1..] ensures Before(nodes[0], m, le) {
        assert m == n || m in nodes[1..];
        assert nodes[0] in nodes;
      }
    }
  }

  lemma {:induction false} SortTidy(nodes: seq<Node>, parent: string, le: (string, string) -> bool)
    requires Ordering(le) && forall m | m in nodes :: TidyNode(m, parent, le)
    requires (forall m | m in nodes :: m.FileNode?) || (forall m | m in nodes :: m.DirNode?)
    requires forall i, j | 0 <= i < j < |nodes| :: nodes[i].DirNode? ==> nodes[i].name != nodes[j].name
    ensures Tidy(Sort(nodes, le), parent, le)
  {
    if nodes != [] {
      assert forall m | m in nodes[1..] :: m in nodes;
      SortTidy(nodes[1..], parent, le);
      assert nodes[0] in nodes;
      PlaceTidy(nodes[0], Sort(nodes[1..], le), parent, le);
    }
  }

  lemma {:induction false} TidyAppend(dirs: seq<Node>, files: seq<Node>, parent: string, le: (string, string) -> bool)
    requires Tidy(dirs, parent, le) && Tidy(files, parent, le)
    requires (forall m | m in dirs :: m.DirNode?) && (forall m | m in files :: m.FileNode?)
    ensures Tidy(dirs + files, parent, le)
  {
    if dirs == [] {
      assert dirs + files == files;
    } else {
      assert (dirs + files)[1..] == dirs[1..] + files;
      TidyAppend(dirs[1..], files, parent, le);
    }
  }

  ghost predicate SoundChild(sub: Dir, parent: string) {
    Sound(sub) && sub.path == Join(parent, sub.name) && (sub.dirs != [] || sub.files != [])
  }

  lemma {:induction false} DirNodesTidy(dirs: seq<Dir>, parent: string, le: (string, string) -> bool)
    requires Ordering(le) && forall sub | sub in dirs :: SoundChild(sub, parent)
    ensures forall i | 0 <= i < |dirs| ::
              DirNodes(dirs, le)[i].DirNode? && DirNodes(dirs, le)[i].name == dirs[i].name
    ensures forall n | n in DirNodes(dirs, le) :: n.DirNode? && TidyNode(n, parent, le)
    decreases dirs, 0
  {
    if dirs != [] {
      assert SoundChild(dirs[0], parent);
      DirNodeTidy(dirs[0], parent, le);
      DirNodesTidy(dirs[1..], parent, le);
    }
  }

  lemma {:induction false} DirNodeTidy(sub: Dir, parent: string, le: (string, string) -> bool)
    requires Ordering(le) && SoundChild(sub, parent)
    ensures TidyNode(DirNode(sub.name, sub.path, ToNodes(sub, le)), parent, le)
    decreases sub, 2
  {
    ToNodesTidy(sub, le);
    ToNodesSize(sub, le);
  }

  lemma {:induction false} ToNodesSize(d: Dir, le: (string, string) -> bool)
    ensures |ToNodes(d, le)| == |d.dirs| + |d.files|
  {
    SortSize(DirNodes(d.dirs, le), le);
    SortSize(FileNodes(d.files), le);
  }

  lemma {:induction false} SortSize(nodes: seq<Node>, le: (string, string) -> bool)
    ensures |Sort(nodes, le)| == |nodes|
  {
    if nodes != [] {
      SortSize(nodes[1..], le);
      PlaceSize(nodes[0], Sort(nodes[1..], le), le);
    }
  }

  lemma {:induction false} PlaceSize(n: Node, nodes: seq<Node>, le: (string, string) -> bool)
    ensures |Place(n, nodes, le)| == |nodes| + 1
  {
    if nodes != [] && !le(n.name, nodes[0].name) {
      PlaceSize(n, nodes[1..], le);
    }
  }

  lemma {:induction false} ToNodesTidy(d: Dir, le: (string, string) -> bool)
    requires Ordering(le) && Sound(d)
    ensures Tidy(ToNodes(d, le), d.path, le)
    decreases d, 1
  {
    var dirs, files := DirNodes(d.dirs, le), FileNodes(d.files);
    DirNodesTidy(d.dirs, d.path, le);
    SortTidy(dirs, d.path, le);
    assert forall i | 0 <= i < |files| :: files[i] in files;
    SortTidy(files, d.path, le);
    TidyAppend(Sort(dirs, le), Sort(files, le), d.path, le);
  }

  /** Every file lies in the directory whose path, a slash and its name are its own path in canonical form. */
  ghost predicate Located(nodes: seq<Node>, parent: string)
    decreases nodes, 0
  {
    nodes == [] || (LocatedNode(nodes[0], parent) && Located(nodes[1..], parent))
  }

  ghost predicate LocatedNode(n: Node, parent: string)
    decreases n, 1
  {
    var here := if parent == "" then n.name else parent + "/" + n.name;
    if n.DirNode? then n.path == here && Located(n.children, n.path) else Canonical(Components(n.path)) == here
  }

  ghost predicate AllProper(leaves: multiset<Leaf>) { forall leaf | leaf in leaves :: leaf.0 == Components(leaf.1) }

  lemma ProperParts(a: multiset<Leaf>, b: multiset<Leaf>)
    requires AllProper(a + b)
    ensures AllProper(a) && AllProper(b)
  {
    forall leaf | leaf in a ensures leaf in a + b {}
    forall leaf | leaf in b ensures leaf in a + b {}
  }

  lemma CanonicalSnoc(parts: seq<string>, name: string)
    requires parts != [] ==> Canonical(parts) != ""
    ensures Canonical(parts + [name]) == Join(Canonical(parts), name)
  {
    assert (parts + [name])[..|parts|] == parts;
  }

  lemma {:induction false} FilesAreLocated(
    nodes: seq<Node>, parent: string, le: (string, string) -> bool, prefix: seq<string>)
    requires Tidy(nodes, parent, le) && Canonical(prefix) == parent && (prefix != [] ==> parent != "")
    requires AllProper(Leaves(nodes, prefix))
    ensures Located(nodes, parent)
    decreases nodes, 0
  {
    if nodes != [] {
      ProperParts(NodeLeaves(nodes[0], prefix), Leaves(nodes[1..], prefix));
      NodeIsLocated(nodes[0], parent, le, prefix);
      FilesAreLocated(nodes[1..], parent, le, prefix);
    }
  }

  lemma {:induction false} NodeIsLocated(
    n: Node, parent: string, le: (string, string) -> bool, prefix: seq<string>)
    requires TidyNode(n, parent, le) && Canonical(prefix) == parent && (prefix != [] ==> parent != "")
    requires AllProper(NodeLeaves(n, prefix))
    ensures LocatedNode(n, parent)
    decreases n, 1
  {
    CanonicalSnoc(prefix, n.name);
    if n.DirNode? {
      DirIsNamed(n, le, prefix);
      FilesAreLocated(n.children, n.path, le, prefix + [n.name]);
    } else {
      assert (prefix + [n.name], n.path) in NodeLeaves(n, prefix);
    }
  }

  lemma DirIsNamed(n: Node, le: (string, string) -> bool, prefix: seq<string>)
    requires n.DirNode? && n.children != [] && Tidy(n.children, n.path, le)
    requires AllProper(NodeLeaves(n, prefix))
    ensures n.name != ""
  {
    var leaf := TidyHasLeaf(n.children, n.path, le, prefix + [n.name]);
    NodeLeavesExtendPrefix(n, prefix);
    assert leaf in NodeLeaves(n, prefix);
    ComponentsAreNames(leaf.1);
    assert leaf.0[|prefix|] in leaf.0;
  }

  lemma {:induction false} WantedAreProper(paths: seq<string>)
    ensures AllProper(Wanted(paths))
  {
    if paths != [] {
      WantedAreProper(paths[..|paths| - 1]);
    }
  }

  /** For every list of paths: the leaves of the tree are exactly the paths with a non-empty component, each as
      often as it is listed and reached through exactly its components; siblings are sorted, directories first
      and distinct, none is empty, and each carries its own path; and each file lies in the directory its path names. */
  lemma {:induction false} TreeIsCorrect(paths: seq<string>, le: (string, string) -> bool)
    requires Ordering(le)
    ensures Leaves(Tree(paths, le), []) == Wanted(paths)
    ensures Tidy(Tree(paths, le), "", le)
    ensures Located(Tree(paths, le), "")
  {
    InsertAllLeaves(paths);
    InsertAllSound(paths);
    ToNodesLeaves(InsertAll(paths), le, []);
    ToNodesTidy(InsertAll(paths), le);
    WantedAreProper(paths);
    FilesAreLocated(Tree(paths, le), "", le, []);
  }

  // ---------- a tidy tree is determined by its leaves ----------

  /** Distinct paths are reached through distinct names. */
  ghost predicate Unambiguous(leaves: multiset<Leaf>) {
    forall a, b | a in leaves && b in leaves && a.0 == b.0 :: a == b
  }

  /** The leaf lies below the directory `name` at this level. */
  predicate Under(leaf: Leaf, prefix: seq<string>, name: string) {
    |leaf.0| > |prefix| + 1 && leaf.0[|prefix|] == name
  }

  lemma {:induction false} LeavesExtendPrefix(nodes: seq<Node>, prefix: seq<string>)
    ensures forall leaf | leaf in Leaves(nodes, prefix) :: |leaf.0| > |prefix| && leaf.0[..|prefix|] == prefix
    decreases nodes, 0
  {
    if nodes != [] {
      NodeLeavesExtendPrefix(nodes[0], prefix);
      LeavesExtendPrefix(nodes[1..], prefix);
    }
  }

  lemma {:induction false} NodeLeavesExtendPrefix(n: Node, prefix: seq<string>)
    ensures forall leaf | leaf in NodeLeaves(n, prefix) ::
              && |leaf.0| > |prefix| && leaf.0[..|prefix|] == prefix
              && (if n.DirNode? then Under(leaf, prefix, n.name) else leaf == (prefix + [n.name], n.path))
    decreases n, 1
  {
    if n.DirNode? {
      LeavesExtendPrefix(n.children, prefix + [n.name]);
      forall leaf | leaf in NodeLeaves(n, prefix)
        ensures |leaf.0| > |prefix| && leaf.0[..|prefix|] == prefix && Under(leaf, prefix, n.name)
      {
        var longer := prefix + [n.name];
        assert leaf.0[..|longer|] == longer;
        assert leaf.0[..|prefix|] == longer[..|prefix|];
        assert leaf.0[|prefix|] == longer[|prefix|];
      }
    }
  }

  /** Every leaf comes from a file of that name or from a directory above it. */
  lemma {:induction false} LeafSource(nodes: seq<Node>, prefix: seq<string>, leaf: Leaf) returns (n: Node)
    requires leaf in Leaves(nodes, prefix)
    ensures n in nodes
    ensures if n.DirNode? then Under(leaf, prefix, n.name) else leaf == (prefix + [n.name], n.path)
  {
    if leaf in NodeLeaves(nodes[0], prefix) {
      n := nodes[0];
      NodeLeavesExtendPrefix(n, prefix);
    } else {
      n := LeafSource(nodes[1..], prefix, leaf);
    }
  }

  lemma {:induction false} TidyHasLeaf(
    nodes: seq<Node>, parent: string, le: (string, string) -> bool, prefix: seq<string>)
    returns (leaf: Leaf)
    requires nodes != [] && Tidy(nodes, parent, le)
    ensures leaf in NodeLeaves(nodes[0], prefix) && leaf in Leaves(nodes, prefix)
    decreases nodes
  {
    match nodes[0]
    case DirNode(name, path, children) =>
      leaf := TidyHasLeaf(children, path, le, prefix + [name]);
    case FileNode(name, path) =>
      leaf := (prefix + [name], path);
  }

  /** The first sibling of one tree has no larger name than its namesake's place in the other. */
  lemma {:induction false} FirstPrecedes(
    a: seq<Node>, b: seq<Node>, parent: string, le: (string, string) -> bool, prefix: seq<string>)
    requires Ordering(le) && a != [] && Tidy(a, parent, le) && Tidy(b, parent, le)
    requires Leaves(a, prefix) == Leaves(b, prefix)
    ensures b != [] && (a[0].DirNode? ==> b[0].DirNode?)
    ensures a[0].DirNode? == b[0].DirNode? ==> le(b[0].name, a[0].name)
  {
    var leaf := TidyHasLeaf(a, parent, le, prefix);
    NodeLeavesExtendPrefix(a[0], prefix);
    var n := LeafSource(b, prefix, leaf);
    assert n == b[0] || n in b[1..];
    assert n.DirNode? == a[0].DirNode? && n.name == a[0].name;
  }

  /** Two sums agree part by part when a property separates the parts. */
  lemma SplitSums(a1: multiset<Leaf>, r1: multiset<Leaf>, a2: multiset<Leaf>, r2: multiset<Leaf>, p: Leaf -> bool)
    requires a1 + r1 == a2 + r2
    requires (forall x | x in a1 :: p(x)) && (forall x | x in a2 :: p(x))
    requires (forall x | x in r1 :: !p(x)) && (forall x | x in r2 :: !p(x))
    ensures a1 == a2 && r1 == r2
  {
    forall x ensures a1[x] == a2[x] && r1[x] == r2[x] {
      assert (a1 + r1)[x] == (a2 + r2)[x];
      if p(x) {
        assert x !in r1 && x !in r2;
      } else {
        assert x !in a1 && x !in a2;
      }
    }
  }

  /** No leaf of the later siblings lies below the first directory. */
  lemma {:induction false} RestNotUnder(
    nodes: seq<Node>, parent: string, le: (string, string) -> bool, prefix: seq<string>)
    requires nodes != [] && nodes[0].DirNode? && Tidy(nodes, parent, le)
    ensures forall leaf | leaf in Leaves(nodes[1..], prefix) :: !Under(leaf, prefix, nodes[0].name)
  {
    forall leaf | leaf in Leaves(nodes[1..], prefix) ensures !Under(leaf, prefix, nodes[0].name) {
      var n := LeafSource(nodes[1..], prefix, leaf);
      assert Before(nodes[0], n, le);
    }
  }

  lemma {:induction false} FirstsAgree(
    a: seq<Node>, b: seq<Node>, parent: string, le: (string, string) -> bool, prefix: seq<string>)
    requires TotallyOrders(le) && a != [] && b != [] && Tidy(a, parent, le) && Tidy(b, parent, le)
    requires Leaves(a, prefix) == Leaves(b, prefix)
    ensures a[0].DirNode? == b[0].DirNode? && a[0].name == b[0].name
  {
    FirstPrecedes(a, b, parent, le, prefix);
    FirstPrecedes(b, a, parent, le, prefix);
  }

  lemma {:induction false} FirstDirsAgree(
    a: seq<Node>, b: seq<Node>, parent: string, le: (string, string) -> bool, prefix: seq<string>)
    requires a != [] && b != [] && Tidy(a, parent, le) && Tidy(b, parent, le) && Leaves(a, prefix) == Leaves(b, prefix)
    requires a[0].DirNode? && b[0].DirNode? && a[0].name == b[0].name
    ensures NodeLeaves(a[0], prefix) == NodeLeaves(b[0], prefix) && Leaves(a[1..], prefix) == Leaves(b[1..], prefix)
  {
    var name := a[0].name;
    NodeLeavesExtendPrefix(a[0], prefix);
    NodeLeavesExtendPrefix(b[0], prefix);
    RestNotUnder(a, parent, le, prefix);
    RestNotUnder(b, parent, le, prefix);
    SplitSums(NodeLeaves(a[0], prefix), Leaves(a[1..], prefix), NodeLeaves(b[0], prefix), Leaves(b[1..], prefix),
              leaf => Under(leaf, prefix, name));
  }

  lemma {:induction false} FirstFilesAgree(a: seq<Node>, b: seq<Node>, prefix: seq<string>)
    requires a != [] && b != [] && Leaves(a, prefix) == Leaves(b, prefix) && Unambiguous(Leaves(a, prefix))
    requires a[0].FileNode? && b[0].FileNode? && a[0].name == b[0].name
    ensures a[0] == b[0] && Leaves(a[1..], prefix) == Leaves(b[1..], prefix)
  {
    assert (prefix + [a[0].name], a[0].path) in Leaves(a, prefix);
    assert (prefix + [b[0].name], b[0].path) in Leaves(b, prefix);
    Cancel(NodeLeaves(a[0], prefix), Leaves(a[1..], prefix), Leaves(b[1..], prefix));
  }

  lemma Cancel(a: multiset<Leaf>, r1: multiset<Leaf>, r2: multiset<Leaf>)
    requires a + r1 == a + r2
    ensures r1 == r2
  {
    forall x ensures r1[x] == r2[x] {
      assert (a + r1)[x] == (a + r2)[x];
    }
  }

  lemma RestIsTidy(nodes: seq<Node>, parent: string, le: (string, string) -> bool)
    requires nodes != [] && Tidy(nodes, parent, le)
    ensures Tidy(nodes[1..], parent, le)
    ensures nodes[0].DirNode? ==>
              nodes[0].path == Join(parent, nodes[0].name) && Tidy(nodes[0].children, nodes[0].path, le)
  {
  }

  lemma RestIsUnambiguous(nodes: seq<Node>, prefix: seq<string>)
    requires nodes != [] && Unambiguous(Leaves(nodes, prefix))
    ensures Unambiguous(Leaves(nodes[1..], prefix)) && Unambiguous(NodeLeaves(nodes[0], prefix))
  {
    assert Leaves(nodes, prefix) == NodeLeaves(nodes[0], prefix) + Leaves(nodes[1..], prefix);
  }

  /** Two tidy trees with the same unambiguous leaves are the same tree. */
  lemma {:induction false} TidyTreesWithSameLeaves(
    a: seq<Node>, b: seq<Node>, parent: string, le: (string, string) -> bool, prefix: seq<string>)
    requires TotallyOrders(le) && Tidy(a, parent, le) && Tidy(b, parent, le)
    requires Leaves(a, prefix) == Leaves(b, prefix) && Unambiguous(Leaves(a, prefix))
    ensures a == b
    decreases a
  {
    if a == [] {
      NoLeavesNoNodes(b, parent, le, prefix);
    } else {
      FirstsStep(a, b, parent, le, prefix);
      if a[0].DirNode? {
        TidyTreesWithSameLeaves(a[0].children, b[0].children, a[0].path, le, prefix + [a[0].name]);
      }
      assert a[0] == b[0];
      TidyTreesWithSameLeaves(a[1..], b[1..], parent, le, prefix);
      SameParts(a, b);
    }
  }

  lemma NoLeavesNoNodes(nodes: seq<Node>, parent: string, le: (string, string) -> bool, prefix: seq<string>)
    requires Tidy(nodes, parent, le) && Leaves(nodes, prefix) == Leaves([], prefix)
    ensures nodes == []
  {
    if nodes != [] {
      var leaf := TidyHasLeaf(nodes, parent, le, prefix);
    }
  }

  lemma SameParts(a: seq<Node>, b: seq<Node>)
    requires a != [] && b != [] && a[0] == b[0] && a[1..] == b[1..]
    ensures a == b
  {
    assert a == [a[0]] + a[1..] && b == [b[0]] + b[1..];
  }

  /** The first siblings agree, and what is below and behind them is again alike. */
  lemma {:induction false} FirstsStep(
    a: seq<Node>, b: seq<Node>, parent: string, le: (string, string) -> bool, prefix: seq<string>)
    requires TotallyOrders(le) && a != [] && Tidy(a, parent, le) && Tidy(b, parent, le)
    requires Leaves(a, prefix) == Leaves(b, prefix) && Unambiguous(Leaves(a, prefix))
    ensures b != [] && Tidy(a[1..], parent, le) && Tidy(b[1..], parent, le)
    ensures Leaves(a[1..], prefix) == Leaves(b[1..], prefix) && Unambiguous(Leaves(a[1..], prefix))
    ensures a[0].DirNode? ==> b[0].DirNode? && a[0].name == b[0].name && a[0].path == b[0].path
    ensures a[0].DirNode? ==> Tidy(a[0].children, a[0].path, le) && Tidy(b[0].children, a[0].path, le)
    ensures a[0].DirNode? ==> var longer := prefix + [a[0].name];
              && Leaves(a[0].children, longer) == Leaves(b[0].children, longer)
              && Unambiguous(Leaves(a[0].children, longer))
    ensures a[0].FileNode? ==> a[0] == b[0]
  {
    FirstPrecedes(a, b, parent, le, prefix);
    FirstsAgree(a, b, parent, le, prefix);
    RestIsTidy(a, parent, le);
    RestIsTidy(b, parent, le);
    RestIsUnambiguous(a, prefix);
    if a[0].DirNode? {
      FirstDirsAgree(a, b, parent, le, prefix);
    } else {
      FirstFilesAgree(a, b, prefix);
    }
  }

  // ---------- the order of the paths ----------

  /** No two different listed paths have the same components. */
  ghost predicate NoSharedComponents(paths: seq<string>) {
    forall p, q | p in paths && q in paths && Components(p) == Components(q) != [] :: p == q
  }

  /** The leaf is the one its own path asks for. */
  predicate Proper(leaf: Leaf) { leaf.0 == Components(leaf.1) != [] }

  lemma {:induction false} WantedCount(paths: seq<string>, leaf: Leaf)
    ensures Wanted(paths)[leaf] == if Proper(leaf) then multiset(paths)[leaf.1] else 0
  {
    if paths != [] {
      var front, last := paths[..|paths| - 1], paths[|paths| - 1];
      WantedCount(front, leaf);
      WantedSnoc(paths, leaf);
      CountSnoc(paths, leaf.1);
    }
  }

  lemma CountSnoc(paths: seq<string>, path: string)
    requires paths != []
    ensures multiset(paths)[path] == multiset(paths[..|paths| - 1])[path] + if paths[|paths| - 1] == path then 1 else 0
  {
    assert paths == paths[..|paths| - 1] + [paths[|paths| - 1]];
  }

  lemma WantedSnoc(paths: seq<string>, leaf: Leaf)
    requires paths != []
    ensures Wanted(paths)[leaf]
            == Wanted(paths[..|paths| - 1])[leaf] + if Proper(leaf) && leaf.1 == paths[|paths| - 1] then 1 else 0
  {
    var last := paths[|paths| - 1];
    if leaf.1 == last {
      assert Proper(leaf) <==> leaf == (Components(last), last) && Components(last) != [];
    }
  }

  /** Listing the same paths in another order gives the same tree, when the comparison never ties
      different names and no two different paths have the same components. */
  lemma {:induction false} OrderOfPathsDoesNotMatter(
    paths: seq<string>, others: seq<string>, le: (string, string) -> bool)
    requires TotallyOrders(le) && multiset(paths) == multiset(others) && NoSharedComponents(paths)
    ensures Tree(paths, le) == Tree(others, le)
  {
    TreeIsCorrect(paths, le);
    TreeIsCorrect(others, le);
    forall leaf: Leaf ensures Wanted(paths)[leaf] == Wanted(others)[leaf] {
      WantedCount(paths, leaf);
      WantedCount(others, leaf);
    }
    forall a, b | a in Wanted(paths) && b in Wanted(paths) && a.0 == b.0 ensures a == b {
      WantedCount(paths, a);
      WantedCount(paths, b);
      assert a.1 in multiset(paths) && b.1 in multiset(paths);
    }
    TidyTreesWithSameLeaves(Tree(paths, le), Tree(others, le), "", le, []);
  }

  // ---------- paths with the same components keep their listed order ----------

  /** The listed paths reached through exactly these names, in order of appearance. */
  function PathsAt(nodes: seq<Node>, chain: seq<string>): seq<string>
    decreases nodes, 0
  {
    if nodes == [] then [] else NodePathsAt(nodes[0], chain) + PathsAt(nodes[1..], chain)
  }

  function NodePathsAt(n: Node, chain: seq<string>): seq<string>
    decreases n, 1
  {
    if chain == [] || chain[0] != n.name then []
    else match n
      case DirNode(_, _, children) => PathsAt(children, chain[1..])
      case FileNode(_, path) => if |chain| == 1 then [path] else []
  }

  function DirPathsAt(d: Dir, chain: seq<string>): seq<string>
    decreases d, 1
  {
    DirsPathsAt(d.dirs, chain) + FilesPathsAt(d.files, chain)
  }

  function DirsPathsAt(dirs: seq<Dir>, chain: seq<string>): seq<string>
    decreases dirs, 0
  {
    if dirs == [] then [] else ChildPathsAt(dirs[0], chain) + DirsPathsAt(dirs[1..], chain)
  }

  function ChildPathsAt(d: Dir, chain: seq<string>): seq<string>
    decreases d, 2
  {
    if chain == [] || chain[0] != d.name then [] else DirPathsAt(d, chain[1..])
  }

  function FilesPathsAt(files: seq<File>, chain: seq<string>): seq<string> {
    if files == [] then []
    else FilesPathsAt(files[..|files| - 1], chain) + FilePathAt(files[|files| - 1], chain)
  }

  function FilePathAt(f: File, chain: seq<string>): seq<string> {
    if chain == [f.name] then [f.path] else []
  }

  function ListedAt(paths: seq<string>, chain: seq<string>): seq<string> {
    if paths == [] then []
    else
      var last := paths[|paths| - 1];
      ListedAt(paths[..|paths| - 1], chain) + if Components(last) == chain then [last] else []
  }

  lemma {:induction false} PathsAtAppend(a: seq<Node>, b: seq<Node>, chain: seq<string>)
    ensures PathsAt(a + b, chain) == PathsAt(a, chain) + PathsAt(b, chain)
  {
    if a == [] {
      assert a + b == b;
    } else {
      assert (a + b)[1..] == a[1..] + b;
      PathsAtAppend(a[1..], b, chain);
    }
  }

  /** A stable sort never moves a node past one of the same name. */
  lemma {:induction false} PlaceKeepsPaths(n: Node, nodes: seq<Node>, le: (string, string) -> bool, chain: seq<string>)
    requires Ordering(le)
    ensures PathsAt(Place(n, nodes, le), chain) == NodePathsAt(n, chain) + PathsAt(nodes, chain)
  {
    var placed := Place(n, nodes, le);
    if nodes == [] || le(n.name, nodes[0].name) {
      assert placed[1..] == nodes;
    } else {
      assert placed[1..] == Place(n, nodes[1..], le);
      PlaceKeepsPaths(n, nodes[1..], le, chain);
      assert n.name != nodes[0].name;
      SwapApart(NodePathsAt(n, chain), NodePathsAt(nodes[0], chain), PathsAt(nodes[1..], chain));
    }
  }

  lemma SwapApart(a: seq<string>, b: seq<string>, rest: seq<string>)
    requires a == [] || b == []
    ensures b + (a + rest) == a + (b + rest)
  {
  }

  lemma {:induction false} SortKeepsPaths(nodes: seq<Node>, le: (string, string) -> bool, chain: seq<string>)
    requires Ordering(le)
    ensures PathsAt(Sort(nodes, le), chain) == PathsAt(nodes, chain)
  {
    if nodes != [] {
      SortKeepsPaths(nodes[1..], le, chain);
      PlaceKeepsPaths(nodes[0], Sort(nodes[1..], le), le, chain);
    }
  }

  lemma {:induction false} FileNodesPaths(files: seq<File>, chain: seq<string>)
    ensures PathsAt(FileNodes(files), chain) == FilesPathsAt(files, chain)
  {
    if files != [] {
      var front, last := files[..|files| - 1], files[|files| - 1];
      FileNodesPaths(front, chain);
      FileNodesSnoc(front, last);
      assert files == front + [last];
      PathsAtAppend(FileNodes(front), [FileNode(last.name, last.path)], chain);
    }
  }

  lemma {:induction false} FileNodesSnoc(files: seq<File>, f: File)
    ensures FileNodes(files + [f]) == FileNodes(files) + [FileNode(f.name, f.path)]
  {
    if files != [] {
      assert (files + [f])[1..] == files[1..] + [f];
      FileNodesSnoc(files[1..], f);
    }
  }

  lemma {:induction false} ToNodesPaths(d: Dir, le: (string, string) -> bool, chain: seq<string>)
    requires Ordering(le)
    ensures PathsAt(ToNodes(d, le), chain) == DirPathsAt(d, chain)
    decreases d, 1
  {
    DirNodesPaths(d.dirs, le, chain);
    FileNodesPaths(d.files, chain);
    SortKeepsPaths(DirNodes(d.dirs, le), le, chain);
    SortKeepsPaths(FileNodes(d.files), le, chain);
    PathsAtAppend(Sort(DirNodes(d.dirs, le), le), Sort(FileNodes(d.files), le), chain);
  }

  lemma {:induction false} DirNodesPaths(dirs: seq<Dir>, le: (string, string) -> bool, chain: seq<string>)
    requires Ordering(le)
    ensures PathsAt(DirNodes(dirs, le), chain) == DirsPathsAt(dirs, chain)
    decreases dirs, 0
  {
    if dirs != [] {
      if chain != [] {
        ToNodesPaths(dirs[0], le, chain[1..]);
      }
      DirNodesPaths(dirs[1..], le, chain);
      assert DirNodes(dirs, le)[1..] == DirNodes(dirs[1..], le);
    }
  }

  /** Directories of other names contribute nothing. */
  lemma {:induction false} OthersContributeNothing(dirs: seq<Dir>, chain: seq<string>)
    requires chain == [] || forall sub | sub in dirs :: sub.name != chain[0]
    ensures DirsPathsAt(dirs, chain) == []
  {
    if dirs != [] {
      OthersContributeNothing(dirs[1..], chain);
    }
  }

  lemma {:induction false} DirsPathsSplit(dirs: seq<Dir>, k: nat, chain: seq<string>)
    requires k < |dirs| && forall i, j | 0 <= i < j < |dirs| :: dirs[i].name != dirs[j].name
    requires chain != [] && chain[0] == dirs[k].name
    ensures DirsPathsAt(dirs, chain) == DirPathsAt(dirs[k], chain[1..])
  {
    if k == 0 {
      OthersContributeNothing(dirs[1..], chain);
    } else {
      DirsPathsSplit(dirs[1..], k - 1, chain);
    }
  }

  /** Only the directories of the chain's first name matter. */
  lemma {:induction false} SameNamesakes(a: seq<Dir>, b: seq<Dir>, chain: seq<string>)
    requires forall i, j | 0 <= i < j < |a| :: a[i].name != a[j].name
    requires forall i, j | 0 <= i < j < |b| :: b[i].name != b[j].name
    requires chain != [] && |a| <= |b|
    requires forall i | 0 <= i < |a| :: b[i].name == a[i].name && (a[i].name == chain[0] ==> b[i] == a[i])
    requires forall i | |a| <= i < |b| :: b[i].name != chain[0]
    ensures DirsPathsAt(a, chain) == DirsPathsAt(b, chain)
  {
    if k: nat :| k < |a| && a[k].name == chain[0] {
      DirsPathsSplit(a, k, chain);
      DirsPathsSplit(b, k, chain);
    } else {
      forall sub | sub in b ensures sub.name != chain[0] {
        var i: nat :| i < |b| && b[i] == sub;
        assert i < |a| ==> a[i].name != chain[0];
      }
      OthersContributeNothing(a, chain);
      OthersContributeNothing(b, chain);
    }
  }

  lemma {:induction false} InsertAppendsPath(d: Dir, parts: seq<string>, path: string, chain: seq<string>)
    requires parts != [] && Sound(d)
    ensures DirPathsAt(Insert(d, parts, path), chain) == DirPathsAt(d, chain) + if parts == chain then [path] else []
    decreases |parts|, 1
  {
    var e := Insert(d, parts, path);
    if |parts| == 1 {
      assert parts == [parts[0]];
      assert e.files[..|d.files|] == d.files;
    } else if chain == [] {
      OthersContributeNothing(d.dirs, chain);
      OthersContributeNothing(e.dirs, chain);
    } else {
      InsertAppendsBelow(d, parts, path, chain);
      LongChainHasNoFile(d.files, chain);
    }
  }

  lemma {:induction false} InsertAppendsBelow(d: Dir, parts: seq<string>, path: string, chain: seq<string>)
    requires |parts| > 1 && chain != [] && Sound(d)
    ensures DirsPathsAt(Insert(d, parts, path).dirs, chain)
         == DirsPathsAt(d.dirs, chain) + if parts == chain then [path] else []
    decreases |parts|, 0
  {
    InsertSound(d, parts, path);
    var e, k := Insert(d, parts, path), FindDir(d.dirs, parts[0]);
    if chain[0] != parts[0] {
      SameNamesakes(d.dirs, e.dirs, chain);
    } else {
      assert chain == parts <==> chain[1..] == parts[1..] by {
        assert chain == [chain[0]] + chain[1..] && parts == [parts[0]] + parts[1..];
      }
      if k >= 0 {
        assert d.dirs[k] in d.dirs;
        InsertAppendsPath(d.dirs[k], parts[1..], path, chain[1..]);
        DirsPathsSplit(d.dirs, k, chain);
        DirsPathsSplit(e.dirs, k, chain);
      } else {
        var sub := Dir(parts[0], Join(d.path, parts[0]), [], []);
        InsertAppendsPath(sub, parts[1..], path, chain[1..]);
        OthersContributeNothing(d.dirs, chain);
        DirsPathsSplit(e.dirs, |d.dirs|, chain);
      }
    }
  }

  lemma {:induction false} LongChainHasNoFile(files: seq<File>, chain: seq<string>)
    ensures |chain| > 1 ==> FilesPathsAt(files, chain) == []
  {
    if files != [] {
      LongChainHasNoFile(files[..|files| - 1], chain);
    }
  }

  /** Paths with the same components appear in the order in which they are listed. */
  lemma {:induction false} SameComponentsKeepListedOrder(
    paths: seq<string>, le: (string, string) -> bool, chain: seq<string>)
    requires Ordering(le) && chain != []
    ensures PathsAt(Tree(paths, le), chain) == ListedAt(paths, chain)
  {
    ToNodesPaths(InsertAll(paths), le, chain);
    InsertAllPaths(paths, chain);
  }

  lemma {:induction false} InsertAllPaths(paths: seq<string>, chain: seq<string>)
    requires chain != []
    ensures DirPathsAt(InsertAll(paths), chain) == ListedAt(paths, chain)
  {
    if paths != [] {
      var front, last := paths[..|paths| - 1], paths[|paths| - 1];
      InsertAllPaths(front, chain);
      InsertAllSound(front);
      if Components(last) != [] {
        InsertAppendsPath(InsertAll(front), Components(last), last, chain);
      }
    }
  }

  lemma {:induction false} ListedAtAppend(a: seq<string>, b: seq<string>, chain: seq<string>)
    ensures ListedAt(a + b, chain) == ListedAt(a, chain) + ListedAt(b, chain)
  {
    if b == [] {
      assert a + b == a;
    } else {
      assert (a + b)[..|a + b| - 1] == a + b[..|b| - 1];
      ListedAtAppend(a, b[..|b| - 1], chain);
    }
  }

  /** The first path listed at a chain from position `i` on is the one at `i`, if it has that chain. */
  lemma {:induction false} ListedAtFrom(paths: seq<string>, i: nat, chain: seq<string>)
    requires i < |paths| && Components(paths[i]) == chain
    ensures |ListedAt(paths, chain)| > |ListedAt(paths[..i], chain)|
    ensures ListedAt(paths, chain)[|ListedAt(paths[..i], chain)|] == paths[i]
  {
    assert paths == paths[..i + 1] + paths[i + 1..] && paths[..i + 1][..i] == paths[..i];
    ListedAtAppend(paths[..i + 1], paths[i + 1..], chain);
  }

  /** Exactly when the order of the list is irrelevant: every reordering gives the same tree if and only if
      no two different listed paths have the same components. */
  lemma {:induction false} OrderIsIrrelevantIffNoSharedComponents(paths: seq<string>, le: (string, string) -> bool)
    requires TotallyOrders(le)
    ensures (forall others: seq<string> | multiset(others) == multiset(paths) :: Tree(others, le) == Tree(paths, le))
       <==> NoSharedComponents(paths)
  {
    if NoSharedComponents(paths) {
      forall others: seq<string> | multiset(others) == multiset(paths) ensures Tree(others, le) == Tree(paths, le) {
        OrderOfPathsDoesNotMatter(paths, others, le);
      }
    } else {
      var p, q :| p in paths && q in paths && Components(p) == Components(q) != [] && p != q;
      var i: nat :| i < |paths| && paths[i] == p;
      var j: nat :| j < |paths| && paths[j] == q;
      var others := SwapShowsInTree(paths, if i < j then i else j, if i < j then j else i, le);
    }
  }

  lemma {:induction false} SwapShowsInTree(
    paths: seq<string>, i: nat, j: nat, le: (string, string) -> bool) returns (others: seq<string>)
    requires TotallyOrders(le) && i < j < |paths| && paths[i] != paths[j]
    requires Components(paths[i]) == Components(paths[j]) != []
    ensures multiset(others) == multiset(paths) && Tree(others, le) != Tree(paths, le)
  {
    var chain := Components(paths[i]);
    others := paths[i := paths[j]][j := paths[i]];
    assert others[..i] == paths[..i];
    ListedAtFrom(paths, i, chain);
    ListedAtFrom(others, i, chain);
    SameComponentsKeepListedOrder(paths, le, chain);
    SameComponentsKeepListedOrder(others, le, chain);
  }
}
