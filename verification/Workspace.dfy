/** The SDK's workspace store, and the file tree a session shows of it. */
module Workspace {
  import opened Common
  import opened Text
  import FileTree

  /** A file value in a message or a state; anything without a string path and contents is malformed. */
  datatype Entry = Usable(path: string, content: string) | Malformed

  /** `agent_connected` and `cf_agent_state` carry a snapshot, `file_generated` and `file_regenerated` one file. */
  datatype Message = Snapshot(files: seq<Entry>) | FileMessage(file: Entry) | Unrelated

  datatype Change = Reset(files: nat) | Upsert(path: string)

  type Files = map<string, string>

  /** The files of a snapshot: of several with one path, the last. */
  function Loaded(entries: seq<Entry>): Files {
    if entries == [] then map[] else Upserted(Loaded(entries[..|entries| - 1]), entries[|entries| - 1])
  }

  function Upserted(files: Files, entry: Entry): Files {
    if entry.Usable? then files[entry.path := entry.content] else files
  }

  function Step(files: Files, msg: Message): Files {
    match msg
    case Snapshot(entries) => Loaded(entries)
    case FileMessage(entry) => Upserted(files, entry)
    case Unrelated => files
  }

  function Emits(msg: Message): seq<Change> {
    match msg
    case Snapshot(entries) => [Reset(|Loaded(entries)|)]
    case FileMessage(entry) => if entry.Usable? then [Upsert(entry.path)] else []
    case Unrelated => []
  }

  class WorkspaceStore {
    var files: Files
    var events: seq<Change>

    constructor ()
      ensures files == map[] && events == []
    {
      files, events := map[], [];
    }

    method ApplyStateSnapshot(entries: seq<Entry>)
      modifies this
      ensures files == Loaded(entries) && events == old(events) + [Reset(|Loaded(entries)|)]
    {
      files := map[];
      for i := 0 to |entries|
        invariant files == Loaded(entries[..i]) && events == old(events)
      {
        assert entries[..i + 1][..i] == entries[..i];
        if entries[i].Usable? {
          files := files[entries[i].path := entries[i].content];
        }
      }
      assert entries[..|entries|] == entries;
      events := events + [Reset(|files|)];
    }

    method ApplyFileUpsert(entry: Entry)
      modifies this
      ensures files == Upserted(old(files), entry)
      ensures events == old(events) + Emits(FileMessage(entry))
    {
      if entry.Malformed? { return; }
      files := files[entry.path := entry.content];
      events := events + [Upsert(entry.path)];
    }

    method ApplyWsMessage(msg: Message)
      modifies this
      ensures files == Step(old(files), msg)
      ensures events == old(events) + Emits(msg)
    {
      match msg {
        case Snapshot(entries) => ApplyStateSnapshot(entries);
        case FileMessage(entry) => ApplyFileUpsert(entry);
        case Unrelated =>
      }
    }

    /** The paths in ascending order, whatever order the map lists its keys in. */
    method Paths() returns (paths: seq<string>)
      ensures Ascending(paths) && forall path :: path in paths <==> path in files
    {
      paths := [];
      var rest := files.Keys;
      while rest != {}
        invariant Ascending(paths) && rest <= files.Keys
        invariant forall path :: path in paths <==> path in files && path !in rest
      {
        var path :| path in rest;
        PlaceKeepsAscending(path, paths);
        paths := Place(path, paths);
        rest := rest - {path};
      }
    }

    /** The session's tree view of its workspace: each file is one leaf, reached through its components. */
    method Tree(le: (string, string) -> bool) returns (nodes: seq<FileTree.Node>)
      requires FileTree.Ordering(le)
      ensures FileTree.Tidy(nodes, "", le) && FileTree.Located(nodes, "")
      ensures forall path ::
                FileTree.Leaves(nodes, [])[(FileTree.Components(path), path)]
                  == if path in files && FileTree.Components(path) != [] then 1 else 0
      ensures exists paths :: Lists(paths, files.Keys) && nodes == FileTree.Tree(paths, le)
    {
      var paths := Paths();
      nodes := FileTree.BuildFileTree(paths, le);
      FileTree.TreeIsCorrect(paths, le);
      forall path ensures FileTree.Leaves(nodes, [])[(FileTree.Components(path), path)]
                            == if path in files && FileTree.Components(path) != [] then 1 else 0 {
        WantedOnce(paths, path);
      }
      assert Lists(paths, files.Keys);
    }
  }

  // ---------- the last write wins ----------

  function After(msgs: seq<Message>): Files {
    if msgs == [] then map[] else Step(After(msgs[..|msgs| - 1]), msgs[|msgs| - 1])
  }

  /** The last usable entry with this path. */
  function LastEntry(entries: seq<Entry>, path: string): Option<string> {
    if entries == [] then None
    else if entries[|entries| - 1].Usable? && entries[|entries| - 1].path == path
        then Some(entries[|entries| - 1].content)
    else LastEntry(entries[..|entries| - 1], path)
  }

  /** Every entry received since the last snapshot, its own included. */
  function SinceSnapshot(msgs: seq<Message>): seq<Entry> {
    if msgs == [] then []
    else match msgs[|msgs| - 1]
      case Snapshot(entries) => entries
      case FileMessage(entry) => SinceSnapshot(msgs[..|msgs| - 1]) + [entry]
      case Unrelated => SinceSnapshot(msgs[..|msgs| - 1])
  }

  function Get(files: Files, path: string): Option<string> {
    if path in files then Some(files[path]) else None
  }

  lemma {:induction false} LoadedIsLastEntry(entries: seq<Entry>, path: string)
    ensures Get(Loaded(entries), path) == LastEntry(entries, path)
  {
    if entries != [] {
      LoadedIsLastEntry(entries[..|entries| - 1], path);
    }
  }

  lemma {:induction false} AfterIsLoaded(msgs: seq<Message>)
    ensures After(msgs) == Loaded(SinceSnapshot(msgs))
  {
    if msgs != [] {
      var front := msgs[..|msgs| - 1];
      AfterIsLoaded(front);
      if msgs[|msgs| - 1].FileMessage? {
        var entries := SinceSnapshot(front);
        assert (entries + [msgs[|msgs| - 1].file])[..|entries|] == entries;
      }
    }
  }

  /** After any messages a path reads as its last write since the last snapshot, that snapshot
      included, and as absent when there is none. */
  lemma ReadGivesLastWrite(msgs: seq<Message>, path: string)
    ensures Get(After(msgs), path) == LastEntry(SinceSnapshot(msgs), path)
  {
    AfterIsLoaded(msgs);
    LoadedIsLastEntry(SinceSnapshot(msgs), path);
  }

  /** Whatever changes is reported: a message that changes what a path reads as reports that path, or a reset with the
      number of files there are now; and only these two are reported. */
  lemma ChangesAreReported(files: Files, msg: Message, path: string)
    ensures var next, events := Step(files, msg), Emits(msg);
            && (Get(next, path) != Get(files, path) ==> events == [Upsert(path)] || events == [Reset(|next|)])
            && (events == [] || events == [Reset(|next|)] || exists p :: p in next && events == [Upsert(p)])
            && (events == [Upsert(path)] ==> exists content :: msg == FileMessage(Usable(path, content)))
            && (msg.Snapshot? <==> events == [Reset(|next|)])
  {
    if msg.FileMessage? && msg.file.Usable? {
      assert msg.file.path in Step(files, msg);
      assert msg == FileMessage(Usable(msg.file.path, msg.file.content));
    }
  }

  // ---------- sorted paths ----------

  ghost predicate Ascending(s: seq<string>) {
    forall i, j | 0 <= i < j < |s| :: Before(s[i], s[j])
  }

  function Place(path: string, sorted: seq<string>): seq<string> {
    if sorted == [] || Before(path, sorted[0]) then [path] + sorted else [sorted[0]] + Place(path, sorted[1..])
  }

  lemma {:induction false} PlaceKeepsAscending(path: string, sorted: seq<string>)
    requires Ascending(sorted) && path !in sorted
    ensures Ascending(Place(path, sorted))
    ensures forall x :: x in Place(path, sorted) <==> x == path || x in sorted
  {
    if sorted != [] {
      var head, rest := sorted[0], sorted[1..];
      assert sorted == [head] + rest;
      if Before(path, head) {
        forall x | x in rest ensures Before(path, x) { BeforeIsTransitive(path, head, x); }
      } else {
        PlaceKeepsAscending(path, rest);
        BeforeIsTotal(path, head);
        forall x | x in Place(path, rest) ensures Before(head, x) {}
      }
    }
  }

  ghost predicate Lists(paths: seq<string>, keys: set<string>) {
    Ascending(paths) && forall path :: path in paths <==> path in keys
  }

  /** There is only one ascending list of a set of paths. */
  lemma {:induction false} ListIsUnique(a: seq<string>, b: seq<string>, keys: set<string>)
    requires Lists(a, keys) && Lists(b, keys)
    ensures a == b
  {
    EmptyListsNothing(a, keys);
    EmptyListsNothing(b, keys);
    if a != [] {
      assert a[0] in a;
      var i :| 0 <= i < |b| && b[i] == a[0];
      assert b[0] in b;
      var j :| 0 <= j < |a| && a[j] == b[0];
      FirstsMeet(a, b, i, j);
      TailLists(a, keys);
      TailLists(b, keys);
      ListIsUnique(a[1..], b[1..], keys - {a[0]});
      assert a == [a[0]] + a[1..] && b == [b[0]] + b[1..];
    }
  }

  lemma EmptyListsNothing(s: seq<string>, keys: set<string>)
    requires Lists(s, keys)
    ensures s == [] <==> keys == {}
  {
    if s != [] { assert s[0] in s; }
  }

  lemma FirstsMeet(a: seq<string>, b: seq<string>, i: nat, j: nat)
    requires Ascending(a) && Ascending(b) && i < |b| && j < |a| && b[i] == a[0] && a[j] == b[0]
    ensures a[0] == b[0]
  {
    if i > 0 && j > 0 {
      BeforeIsTransitive(a[0], b[0], a[0]);
      BeforeIsStrict(a[0]);
    }
  }

  lemma TailLists(s: seq<string>, keys: set<string>)
    requires s != [] && Lists(s, keys)
    ensures Lists(s[1..], keys - {s[0]})
  {
    assert s == [s[0]] + s[1..];
    forall x | x in s[1..] ensures x != s[0] {
      BeforeIsStrict(x);
    }
  }

  /** So the tree depends only on which files there are, not on the order in which they came: the
      sorted list settles even paths with the same components. */
  lemma TreeDependsOnFilesOnly(
    a: Files, b: Files, aPaths: seq<string>, bPaths: seq<string>, le: (string, string) -> bool)
    requires a.Keys == b.Keys && Lists(aPaths, a.Keys) && Lists(bPaths, b.Keys)
    ensures FileTree.Tree(aPaths, le) == FileTree.Tree(bPaths, le)
  {
    ListIsUnique(aPaths, bPaths, a.Keys);
  }

  /** Of an ascending list each path with a component is wanted once. */
  lemma {:induction false} WantedOnce(paths: seq<string>, path: string)
    requires Ascending(paths)
    ensures FileTree.Wanted(paths)[(FileTree.Components(path), path)]
            == if path in paths && FileTree.Components(path) != [] then 1 else 0
  {
    if paths != [] {
      var front, last := paths[..|paths| - 1], paths[|paths| - 1];
      WantedOnce(front, path);
      assert paths == front + [last];
      LastIsNew(front, last);
      FileTree.WantedSnoc(paths, (FileTree.Components(path), path));
    }
  }

  lemma LastIsNew(front: seq<string>, last: string)
    requires Ascending(front + [last])
    ensures last !in front
  {
    var all := front + [last];
    forall i | 0 <= i < |front| ensures front[i] != last {
      assert Before(all[i], all[|front|]);
      BeforeIsStrict(last);
    }
  }
}
