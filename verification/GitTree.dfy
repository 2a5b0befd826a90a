/**
 Browsing a commit: directory listing and file fetch, which walk the same object store on their own.
 */
module GitTree {
  import opened Wrappers
  import opened PyText
  import Sorting = StableSort

  type Id = string

  datatype Mode = DirectoryMode | FileMode | ExecutableMode | SymlinkMode | SubmoduleMode | OtherMode
  datatype Kind = TreeKind | BlobKind | CommitKind

  datatype Entry = Entry(name: string, mode: Mode, id: Id)
  datatype Object = Directory(entries: seq<Entry>) | File(data: string)
  type Store = map<Id, Object>

  // What the object library says an entry is.
  function KindOf(m: Mode): Kind {
    match m
    case DirectoryMode => TreeKind
    case SubmoduleMode => CommitKind
    case _ => BlobKind
  }

  // What a listing says an entry is; a submodule is listed as a directory.
  function ListedKind(m: Mode): Kind {
    if m.DirectoryMode? || m.SubmoduleMode? then TreeKind else BlobKind
  }

  // BadRequest is the application error for a path of the wrong kind; Crash is an uncaught exception.
  datatype Failure = NotFound | BadRequest | Crash
  datatype Result<+T> = Ok(value: T) | Failed(error: Failure)

  datatype Listed = Listed(name: string, kind: Kind, path: string, sha: Id)

  // ----- The two walks -----

  function Lookup(entries: seq<Entry>, name: string): (r: Option<Entry>)
    ensures r.Some? ==> r.value in entries && r.value.name == name
    ensures r.None? <==> forall e :: e in entries ==> e.name != name
  {
    if entries == [] then None
    else if entries[0].name == name then Some(entries[0])
    else Lookup(entries[1..], name)
  }

  /** Follows directory names from `id`; `onFile` is the error for a name that is not a directory. */
  function Walk(store: Store, id: Id, parts: seq<string>, onFile: Failure): Result<Id>
    decreases |parts|
  {
    if parts == [] then Ok(id)
    else if id !in store || !store[id].Directory? then Failed(Crash)
    else
      match Lookup(store[id].entries, parts[0])
      case None => Failed(NotFound)
      case Some(e) =>
        if KindOf(e.mode) != TreeKind then Failed(onFile) else Walk(store, e.id, parts[1..], onFile)
  }

  function FullPath(directory: string, name: string): string {
    if directory != "" then StripLeft(directory + "/" + name, '/') else name
  }

  function List(entries: seq<Entry>, directory: string): (r: seq<Listed>)
    ensures |r| == |entries|
    ensures forall i :: 0 <= i < |r| ==>
      r[i] == Listed(entries[i].name, ListedKind(entries[i].mode), FullPath(directory, entries[i].name), entries[i].id)
  {
    if entries == [] then []
    else
      [Listed(entries[0].name, ListedKind(entries[0].mode), FullPath(directory, entries[0].name), entries[0].id)]
      + List(entries[1..], directory)
  }

  // A blob whose object is missing has no size to show.
  ghost predicate SizesKnown(store: Store, entries: seq<Entry>) {
    forall e :: e in entries && ListedKind(e.mode) == BlobKind ==> e.id in store && store[e.id].File?
  }

  /** Directories first, then by name without regard to case. */
  predicate ListedLe(a: Listed, b: Listed) {
    if a.kind == TreeKind && b.kind != TreeKind then true
    else if a.kind != TreeKind && b.kind == TreeKind then false
    else TextLe(LowerText(a.name), LowerText(b.name))
  }

  ghost function GetTree(store: Store, root: Id, path: string): Result<seq<Listed>> {
    match Walk(store, root, Parts(path), BadRequest)
    case Failed(e) => Failed(e)
    case Ok(id) =>
      if id !in store || !store[id].Directory? || !SizesKnown(store, store[id].entries) then Failed(Crash)
      else Ok(Sorting.Sort(List(store[id].entries, Strip(path, '/')), ListedLe))
  }

  function GetBlob(store: Store, root: Id, path: string): Result<Id> {
    var parts := Parts(path);
    if parts == [] then Failed(BadRequest)
    else
      match Walk(store, root, parts[..|parts| - 1], NotFound)
      case Failed(e) => Failed(e)
      case Ok(id) =>
        if id !in store || !store[id].Directory? then Failed(Crash)
        else
          match Lookup(store[id].entries, parts[|parts| - 1])
          case None => Failed(NotFound)
          case Some(e) =>
            if KindOf(e.mode) != BlobKind then Failed(BadRequest)
            else if e.id !in store || !store[e.id].File? then Failed(Crash)
            else Ok(e.id)
  }

  // ----- The same two calls as loops -----

  method WalkLoop(store: Store, root: Id, parts: seq<string>, onFile: Failure) returns (r: Result<Id>)
    ensures r == Walk(store, root, parts, onFile)
  {
    var tree := root;
    for i := 0 to |parts|
      invariant Walk(store, root, parts, onFile) == Walk(store, tree, parts[i..], onFile)
    {
      assert parts[i..][1..] == parts[i + 1..];
      if tree !in store || !store[tree].Directory? {
        return Failed(Crash);
      }
      var entry := Lookup(store[tree].entries, parts[i]);
      if entry.None? {
        return Failed(NotFound);
      }
      if KindOf(entry.value.mode) != TreeKind {
        return Failed(onFile);
      }
      tree := entry.value.id;
    }
    r := Ok(tree);
  }

  lemma ListSnoc(entries: seq<Entry>, e: Entry, directory: string)
    ensures List(entries + [e], directory)
         == List(entries, directory) + [Listed(e.name, ListedKind(e.mode), FullPath(directory, e.name), e.id)]
  {
    var all, before := entries + [e], List(entries, directory);
    var x := Listed(e.name, ListedKind(e.mode), FullPath(directory, e.name), e.id);
    forall i | 0 <= i < |all| ensures List(all, directory)[i] == (before + [x])[i] {
      assert i < |entries| ==> all[i] == entries[i];
    }
  }

  method ListEntries(store: Store, tree: seq<Entry>, directory: string) returns (r: Result<seq<Listed>>)
    ensures r == if SizesKnown(store, tree) then Ok(List(tree, directory)) else Failed(Crash)
  {
    var listed: seq<Listed> := [];
    for i := 0 to |tree|
      invariant listed == List(tree[..i], directory)
      invariant SizesKnown(store, tree[..i])
    {
      hide List, FullPath;
      var e := tree[i];
      assert tree[..i + 1] == tree[..i] + [e];
      ListSnoc(tree[..i], e, directory);
      if ListedKind(e.mode) == BlobKind && (e.id !in store || !store[e.id].File?) {
        assert e in tree;
        return Failed(Crash);
      }
      listed := listed + [Listed(e.name, ListedKind(e.mode), FullPath(directory, e.name), e.id)];
    }
    assert tree[..|tree|] == tree;
    r := Ok(listed);
  }

  method GetTreeSync(store: Store, root: Id, path: string) returns (r: Result<seq<Listed>>)
    ensures r == GetTree(store, root, path)
  {
    var walked := WalkLoop(store, root, Parts(path), BadRequest);
    if walked.Failed? {
      return Failed(walked.error);
    }
    if walked.value !in store || !store[walked.value].Directory? {
      return Failed(Crash);
    }
    var listed := ListEntries(store, store[walked.value].entries, Strip(path, '/'));
    if listed.Failed? {
      return Failed(listed.error);
    }
    r := Ok(Sorting.Sort(listed.value, ListedLe));
  }

  method GetBlobSync(store: Store, root: Id, path: string) returns (r: Result<Id>)
    ensures r == GetBlob(store, root, path)
  {
    if Strip(path, '/') == "" {
      return Failed(BadRequest);
    }
    var parts := Split(Strip(path, '/'), "/");
    var walked := WalkLoop(store, root, parts[..|parts| - 1], NotFound);
    if walked.Failed? {
      return Failed(walked.error);
    }
    if walked.value !in store || !store[walked.value].Directory? {
      return Failed(Crash);
    }
    var entry := Lookup(store[walked.value].entries, parts[|parts| - 1]);
    if entry.None? {
      return Failed(NotFound);
    }
    if KindOf(entry.value.mode) != BlobKind {
      return Failed(BadRequest);
    }
    if entry.value.id !in store || !store[entry.value.id].File? {
      return Failed(Crash);
    }
    r := Ok(entry.value.id);
  }

  // ----- Well-formed stores -----

  ghost predicate DirectoryOk(store: Store, rank: map<Id, nat>, id: Id, entries: seq<Entry>) {
    && (forall e :: e in entries ==> IsName(e.name))
    && (forall i, j :: 0 <= i < j < |entries| ==> entries[i].name != entries[j].name)
    && (forall e :: e in entries && KindOf(e.mode) == BlobKind ==> e.id in store && store[e.id].File?)
    && (forall e :: e in entries && KindOf(e.mode) == TreeKind ==>
          e.id in store && store[e.id].Directory? && e.id in rank && id in rank && rank[e.id] < rank[id])
  }

  /** Closed and without cycles: what an entry names is stored, and subdirectories rank below their parents. */
  ghost predicate StoreOk(store: Store, rank: map<Id, nat>) {
    forall id :: id in store && store[id].Directory? ==> DirectoryOk(store, rank, id, store[id].entries)
  }

  // ----- The files of a commit -----

  /** The blob that a path of names reaches below a directory. */
  function FileAt(store: Store, id: Id, parts: seq<string>): Option<Id>
    decreases |parts|
  {
    if parts == [] || id !in store || !store[id].Directory? then None
    else
      match Lookup(store[id].entries, parts[0])
      case None => None
      case Some(e) =>
        if |parts| == 1 then (if KindOf(e.mode) == BlobKind then Some(e.id) else None)
        else if KindOf(e.mode) == TreeKind then FileAt(store, e.id, parts[1..])
        else None
  }

  // A way of listing the directory at a path.
  type Lister = string -> Result<seq<Listed>>

  /** Listing a directory and, to the given depth, every directory listed in it. */
  ghost function Crawl(list: Lister, path: string, depth: nat): seq<(string, Id)>
    decreases depth, 2, 0
  {
    match list(path)
    case Failed(_) => []
    case Ok(listed) => CrawlListed(list, listed, depth)
  }

  ghost function CrawlListed(list: Lister, listed: seq<Listed>, depth: nat): seq<(string, Id)>
    decreases depth, 1, |listed|
  {
    if listed == [] then [] else CrawlEntry(list, listed[0], depth) + CrawlListed(list, listed[1..], depth)
  }

  ghost function CrawlEntry(list: Lister, x: Listed, depth: nat): seq<(string, Id)>
    decreases depth, 0, 0
  {
    if x.kind == BlobKind then [(x.path, x.sha)]
    else if depth == 0 then []
    else Crawl(list, x.path, depth - 1)
  }

  lemma {:induction false} WalkThenFile(store: Store, id: Id, parts: seq<string>, rest: seq<string>, onFile: Failure)
    requires Walk(store, id, parts, onFile).Ok? && rest != []
    ensures FileAt(store, id, parts + rest) == FileAt(store, Walk(store, id, parts, onFile).value, rest)
    decreases |parts|
  {
    if parts == [] {
      assert parts + rest == rest;
    } else {
      var e := Lookup(store[id].entries, parts[0]).value;
      assert (parts + rest)[1..] == parts[1..] + rest;
      WalkThenFile(store, e.id, parts[1..], rest, onFile);
    }
  }

  lemma {:induction false} WalkSnoc(store: Store, id: Id, parts: seq<string>, e: Entry, onFile: Failure)
    requires var w := Walk(store, id, parts, onFile);
      w.Ok? && w.value in store && store[w.value].Directory? && Lookup(store[w.value].entries, e.name) == Some(e)
    requires KindOf(e.mode) == TreeKind
    ensures Walk(store, id, parts + [e.name], onFile) == Ok(e.id)
    decreases |parts|
  {
    if parts == [] {
      assert (parts + [e.name])[1..] == [];
    } else {
      var d := Lookup(store[id].entries, parts[0]).value;
      assert (parts + [e.name])[1..] == parts[1..] + [e.name];
      WalkSnoc(store, d.id, parts[1..], e, onFile);
    }
  }

  lemma {:induction false} FileAtSnoc(store: Store, id: Id, parts: seq<string>, name: string, onFile: Failure)
    ensures FileAt(store, id, parts + [name]).Some? ==>
      var w := Walk(store, id, parts, onFile);
      w.Ok? && w.value in store && store[w.value].Directory?
      && var e := Lookup(store[w.value].entries, name);
         e.Some? && KindOf(e.value.mode) == BlobKind && FileAt(store, id, parts + [name]) == Some(e.value.id)
    decreases |parts|
  {
    if parts != [] && FileAt(store, id, parts + [name]).Some? {
      var d := Lookup(store[id].entries, parts[0]).value;
      assert (parts + [name])[1..] == parts[1..] + [name];
      FileAtSnoc(store, d.id, parts[1..], name, onFile);
    }
  }

  lemma LookupOwnName(entries: seq<Entry>, e: Entry)
    requires e in entries && forall i, j :: 0 <= i < j < |entries| ==> entries[i].name != entries[j].name
    ensures Lookup(entries, e.name) == Some(e)
  {
    var f := Lookup(entries, e.name).value;
    var i :| 0 <= i < |entries| && entries[i] == e;
    var j :| 0 <= j < |entries| && entries[j] == f;
  }

  // ----- What a crawl lists -----

  // A commit's root directory in a store, with the ranks that witness that the store has no cycles.
  datatype Commit = Commit(store: Store, rank: map<Id, nat>, root: Id)

  ghost predicate CommitOk(c: Commit) {
    StoreOk(c.store, c.rank)
    && c.root in c.store && c.store[c.root].Directory? && c.root in c.rank
  }

  // `id` is the directory that the names `pre` lead to.
  ghost predicate At(c: Commit, pre: seq<string>, id: Id) {
    CommitOk(c) && AllNames(pre) && Walk(c.store, c.root, pre, BadRequest) == Ok(id)
    && id in c.store && c.store[id].Directory? && id in c.rank
  }

  // How the entry `e` of the directory at `pre` ought to be listed.
  function ListedAs(pre: seq<string>, e: Entry): Listed {
    Listed(e.name, ListedKind(e.mode), Join(pre + [e.name], "/"), e.id)
  }

  ghost predicate DistinctNames(s: seq<Listed>) {
    forall i, j :: 0 <= i < j < |s| ==> s[i].name != s[j].name
  }

  /**
   `x` lists the entry `e` of the directory at `pre`; a subdirectory is again a directory to list, and
   what is listed as one but is a submodule cannot be listed.
   */
  ghost predicate Lists(list: Lister, c: Commit, pre: seq<string>, id: Id, x: Listed, e: Entry) {
    && id in c.store && c.store[id].Directory? && Lookup(c.store[id].entries, e.name) == Some(e)
    && x == ListedAs(pre, e) && AllNames(pre + [e.name])
    && (e.mode.SubmoduleMode? ==> list(x.path).Failed?)
    && (KindOf(e.mode) == TreeKind ==> At(c, pre + [e.name], e.id) && id in c.rank && c.rank[e.id] < c.rank[id])
  }

  ghost predicate Described(list: Lister, c: Commit, pre: seq<string>, id: Id, x: Listed) {
    exists e :: Lists(list, c, pre, id, x, e)
  }

  /** A listing of each directory holds its entries, each of them once. */
  ghost predicate Faithful(list: Lister, c: Commit) {
    forall pre, id :: At(c, pre, id) ==> FaithfulAt(list, c, pre, id)
  }

  ghost predicate FaithfulAt(list: Lister, c: Commit, pre: seq<string>, id: Id) {
    var t := list(Join(pre, "/"));
    && t.Ok? && DistinctNames(t.value)
    && (forall x :: x in t.value ==> Described(list, c, pre, id, x))
    && (forall e :: id in c.store && c.store[id].Directory? && e in c.store[id].entries ==>
          ListedAs(pre, e) in t.value && Lists(list, c, pre, id, ListedAs(pre, e), e))
  }

  lemma PathOfEntry(pre: seq<string>, name: string)
    requires AllNames(pre) && IsName(name)
    ensures FullPath(Join(pre, "/"), name) == Join(pre + [name], "/")
    ensures AllNames(pre + [name])
  {
    JoinSnoc(pre, name, "/");
    if pre != [] {
      JoinEnds(pre);
    }
  }

  // Listing with `GetTree`.
  ghost function TreeLister(c: Commit): Lister {
    (p: string) => GetTree(c.store, c.root, p)
  }

  lemma EntryIsListed(c: Commit, pre: seq<string>, id: Id, e: Entry)
    requires At(c, pre, id) && e in c.store[id].entries
    ensures Lists(TreeLister(c), c, pre, id, ListedAs(pre, e), e)
    ensures Listed(e.name, ListedKind(e.mode), FullPath(Join(pre, "/"), e.name), e.id) == ListedAs(pre, e)
  {
    var entries := c.store[id].entries;
    assert DirectoryOk(c.store, c.rank, id, entries);
    PathOfEntry(pre, e.name);
    LookupOwnName(entries, e);
    if KindOf(e.mode) == TreeKind {
      WalkSnoc(c.store, c.root, pre, e, BadRequest);
    }
    if e.mode.SubmoduleMode? {
      ListedDirectoryOpensIff(c.store, c.rank, c.root, pre, id, e);
    }
  }

  lemma {:induction false} TwiceCounts(s: seq<Listed>, i: nat, j: nat)
    requires i < j < |s| && s[i] == s[j]
    ensures multiset(s)[s[i]] >= 2
  {
    assert s == s[..j] + s[j..];
    assert s[..j][i] == s[i] && s[j..][0] == s[i];
    assert multiset(s) == multiset(s[..j]) + multiset(s[j..]);
    assert s[i] in multiset(s[..j]) && s[i] in multiset(s[j..]);
  }

  lemma {:induction false} DistinctCountsOnce(s: seq<Listed>, x: Listed)
    requires DistinctNames(s)
    ensures multiset(s)[x] <= 1
    decreases |s|
  {
    if s != [] {
      assert s == [s[0]] + s[1..];
      DistinctCountsOnce(s[1..], x);
      if x == s[0] {
        assert x !in s[1..];
      }
    }
  }

  lemma PermutationKeepsDistinct(s: seq<Listed>, t: seq<Listed>)
    requires multiset(s) == multiset(t) && DistinctNames(t)
    ensures DistinctNames(s)
  {
    forall i, j | 0 <= i < j < |s| ensures s[i].name != s[j].name {
      assert s[i] in multiset(s) && s[j] in multiset(s);
      assert s[i] in t && s[j] in t;
      if s[i] == s[j] {
        TwiceCounts(s, i, j);
        DistinctCountsOnce(t, s[i]);
      }
    }
  }

  lemma GetTreeIsFaithfulAt(c: Commit, pre: seq<string>, id: Id)
    requires At(c, pre, id)
    ensures FaithfulAt(TreeLister(c), c, pre, id)
  {
    var list := TreeLister(c);
    var entries := c.store[id].entries;
    var listed := List(entries, Join(pre, "/"));
    assert DirectoryOk(c.store, c.rank, id, entries);
    PartsOfJoin(pre);
    Sorting.SortPermutes(listed, ListedLe);
    PermutationKeepsDistinct(Sorting.Sort(listed, ListedLe), listed);
    forall x | x in listed ensures Described(list, c, pre, id, x) {
      var i :| 0 <= i < |entries| && listed[i] == x;
      EntryIsListed(c, pre, id, entries[i]);
      assert Lists(list, c, pre, id, x, entries[i]);
    }
    forall e | e in entries ensures ListedAs(pre, e) in listed && Lists(list, c, pre, id, ListedAs(pre, e), e) {
      var i :| 0 <= i < |entries| && entries[i] == e;
      EntryIsListed(c, pre, id, e);
      assert listed[i] == ListedAs(pre, e);
    }
  }

  lemma GetTreeIsFaithful(c: Commit)
    ensures Faithful(TreeLister(c), c)
  {
    forall pre, id | At(c, pre, id) ensures FaithfulAt(TreeLister(c), c, pre, id) {
      GetTreeIsFaithfulAt(c, pre, id);
    }
  }

  // `a` may stand before `b`: directories come first, and either kind goes by lower-cased name.
  ghost predicate MayPrecede(a: Listed, b: Listed) {
    if a.kind == b.kind || (a.kind != TreeKind && b.kind != TreeKind) then ComesFirst(LowerText(a.name), LowerText(b.name))
    else a.kind == TreeKind
  }

  lemma ListedLeMeans(a: Listed, b: Listed)
    ensures ListedLe(a, b) <==> MayPrecede(a, b)
  {
    TextLeMeans(LowerText(a.name), LowerText(b.name));
  }

  /** A listing puts directories first and orders either kind by name without regard to case. */
  lemma GetTreeIsSorted(store: Store, root: Id, path: string)
    requires GetTree(store, root, path).Ok?
    ensures var r := GetTree(store, root, path).value;
      forall i, j :: 0 <= i < j < |r| ==> MayPrecede(r[i], r[j])
  {
    forall a, b ensures ListedLe(a, b) || ListedLe(b, a) {
      TextLeTotal(LowerText(a.name), LowerText(b.name));
    }
    forall a, b, c | ListedLe(a, b) && ListedLe(b, c) ensures ListedLe(a, c) {
      if a.kind == TreeKind <==> c.kind == TreeKind {
        TextLeTransitive(LowerText(a.name), LowerText(b.name), LowerText(c.name));
      }
    }
    var id := Walk(store, root, Parts(path), BadRequest).value;
    Sorting.SortSorts(List(store[id].entries, Strip(path, '/')), ListedLe);
    var r := GetTree(store, root, path).value;
    hide GetTree, ListedLe, MayPrecede;
    forall i, j | 0 <= i < j < |r| ensures MayPrecede(r[i], r[j]) {
      ListedLeMeans(r[i], r[j]);
    }
  }

  /** Names that differ in case only stay in the order of the directory. */
  lemma GetTreeIsStable(store: Store, root: Id, path: string, kind: Kind, name: string)
    requires GetTree(store, root, path).Ok?
    ensures var same := (x: Listed) => x.kind == kind && LowerText(x.name) == name;
      var id := Walk(store, root, Parts(path), BadRequest).value;
      Filter(GetTree(store, root, path).value, same)
      == Filter(List(store[id].entries, Strip(path, '/')), same)
  {
    var same := (x: Listed) => x.kind == kind && LowerText(x.name) == name;
    var id := Walk(store, root, Parts(path), BadRequest).value;
    forall a, b | same(a) && same(b) ensures ListedLe(a, b) {
      TextLeTotal(name, name);
    }
    Sorting.SortIsStable(List(store[id].entries, Strip(path, '/')), ListedLe, same);
  }

  // ----- Crawls with any faithful listing -----

  lemma {:induction false} ListedSource(list: Lister, listed: seq<Listed>, depth: nat, y: (string, Id)) returns (x: Listed)
    requires y in CrawlListed(list, listed, depth)
    ensures x in listed && y in CrawlEntry(list, x, depth)
    decreases |listed|
  {
    if y in CrawlEntry(list, listed[0], depth) {
      x := listed[0];
    } else {
      x := ListedSource(list, listed[1..], depth, y);
    }
  }

  lemma {:induction false} ListedCovers(list: Lister, listed: seq<Listed>, depth: nat, x: Listed, y: (string, Id))
    requires x in listed && y in CrawlEntry(list, x, depth)
    ensures y in CrawlListed(list, listed, depth)
    decreases |listed|
  {
    if x != listed[0] {
      ListedCovers(list, listed[1..], depth, x, y);
    }
  }

  lemma FileAtLeaf(store: Store, id: Id, e: Entry)
    requires id in store && store[id].Directory? && Lookup(store[id].entries, e.name) == Some(e) && KindOf(e.mode) == BlobKind
    ensures FileAt(store, id, [e.name]) == Some(e.id)
  {
  }

  lemma FileAtStep(store: Store, id: Id, e: Entry, rest: seq<string>)
    requires id in store && store[id].Directory? && Lookup(store[id].entries, e.name) == Some(e) && KindOf(e.mode) == TreeKind
    requires rest != []
    ensures FileAt(store, id, [e.name] + rest) == FileAt(store, e.id, rest)
  {
    assert ([e.name] + rest)[1..] == rest;
  }

  lemma Regroup(pre: seq<string>, name: string, rest: seq<string>)
    ensures pre + [name] + rest == pre + ([name] + rest)
  {
  }

  /** Whatever a crawl lists under an entry is a file below it, at the path of names it is listed under. */
  lemma {:induction false} EntrySound(list: Lister, c: Commit, pre: seq<string>, id: Id, x: Listed, e: Entry, depth: nat,
                                      y: (string, Id)) returns (rest: seq<string>)
    requires Faithful(list, c) && Lists(list, c, pre, id, x, e) && y in CrawlEntry(list, x, depth)
    ensures rest != [] && rest[0] == e.name && AllNames(pre + rest) && y.0 == Join(pre + rest, "/")
    ensures FileAt(c.store, id, rest) == Some(y.1)
    decreases depth, 0
  {
    if x.kind == BlobKind {
      rest := [e.name];
      FileAtLeaf(c.store, id, e);
    } else {
      var below := CrawlSound(list, c, pre + [e.name], e.id, depth - 1, y);
      rest := [e.name] + below;
      FileAtStep(c.store, id, e, below);
      Regroup(pre, e.name, below);
    }
  }

  lemma {:induction false} CrawlSound(list: Lister, c: Commit, pre: seq<string>, id: Id, depth: nat, y: (string, Id))
    returns (rest: seq<string>)
    requires Faithful(list, c) && At(c, pre, id) && y in Crawl(list, Join(pre, "/"), depth)
    ensures rest != [] && AllNames(pre + rest) && y.0 == Join(pre + rest, "/")
    ensures FileAt(c.store, id, rest) == Some(y.1)
    decreases depth, 1
  {
    assert FaithfulAt(list, c, pre, id);
    var x := ListedSource(list, list(Join(pre, "/")).value, depth, y);
    var e :| Lists(list, c, pre, id, x, e);
    rest := EntrySound(list, c, pre, id, x, e, depth, y);
  }

  lemma CrawlCovers(list: Lister, path: string, depth: nat, x: Listed, y: (string, Id))
    requires list(path).Ok? && x in list(path).value
    requires if x.kind == BlobKind then y == (x.path, x.sha) else depth > 0 && y in Crawl(list, x.path, depth - 1)
    ensures y in Crawl(list, path, depth)
  {
    ListedCovers(list, list(path).value, depth, x, y);
  }

  lemma FirstEntry(store: Store, id: Id, rest: seq<string>) returns (e: Entry)
    requires FileAt(store, id, rest).Some?
    ensures id in store && store[id].Directory? && e in store[id].entries
    ensures rest != [] && rest == [e.name] + rest[1..]
    ensures if |rest| == 1 then KindOf(e.mode) == BlobKind && FileAt(store, id, rest) == Some(e.id)
            else KindOf(e.mode) == TreeKind && FileAt(store, id, rest) == FileAt(store, e.id, rest[1..])
  {
    e := Lookup(store[id].entries, rest[0]).value;
  }

  lemma FirstStep(list: Lister, c: Commit, pre: seq<string>, id: Id, rest: seq<string>) returns (e: Entry)
    requires Faithful(list, c) && At(c, pre, id) && FileAt(c.store, id, rest).Some?
    ensures rest != [] && rest == [e.name] + rest[1..]
    ensures list(Join(pre, "/")).Ok? && ListedAs(pre, e) in list(Join(pre, "/")).value
    ensures Lists(list, c, pre, id, ListedAs(pre, e), e)
    ensures if |rest| == 1 then KindOf(e.mode) == BlobKind && FileAt(c.store, id, rest) == Some(e.id)
            else KindOf(e.mode) == TreeKind && FileAt(c.store, id, rest) == FileAt(c.store, e.id, rest[1..])
  {
    e := FirstEntry(c.store, id, rest);
    assert FaithfulAt(list, c, pre, id);
    assert Lists(list, c, pre, id, ListedAs(pre, e), e);
  }

  /** A crawl deep enough lists every file. */
  lemma {:induction false} CrawlComplete(list: Lister, c: Commit, pre: seq<string>, id: Id, depth: nat, rest: seq<string>)
    requires Faithful(list, c) && At(c, pre, id) && depth >= c.rank[id] && FileAt(c.store, id, rest).Some?
    ensures (Join(pre + rest, "/"), FileAt(c.store, id, rest).value) in Crawl(list, Join(pre, "/"), depth)
    ensures AllNames(pre + rest)
    decreases depth
  {
    var e := FirstStep(list, c, pre, id, rest);
    var y := (Join(pre + rest, "/"), FileAt(c.store, id, rest).value);
    if |rest| > 1 {
      Regroup(pre, e.name, rest[1..]);
      CrawlComplete(list, c, pre + [e.name], e.id, depth - 1, rest[1..]);
    } else {
      assert rest == [e.name];
    }
    CrawlCovers(list, Join(pre, "/"), depth, ListedAs(pre, e), y);
  }

  ghost predicate DistinctPaths(s: seq<(string, Id)>) {
    forall i, j :: 0 <= i < j < |s| ==> s[i].0 != s[j].0
  }

  lemma JoinDeterminesNames(a: seq<string>, b: seq<string>)
    requires AllNames(a) && AllNames(b) && Join(a, "/") == Join(b, "/")
    ensures a == b
  {
    PartsOfJoin(a);
    PartsOfJoin(b);
  }

  /** Nothing is listed both under one entry and under a differently named one. */
  lemma EntriesDoNotMeet(list: Lister, c: Commit, pre: seq<string>, id: Id, depth: nat, x: Listed, others: seq<Listed>,
                         y: (string, Id), z: (string, Id))
    requires Faithful(list, c) && Described(list, c, pre, id, x)
    requires forall w :: w in others ==> w.name != x.name && Described(list, c, pre, id, w)
    requires y in CrawlEntry(list, x, depth) && z in CrawlListed(list, others, depth)
    ensures y.0 != z.0
  {
    var w := ListedSource(list, others, depth, z);
    var e :| Lists(list, c, pre, id, x, e);
    var f :| Lists(list, c, pre, id, w, f);
    var r := EntrySound(list, c, pre, id, x, e, depth, y);
    var s := EntrySound(list, c, pre, id, w, f, depth, z);
    assert (pre + r)[|pre|] == e.name && (pre + s)[|pre|] == f.name;
    if y.0 == z.0 {
      JoinDeterminesNames(pre + r, pre + s);
    }
  }

  lemma ConcatDistinct(s: seq<(string, Id)>, t: seq<(string, Id)>)
    requires DistinctPaths(s) && DistinctPaths(t) && forall y, z :: y in s && z in t ==> y.0 != z.0
    ensures DistinctPaths(s + t)
  {
    var u := s + t;
    forall i, j | 0 <= i < j < |u| ensures u[i].0 != u[j].0 {
      if i < |s| <= j {
        assert u[i] in s && u[j] == t[j - |s|] && u[j] in t;
      }
    }
  }

  lemma {:induction false} CrawlListedDistinct(list: Lister, c: Commit, pre: seq<string>, id: Id, depth: nat,
                                               listed: seq<Listed>)
    requires Faithful(list, c) && DistinctNames(listed)
    requires forall x :: x in listed ==> Described(list, c, pre, id, x)
    ensures DistinctPaths(CrawlListed(list, listed, depth))
    decreases depth, 1, |listed|
  {
    if listed != [] {
      var x, rest := listed[0], listed[1..];
      assert x in listed && forall w :: w in rest ==> w in listed;
      var first, others := CrawlEntry(list, x, depth), CrawlListed(list, rest, depth);
      CrawlEntryDistinct(list, c, pre, id, depth, x);
      CrawlListedDistinct(list, c, pre, id, depth, rest);
      forall y, z | y in first && z in others ensures y.0 != z.0 {
        EntriesDoNotMeet(list, c, pre, id, depth, x, rest, y, z);
      }
      ConcatDistinct(first, others);
    }
  }

  lemma {:induction false} CrawlEntryDistinct(list: Lister, c: Commit, pre: seq<string>, id: Id, depth: nat, x: Listed)
    requires Faithful(list, c) && Described(list, c, pre, id, x)
    ensures DistinctPaths(CrawlEntry(list, x, depth))
    decreases depth, 0, 0
  {
    var e :| Lists(list, c, pre, id, x, e);
    if KindOf(e.mode) == TreeKind && depth > 0 {
      CrawlDistinct(list, c, pre + [e.name], e.id, depth - 1);
    }
  }

  lemma {:induction false} CrawlDistinct(list: Lister, c: Commit, pre: seq<string>, id: Id, depth: nat)
    requires Faithful(list, c) && At(c, pre, id)
    ensures DistinctPaths(Crawl(list, Join(pre, "/"), depth))
    decreases depth, 2, 0
  {
    assert FaithfulAt(list, c, pre, id);
    CrawlListedDistinct(list, c, pre, id, depth, list(Join(pre, "/")).value);
  }

  // ----- The guarantees -----

  /** Everything a crawl of the commit with `GetTree` lists. */
  ghost function CrawlCommit(c: Commit): seq<(string, Id)>
    requires CommitOk(c)
  {
    Crawl(TreeLister(c), "", c.rank[c.root])
  }

  /** Crawling from the root lists exactly the files of the commit, no path twice. */
  lemma CrawlListsEveryFileOnce(c: Commit, path: string, sha: Id)
    requires CommitOk(c)
    ensures DistinctPaths(CrawlCommit(c))
    ensures (path, sha) in CrawlCommit(c) <==>
      exists parts :: parts != [] && AllNames(parts) && path == Join(parts, "/") && FileAt(c.store, c.root, parts) == Some(sha)
  {
    var list := TreeLister(c);
    var depth := c.rank[c.root];
    GetTreeIsFaithful(c);
    assert Join([], "/") == "" && At(c, [], c.root);
    CrawlDistinct(list, c, [], c.root, depth);
    if (path, sha) in Crawl(list, "", depth) {
      var rest := CrawlSound(list, c, [], c.root, depth, (path, sha));
      assert [] + rest == rest;
    }
    forall parts | parts != [] && AllNames(parts) && path == Join(parts, "/") && FileAt(c.store, c.root, parts) == Some(sha)
      ensures (path, sha) in Crawl(list, "", depth)
    {
      CrawlComplete(list, c, [], c.root, depth, parts);
      assert [] + parts == parts;
    }
  }

  lemma {:induction false} FileAtWalk(store: Store, rank: map<Id, nat>, id: Id, parts: seq<string>)
    requires StoreOk(store, rank) && parts != [] && FileAt(store, id, parts).Some?
    ensures var sha := FileAt(store, id, parts).value; sha in store && store[sha].File?
    ensures var dir := Walk(store, id, parts[..|parts| - 1], NotFound);
      dir.Ok? && dir.value in store && store[dir.value].Directory?
      && var e := Lookup(store[dir.value].entries, parts[|parts| - 1]);
         e.Some? && KindOf(e.value.mode) == BlobKind && FileAt(store, id, parts) == Some(e.value.id)
  {
    var n := |parts| - 1;
    assert parts == parts[..n] + [parts[n]];
    FileAtSnoc(store, id, parts[..n], parts[n], NotFound);
    var dir := Walk(store, id, parts[..n], NotFound).value;
    assert DirectoryOk(store, rank, dir, store[dir].entries);
  }

  lemma FetchFinds(c: Commit, parts: seq<string>)
    requires CommitOk(c) && parts != [] && AllNames(parts) && FileAt(c.store, c.root, parts).Some?
    ensures GetBlob(c.store, c.root, Join(parts, "/")) == Ok(FileAt(c.store, c.root, parts).value)
  {
    PartsOfJoin(parts);
    FileAtWalk(c.store, c.rank, c.root, parts);
  }

  /** Fetching a listed path returns the listed object. */
  lemma ListedPathsCanBeFetched(c: Commit, path: string, sha: Id)
    requires CommitOk(c) && (path, sha) in CrawlCommit(c)
    ensures GetBlob(c.store, c.root, path) == Ok(sha)
  {
    CrawlListsEveryFileOnce(c, path, sha);
    var parts :| parts != [] && AllNames(parts) && path == Join(parts, "/") && FileAt(c.store, c.root, parts) == Some(sha);
    FetchFinds(c, parts);
  }

  lemma FetchedIsFile(c: Commit, path: string)
    requires CommitOk(c) && GetBlob(c.store, c.root, path).Ok?
    ensures Parts(path) != [] && Join(Parts(path), "/") == Strip(path, '/')
    ensures FileAt(c.store, c.root, Parts(path)) == Some(GetBlob(c.store, c.root, path).value)
  {
    var parts := Parts(path);
    var n := |parts| - 1;
    assert parts == parts[..n] + [parts[n]];
    WalkThenFile(c.store, c.root, parts[..n], [parts[n]], NotFound);
    JoinSplit(Strip(path, '/'), "/");
  }

  lemma {:induction false} FileAtNames(store: Store, rank: map<Id, nat>, id: Id, parts: seq<string>)
    requires StoreOk(store, rank) && FileAt(store, id, parts).Some?
    ensures AllNames(parts)
    decreases |parts|
  {
    var e := Lookup(store[id].entries, parts[0]).value;
    assert DirectoryOk(store, rank, id, store[id].entries);
    if |parts| > 1 {
      FileAtNames(store, rank, e.id, parts[1..]);
    }
  }

  /** Every path that can be fetched is listed, up to slashes at its ends. */
  lemma FetchedPathsAreListed(c: Commit, path: string)
    requires CommitOk(c) && GetBlob(c.store, c.root, path).Ok?
    ensures (Strip(path, '/'), GetBlob(c.store, c.root, path).value) in CrawlCommit(c)
  {
    FetchedIsFile(c, path);
    FileAtNames(c.store, c.rank, c.root, Parts(path));
    CrawlListsEveryFileOnce(c, Strip(path, '/'), GetBlob(c.store, c.root, path).value);
  }

  /**
   Without the assumption on submodules: an entry listed as a directory can itself be listed exactly
   if it is not a submodule.
   */
  lemma ListedDirectoryOpensIff(store: Store, rank: map<Id, nat>, root: Id, pre: seq<string>, id: Id, e: Entry)
    requires StoreOk(store, rank) && AllNames(pre) && Walk(store, root, pre, BadRequest) == Ok(id)
    requires id in store && store[id].Directory? && e in store[id].entries && ListedKind(e.mode) == TreeKind
    ensures GetTree(store, root, Join(pre + [e.name], "/")).Ok? <==> !e.mode.SubmoduleMode?
  {
    var entries := store[id].entries;
    assert DirectoryOk(store, rank, id, entries);
    LookupOwnName(entries, e);
    PathOfEntry(pre, e.name);
    PartsOfJoin(pre + [e.name]);
    if e.mode.SubmoduleMode? {
      WalkSubmodule(store, root, pre, e);
    } else {
      WalkSnoc(store, root, pre, e, BadRequest);
      assert DirectoryOk(store, rank, e.id, store[e.id].entries);
    }
  }

  lemma {:induction false} WalkSubmodule(store: Store, id: Id, parts: seq<string>, e: Entry)
    requires var w := Walk(store, id, parts, BadRequest);
      w.Ok? && w.value in store && store[w.value].Directory? && Lookup(store[w.value].entries, e.name) == Some(e)
    requires e.mode.SubmoduleMode?
    ensures Walk(store, id, parts + [e.name], BadRequest) == Failed(BadRequest)
    decreases |parts|
  {
    if parts != [] {
      assert (parts + [e.name])[1..] == parts[1..] + [e.name];
      WalkSubmodule(store, Lookup(store[id].entries, parts[0]).value.id, parts[1..], e);
    }
  }
  // ----- Every answer, in terms of the commit's directories -----

  ghost predicate HasEntry(store: Store, dir: Id, e: Entry) {
    dir in store && store[dir].Directory? && e in store[dir].entries
  }

  /** The names lead, directory by directory, from the root to `dir`. */
  ghost predicate Leads(store: Store, root: Id, parts: seq<string>, dir: Id)
    decreases |parts|, 0
  {
    if parts == [] then dir == root else LeadsOn(store, root, parts[..|parts| - 1], parts[|parts| - 1], dir)
  }

  ghost predicate LeadsOn(store: Store, root: Id, front: seq<string>, last: string, dir: Id)
    decreases |front|, 1
  {
    exists d :: Leads(store, root, front, d) && Subdirectory(store, d, last, dir)
  }

  // In the directory `d` the name belongs to the directory `dir`.
  ghost predicate Subdirectory(store: Store, d: Id, name: string, dir: Id) {
    exists e :: HasEntry(store, d, e) && e.name == name && e.mode == DirectoryMode && e.id == dir
  }

  // Some name of the path is missing in the directory the names before it lead to.
  ghost predicate Missing(store: Store, root: Id, parts: seq<string>) {
    exists k, d :: 0 <= k < |parts| && Leads(store, root, parts[..k], d)
                   && forall e :: HasEntry(store, d, e) ==> e.name != parts[k]
  }

  // Some name of the path is there, but is no directory.
  ghost predicate Blocked(store: Store, root: Id, parts: seq<string>) {
    exists k, d, e :: 0 <= k < |parts| && Leads(store, root, parts[..k], d) && HasEntry(store, d, e)
                      && e.name == parts[k] && e.mode != DirectoryMode
  }

  // One more name: where it leads from `id`, or how it fails.
  ghost function OneStep(store: Store, id: Id, name: string, onFile: Failure): Result<Id> {
    if id !in store || !store[id].Directory? then Failed(Crash)
    else
      match Lookup(store[id].entries, name)
      case None => Failed(NotFound)
      case Some(e) => if e.mode == DirectoryMode then Ok(e.id) else Failed(onFile)
  }

  lemma {:induction false} WalkOneMore(store: Store, id: Id, parts: seq<string>, name: string, onFile: Failure)
    ensures Walk(store, id, parts + [name], onFile)
         == match Walk(store, id, parts, onFile)
            case Failed(e) => Failed(e)
            case Ok(dir) => OneStep(store, dir, name, onFile)
    decreases |parts|
  {
    var all := parts + [name];
    if parts == [] {
      assert all == [name] && all[1..] == [];
    } else {
      assert all[0] == parts[0] && all[1..] == parts[1..] + [name];
      if id in store && store[id].Directory? && Lookup(store[id].entries, parts[0]).Some? {
        WalkOneMore(store, Lookup(store[id].entries, parts[0]).value.id, parts[1..], name, onFile);
      }
    }
  }

  // The entry is the one its name finds, and what it names is stored.
  lemma EntryIsSound(c: Commit, dir: Id, e: Entry)
    requires CommitOk(c) && HasEntry(c.store, dir, e)
    ensures Lookup(c.store[dir].entries, e.name) == Some(e)
    ensures e.mode == DirectoryMode ==> e.id in c.store && c.store[e.id].Directory?
    ensures e.mode != DirectoryMode && e.mode != SubmoduleMode ==> e.id in c.store && c.store[e.id].File?
  {
    assert DirectoryOk(c.store, c.rank, dir, c.store[dir].entries);
    LookupOwnName(c.store[dir].entries, e);
  }

  /** Walking succeeds exactly where the names lead. */
  lemma {:induction false} WalkLeads(c: Commit, parts: seq<string>, onFile: Failure)
    requires CommitOk(c)
    ensures forall dir :: Walk(c.store, c.root, parts, onFile) == Ok(dir) <==> Leads(c.store, c.root, parts, dir)
    ensures forall dir :: Leads(c.store, c.root, parts, dir) ==> dir in c.store && c.store[dir].Directory?
    decreases |parts|
  {
    if parts != [] {
      var front, last := parts[..|parts| - 1], parts[|parts| - 1];
      WalkLeads(c, front, onFile);
      WalkOneMore(c.store, c.root, front, last, onFile);
      assert parts == front + [last];
      var w := Walk(c.store, c.root, front, onFile);
      hide Walk;
      forall dir
        ensures Walk(c.store, c.root, parts, onFile) == Ok(dir) <==> Leads(c.store, c.root, parts, dir)
        ensures Leads(c.store, c.root, parts, dir) ==> dir in c.store && c.store[dir].Directory?
      {
        LastStepLeads(c, front, last, w, dir, onFile);
        assert Leads(c.store, c.root, parts, dir) <==> LeadsOn(c.store, c.root, front, last, dir);
      }
    }
  }

  lemma StepIsSubdirectory(c: Commit, d: Id, name: string, dir: Id, onFile: Failure)
    requires CommitOk(c) && d in c.store && c.store[d].Directory?
    ensures OneStep(c.store, d, name, onFile) == Ok(dir) <==> Subdirectory(c.store, d, name, dir)
    ensures Subdirectory(c.store, d, name, dir) ==> dir in c.store && c.store[dir].Directory?
  {
    if Subdirectory(c.store, d, name, dir) {
      var e :| HasEntry(c.store, d, e) && e.name == name && e.mode == DirectoryMode && e.id == dir;
      EntryIsSound(c, d, e);
    }
    var found := Lookup(c.store[d].entries, name);
    if found.Some? {
      assert HasEntry(c.store, d, found.value);
    }
  }

  lemma LastStepLeads(c: Commit, front: seq<string>, last: string, w: Result<Id>, dir: Id, onFile: Failure)
    requires CommitOk(c)
    requires forall d :: w == Ok(d) <==> Leads(c.store, c.root, front, d)
    requires forall d :: Leads(c.store, c.root, front, d) ==> d in c.store && c.store[d].Directory?
    ensures (w.Ok? && OneStep(c.store, w.value, last, onFile) == Ok(dir)) <==> LeadsOn(c.store, c.root, front, last, dir)
    ensures LeadsOn(c.store, c.root, front, last, dir) ==> dir in c.store && c.store[dir].Directory?
  {
    hide Leads, OneStep, Subdirectory, CommitOk;
    if w.Ok? {
      assert Leads(c.store, c.root, front, w.value);
      StepIsSubdirectory(c, w.value, last, dir, onFile);
    }
  }

  lemma {:induction false} FailureStays(store: Store, id: Id, parts: seq<string>, k: nat, onFile: Failure)
    requires k <= |parts| && Walk(store, id, parts[..k], onFile).Failed?
    ensures Walk(store, id, parts, onFile) == Walk(store, id, parts[..k], onFile)
    decreases |parts| - k
  {
    if k == |parts| {
      assert parts[..k] == parts;
    } else {
      WalkOneMore(store, id, parts[..k], parts[k], onFile);
      assert parts[..k + 1] == parts[..k] + [parts[k]];
      FailureStays(store, id, parts, k + 1, onFile);
    }
  }

  lemma {:induction false} FirstFailure(store: Store, id: Id, parts: seq<string>, onFile: Failure) returns (k: nat)
    requires Walk(store, id, parts, onFile).Failed?
    ensures k < |parts| && Walk(store, id, parts[..k], onFile).Ok?
    ensures Walk(store, id, parts, onFile) == OneStep(store, Walk(store, id, parts[..k], onFile).value, parts[k], onFile)
    decreases |parts|
  {
    var n := |parts| - 1;
    var front := parts[..n];
    assert parts == front + [parts[n]];
    WalkOneMore(store, id, front, parts[n], onFile);
    if Walk(store, id, front, onFile).Ok? {
      k := n;
    } else {
      k := FirstFailure(store, id, front, onFile);
      assert front[..k] == parts[..k];
    }
  }

  lemma StepFails(c: Commit, parts: seq<string>, k: nat, d: Id, onFile: Failure)
    requires CommitOk(c) && k < |parts| && Leads(c.store, c.root, parts[..k], d)
    requires OneStep(c.store, d, parts[k], onFile).Failed?
    ensures Walk(c.store, c.root, parts, onFile) == OneStep(c.store, d, parts[k], onFile)
  {
    WalkLeads(c, parts[..k], onFile);
    WalkOneMore(c.store, c.root, parts[..k], parts[k], onFile);
    assert parts[..k + 1] == parts[..k] + [parts[k]];
    FailureStays(c.store, c.root, parts, k + 1, onFile);
  }

  /** How a walk fails, for each of the two errors a file on the way may raise. */
  lemma WalkFailsIff(c: Commit, parts: seq<string>, onFile: Failure)
    requires CommitOk(c) && !onFile.Crash?
    ensures var w := Walk(c.store, c.root, parts, onFile);
      && w != Failed(Crash)
      && (Missing(c.store, c.root, parts) ==> w == Failed(NotFound))
      && (Blocked(c.store, c.root, parts) ==> w == Failed(onFile))
      && (w.Failed? ==> Missing(c.store, c.root, parts) || Blocked(c.store, c.root, parts))
  {
    var store, root := c.store, c.root;
    if Missing(store, root, parts) {
      var k, d :| 0 <= k < |parts| && Leads(store, root, parts[..k], d)
                  && forall e :: HasEntry(store, d, e) ==> e.name != parts[k];
      MissingFails(c, parts, k, d, onFile);
    }
    if Blocked(store, root, parts) {
      var k, d, e :| 0 <= k < |parts| && Leads(store, root, parts[..k], d) && HasEntry(store, d, e)
                     && e.name == parts[k] && e.mode != DirectoryMode;
      EntryIsSound(c, d, e);
      StepFails(c, parts, k, d, onFile);
    }
    if Walk(store, root, parts, onFile).Failed? {
      var k := FirstFailure(store, root, parts, onFile);
      WalkLeads(c, parts[..k], onFile);
      var d := Walk(store, root, parts[..k], onFile).value;
      hide Walk, Leads;
      if e :| HasEntry(store, d, e) && e.name == parts[k] {
        EntryIsSound(c, d, e);
        assert Blocked(store, root, parts);
      } else {
        assert Missing(store, root, parts);
        LookupNothing(store, d, parts[k]);
      }
    }
  }

  lemma LookupNothing(store: Store, d: Id, name: string)
    requires d in store && store[d].Directory? && forall e :: HasEntry(store, d, e) ==> e.name != name
    ensures Lookup(store[d].entries, name) == None
  {
    forall e | e in store[d].entries ensures e.name != name {
      assert HasEntry(store, d, e);
    }
  }

  lemma MissingFails(c: Commit, parts: seq<string>, k: nat, d: Id, onFile: Failure)
    requires CommitOk(c) && k < |parts| && Leads(c.store, c.root, parts[..k], d)
    requires forall e :: HasEntry(c.store, d, e) ==> e.name != parts[k]
    ensures Walk(c.store, c.root, parts, onFile) == Failed(NotFound)
  {
    WalkLeads(c, parts[..k], onFile);
    LookupNothing(c.store, d, parts[k]);
    StepFails(c, parts, k, d, onFile);
  }

  // Listing fails only where the walk does.
  lemma ListingFollowsWalk(c: Commit, path: string)
    requires CommitOk(c)
    ensures var (w, r) := (Walk(c.store, c.root, Parts(path), BadRequest), GetTree(c.store, c.root, path));
      if w.Ok? then r.Ok? else r == Failed(w.error)
  {
    WalkLeads(c, Parts(path), BadRequest);
    var w := Walk(c.store, c.root, Parts(path), BadRequest);
    hide Walk, Leads, Parts;
    if w.Ok? {
      assert Leads(c.store, c.root, Parts(path), w.value);
      assert DirectoryOk(c.store, c.rank, w.value, c.store[w.value].entries);
      assert SizesKnown(c.store, c.store[w.value].entries);
    }
  }

  /** Listing: it works for the paths of directories, a missing name is not found, and anything else is a bad request. */
  lemma TreeAnswers(c: Commit, path: string)
    requires CommitOk(c)
    ensures var r := GetTree(c.store, c.root, path);
      && (r.Ok? <==> exists d :: Leads(c.store, c.root, Parts(path), d))
      && (r == Failed(NotFound) <==> Missing(c.store, c.root, Parts(path)))
      && (r == Failed(BadRequest) <==> Blocked(c.store, c.root, Parts(path)))
  {
    ListingFollowsWalk(c, path);
    WalkLeads(c, Parts(path), BadRequest);
    WalkFailsIff(c, Parts(path), BadRequest);
    hide *;
    var w := Walk(c.store, c.root, Parts(path), BadRequest);
    assert w.Ok? ==> Leads(c.store, c.root, Parts(path), w.value);
  }

  // The last name of the path is the entry `e` of the directory the others lead to.
  ghost predicate LastIs(store: Store, root: Id, parts: seq<string>, e: Entry)
    requires parts != []
  {
    exists d :: Leads(store, root, parts[..|parts| - 1], d) && HasEntry(store, d, e) && e.name == parts[|parts| - 1]
  }

  /**
   Fetching: the path of a file gives its object, that of a directory or submodule is a bad request, and so is no
   path; nothing else is found.
   */
  lemma BlobAnswers(c: Commit, path: string)
    requires CommitOk(c)
    ensures var (parts, r) := (Parts(path), GetBlob(c.store, c.root, path));
      if parts == [] then r == Failed(BadRequest)
      else if exists e :: LastIs(c.store, c.root, parts, e) then
        exists e :: LastIs(c.store, c.root, parts, e)
          && r == if e.mode == DirectoryMode || e.mode == SubmoduleMode then Failed(BadRequest) else Ok(e.id)
      else r == Failed(NotFound)
  {
    var parts := Parts(path);
    if parts != [] {
      var front, last := parts[..|parts| - 1], parts[|parts| - 1];
      WalkLeads(c, front, NotFound);
      WalkFailsIff(c, front, NotFound);
      var w := Walk(c.store, c.root, front, NotFound);
      hide Walk, Missing, Blocked, Leads, Parts;
      if w.Ok? {
        var d := w.value;
        assert forall e :: LastIs(c.store, c.root, parts, e) <==> HasEntry(c.store, d, e) && e.name == last;
        if e :| HasEntry(c.store, d, e) && e.name == last {
          EntryIsSound(c, d, e);
          assert GetBlob(c.store, c.root, path)
              == if e.mode == DirectoryMode || e.mode == SubmoduleMode then Failed(BadRequest) else Ok(e.id);
        } else {
          LookupNothing(c.store, d, last);
          assert GetBlob(c.store, c.root, path) == Failed(NotFound);
        }
      }
    }
  }
}
