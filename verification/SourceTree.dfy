/**
 * From chosen paths to a queued entry list, and what the receiver asks of it:
 * apps/desktop/src/file_transfer.rs:560-609, 1681-1763, 1786-1882, 2024-2067.
 *
 * Names and paths are UTF-8 byte strings.  Case folding, the portability rules
 * for a path, the content digest and the order in which a directory is listed
 * are parameters; every result holds whatever they are.
 */
module SourceTree {
  import opened Wrappers
  import opened ByteOrder
  import T = TransferCheckpoint

  type Path = Bytes

  const SLASH: byte := 0x2F

  /** `Special` is a symlink, device or socket. */
  datatype Node = File(content: Bytes) | Dir(children: seq<Keyed<Node>>) | Special

  datatype Source = Source(absolute: Path, relative: Path, isDir: bool, size: nat, digest: Option<Bytes>)

  datatype Env = Env(
    fold: Path -> Path,
    portable: Path -> bool,
    hash: Bytes -> Bytes,
    readDir: (Path, seq<Keyed<Node>>) -> seq<Keyed<Node>>)

  /** Listing a directory gives each child once, in some order. */
  ghost predicate Lawful(env: Env) {
    forall path, children :: multiset(env.readDir(path, children)) == multiset(children)
  }

  /** Names in a directory are distinct and contain no separator. */
  ghost predicate WellFormedTree(node: Node) {
    node.Dir? ==>
      && DistinctKeys(node.children)
      && forall i :: 0 <= i < |node.children| ==>
           SLASH !in node.children[i].key && WellFormedTree(node.children[i].value)
  }

  const SPECIAL_NODE: string := "source trees may contain only regular files and directories"
  const ENTRY_LIMIT: string := "source exceeds the configured manifest-entry limit"
  const NOT_PORTABLE: string := "source path is not portable"
  const PATH_COLLISION: string := "source paths collide on a case-insensitive destination"
  const TOTAL_OVERFLOW: string := "source byte total overflow"
  const BYTE_LIMIT: string := "source exceeds the configured transfer-byte limit"

  datatype Limits = Limits(maxEntries: nat, maxBytes: nat)

  datatype Walk = Walk(entries: seq<Source>, folded: set<Path>, total: nat)

  function Join(path: Path, name: Path): Path {
    path + [SLASH] + name
  }

  // ---------------------------------------------------------------- the walk

  function EntryFor(env: Env, node: Node, abs: Path, rel: Path): Source
    requires !node.Special?
  {
    match node
    case File(content) => Source(abs, rel, false, |content|, Some(env.hash(content)))
    case Dir(_) => Source(abs, rel, true, 0, None)
  }

  function Pushed(env: Env, w: Walk, e: Source): Walk {
    Walk(w.entries + [e], w.folded + {env.fold(e.relative)}, w.total + e.size)
  }

  /** The checks on one node, and the walk with its entry. */
  function Visit(env: Env, lim: Limits, node: Node, abs: Path, rel: Path, w: Walk): Result<Walk, string> {
    if node.Special? then Err(SPECIAL_NODE)
    else if |w.entries| >= lim.maxEntries then Err(ENTRY_LIMIT)
    else if !env.portable(rel) then Err(NOT_PORTABLE)
    else if env.fold(rel) in w.folded then Err(PATH_COLLISION)
    else
      var e := EntryFor(env, node, abs, rel);
      if node.File? && w.total + e.size > U64_MAX then Err(TOTAL_OVERFLOW)
      else if node.File? && w.total + e.size > lim.maxBytes then Err(BYTE_LIMIT)
      else Ok(Pushed(env, w, e))
  }

  function Collect(env: Env, lim: Limits, node: Node, abs: Path, rel: Path, w: Walk): Result<Walk, string>
    requires Lawful(env)
    decreases node, 1, 0
  {
    match Visit(env, lim, node, abs, rel, w)
    case Err(error) => Err(error)
    case Ok(visited) =>
      if !node.Dir? then Ok(visited)
      else if |node.children| > lim.maxEntries - |visited.entries| then Err(ENTRY_LIMIT)
      else
        var children := Sort(env.readDir(abs, node.children));
        ListedAreSmaller(env, node, abs);
        CollectAll(env, lim, node, children, abs, rel, visited)
  }

  function CollectAll(env: Env, lim: Limits, ghost parent: Node, children: seq<Keyed<Node>>, abs: Path, rel: Path,
                      w: Walk): Result<Walk, string>
    requires Lawful(env) && forall c :: c in children ==> c.value < parent
    decreases parent, 0, |children|
  {
    if children == [] then Ok(w)
    else
      match Collect(env, lim, children[0].value, Join(abs, children[0].key), Join(rel, children[0].key), w)
      case Err(error) => Err(error)
      case Ok(w') => CollectAll(env, lim, parent, children[1..], abs, rel, w')
  }

  lemma ListedAreSmaller(env: Env, node: Node, abs: Path)
    requires Lawful(env) && node.Dir?
    ensures forall c :: c in Sort(env.readDir(abs, node.children)) <==> c in node.children
    ensures forall c :: c in node.children ==> c.value < node
  {
    forall c ensures c in Sort(env.readDir(abs, node.children)) <==> c in node.children {
      assert c in multiset(Sort(env.readDir(abs, node.children))) <==> c in multiset(node.children);
    }
  }

  lemma ListedAreWellFormed(env: Env, node: Node, abs: Path)
    requires Lawful(env) && node.Dir? && WellFormedTree(node)
    ensures forall c :: c in Sort(env.readDir(abs, node.children)) ==>
              c.value < node && SLASH !in c.key && WellFormedTree(c.value)
  {
    ListedAreSmaller(env, node, abs);
  }

  // ---------------------------------------------------------------- independence of enumeration order

  /** The same file system listed in another order. */
  ghost predicate SameButListing(a: Env, b: Env) {
    Lawful(a) && Lawful(b) && a.(readDir := b.readDir) == b
  }

  lemma SameListing(a: Env, b: Env, node: Node, abs: Path)
    requires SameButListing(a, b) && WellFormedTree(node) && node.Dir?
    ensures Sort(a.readDir(abs, node.children)) == Sort(b.readDir(abs, node.children))
  {
    DistinctIgnoresOrder(node.children, a.readDir(abs, node.children));
    DistinctIgnoresOrder(node.children, b.readDir(abs, node.children));
    SortIgnoresOrder(a.readDir(abs, node.children), b.readDir(abs, node.children));
  }

  lemma SameVisit(a: Env, b: Env, lim: Limits, node: Node, abs: Path, rel: Path, w: Walk)
    requires SameButListing(a, b)
    ensures Visit(a, lim, node, abs, rel, w) == Visit(b, lim, node, abs, rel, w)
  {
  }

  /** The walk, its refusals included, does not depend on the order in which directories list their children. */
  lemma {:induction false} WalkIgnoresListing(a: Env, b: Env, lim: Limits, node: Node, abs: Path, rel: Path, w: Walk)
    requires SameButListing(a, b) && WellFormedTree(node)
    ensures Collect(a, lim, node, abs, rel, w) == Collect(b, lim, node, abs, rel, w)
    decreases node, 1, 0
  {
    SameVisit(a, b, lim, node, abs, rel, w);
    if Visit(a, lim, node, abs, rel, w).Ok? && node.Dir? {
      hide Visit, Sort, Lawful;
      var visited := Visit(a, lim, node, abs, rel, w).value;
      SameListing(a, b, node, abs);
      ListedAreWellFormed(a, node, abs);
      WalkAllIgnoresListing(a, b, lim, node, Sort(a.readDir(abs, node.children)), abs, rel, visited);
    }
  }

  lemma {:induction false} WalkAllIgnoresListing(a: Env, b: Env, lim: Limits, parent: Node, children: seq<Keyed<Node>>,
                                                 abs: Path, rel: Path, w: Walk)
    requires SameButListing(a, b) && forall c :: c in children ==> c.value < parent && WellFormedTree(c.value)
    ensures CollectAll(a, lim, parent, children, abs, rel, w) == CollectAll(b, lim, parent, children, abs, rel, w)
    decreases parent, 0, |children|
  {
    if children != [] {
      var c := children[0];
      WalkIgnoresListing(a, b, lim, c.value, Join(abs, c.key), Join(rel, c.key), w);
      var first := Collect(a, lim, c.value, Join(abs, c.key), Join(rel, c.key), w);
      if first.Ok? {
        WalkAllIgnoresListing(a, b, lim, parent, children[1..], abs, rel, first.value);
      }
    }
  }

  // ---------------------------------------------------------------- what the receiver asks of the entries

  function SumSizes(entries: seq<Source>): nat {
    if entries == [] then 0 else SumSizes(entries[..|entries| - 1]) + entries[|entries| - 1].size
  }

  /** The directories declared among the entries. */
  function DirsIn(entries: seq<Source>): set<Path> {
    set e | e in entries && e.isDir :: e.relative
  }

  /** Every proper ancestor of `path` is among `dirs`. */
  predicate AncestorsIn(dirs: set<Path>, path: Path) {
    forall k :: 0 <= k < |path| && path[k] == SLASH ==> path[..k] in dirs
  }

  function FoldedIn(env: Env, entries: seq<Source>): set<Path> {
    set e | e in entries :: env.fold(e.relative)
  }

  /** Entry `i` is portable, is new up to case, and follows all the directories it is in. */
  predicate EntryAllowed(env: Env, entries: seq<Source>, i: nat)
    requires i < |entries|
  {
    var e := entries[i];
    && env.portable(e.relative)
    && env.fold(e.relative) !in FoldedIn(env, entries[..i])
    && AncestorsIn(DirsIn(entries[..i]), e.relative)
  }

  /** The structural policy the receiver applies to an offered manifest. */
  predicate PolicyAccepts(env: Env, lim: Limits, entries: seq<Source>, total: nat) {
    && 0 < |entries| <= lim.maxEntries
    && total <= lim.maxBytes
    && forall i :: 0 <= i < |entries| ==> EntryAllowed(env, entries, i)
  }

  ghost predicate WalkSound(env: Env, lim: Limits, w: Walk) {
    && |w.entries| <= lim.maxEntries
    && w.total == SumSizes(w.entries) <= lim.maxBytes
    && w.folded == FoldedIn(env, w.entries)
    && (forall i :: 0 <= i < |w.entries| ==> EntryAllowed(env, w.entries, i))
    && (forall e :: e in w.entries ==> if e.isDir then e.size == 0 && e.digest.None? else e.digest.Some?)
  }

  lemma EntryAllowedAppend(env: Env, entries: seq<Source>, e: Source, i: nat)
    requires i < |entries|
    ensures EntryAllowed(env, entries + [e], i) <==> EntryAllowed(env, entries, i)
  {
    assert (entries + [e])[..i] == entries[..i];
  }

  lemma PushedFolds(env: Env, entries: seq<Source>, e: Source)
    ensures FoldedIn(env, entries + [e]) == FoldedIn(env, entries) + {env.fold(e.relative)}
    ensures SumSizes(entries + [e]) == SumSizes(entries) + e.size
  {
    assert (entries + [e])[..|entries|] == entries;
  }

  lemma VisitSound(env: Env, lim: Limits, node: Node, abs: Path, rel: Path, w: Walk)
    requires WalkSound(env, lim, w) && AncestorsIn(DirsIn(w.entries), rel) && Visit(env, lim, node, abs, rel, w).Ok?
    ensures WalkSound(env, lim, Visit(env, lim, node, abs, rel, w).value)
  {
    hide SumSizes, FoldedIn, DirsIn, AncestorsIn;
    var e := EntryFor(env, node, abs, rel);
    var entries := w.entries + [e];
    PushedFolds(env, w.entries, e);
    assert entries[..|w.entries|] == w.entries;
    forall i | 0 <= i < |entries| ensures EntryAllowed(env, entries, i) {
      if i < |w.entries| {
        EntryAllowedAppend(env, w.entries, e, i);
      }
    }
  }

  /** Longer lists declare at least as much. */
  lemma AncestorsGrow(a: seq<Source>, b: seq<Source>, path: Path)
    requires a <= b
    ensures AncestorsIn(DirsIn(a), path) ==> AncestorsIn(DirsIn(b), path)
    ensures path in DirsIn(a) ==> path in DirsIn(b)
  {
    forall e | e in a ensures e in b {
      var i :| 0 <= i < |a| && a[i] == e;
      assert b[i] == e;
    }
    assert DirsIn(a) <= DirsIn(b);
  }

  lemma ChildAncestors(entries: seq<Source>, rel: Path, name: Path)
    requires AncestorsIn(DirsIn(entries), rel) && rel in DirsIn(entries) && SLASH !in name
    ensures AncestorsIn(DirsIn(entries), Join(rel, name))
  {
    var path := Join(rel, name);
    assert forall k :: |rel| < k < |path| ==> path[k] in name;
    forall k | 0 <= k < |path| && path[k] == SLASH ensures path[..k] in DirsIn(entries) {
      if k < |rel| {
        assert path[..k] == rel[..k];
      } else {
        assert k == |rel|;
        assert path[..k] == rel;
      }
    }
  }

  /** What the entries added by a walk of `node` look like: its own first, then only paths below it. */
  ghost predicate Extends(env: Env, node: Node, abs: Path, rel: Path, before: seq<Source>, after: seq<Source>) {
    && !node.Special? && |before| < |after| && before <= after && after[|before|] == EntryFor(env, node, abs, rel)
    && forall i :: |before| < i < |after| ==> SLASH in after[i].relative
  }

  /** The walk keeps everything the receiver's policy asks. */
  lemma VisitLists(env: Env, lim: Limits, node: Node, abs: Path, rel: Path, w: Walk)
    requires Visit(env, lim, node, abs, rel, w).Ok?
    ensures !node.Special?
    ensures var entries := Visit(env, lim, node, abs, rel, w).value.entries;
            entries == w.entries + [EntryFor(env, node, abs, rel)] && (node.Dir? ==> rel in DirsIn(entries))
  {
    var entries := Visit(env, lim, node, abs, rel, w).value.entries;
    assert entries[|w.entries|] in entries;
  }

  lemma {:induction false} WalkKeepsPolicy(env: Env, lim: Limits, node: Node, abs: Path, rel: Path, w: Walk)
    requires Lawful(env) && WellFormedTree(node) && WalkSound(env, lim, w) && AncestorsIn(DirsIn(w.entries), rel)
    requires Collect(env, lim, node, abs, rel, w).Ok?
    ensures var w' := Collect(env, lim, node, abs, rel, w).value;
            WalkSound(env, lim, w') && Extends(env, node, abs, rel, w.entries, w'.entries)
    decreases node, 1, 0
  {
    hide WalkSound, EntryAllowed, AncestorsIn, Lawful, WellFormedTree, Sort, DirsIn, Visit, EntryFor;
    VisitSound(env, lim, node, abs, rel, w);
    VisitLists(env, lim, node, abs, rel, w);
    var visited := Visit(env, lim, node, abs, rel, w).value;
    if node.Dir? {
      AncestorsGrow(w.entries, visited.entries, rel);
      ListedAreWellFormed(env, node, abs);
      WalkAllKeepsPolicy(env, lim, node, Sort(env.readDir(abs, node.children)), abs, rel, visited);
    }
  }

  lemma {:induction false} WalkAllKeepsPolicy(env: Env, lim: Limits, parent: Node, children: seq<Keyed<Node>>,
                                              abs: Path, rel: Path, w: Walk)
    requires Lawful(env) && forall c :: c in children ==> c.value < parent && SLASH !in c.key && WellFormedTree(c.value)
    requires WalkSound(env, lim, w) && AncestorsIn(DirsIn(w.entries), rel) && rel in DirsIn(w.entries)
    requires CollectAll(env, lim, parent, children, abs, rel, w).Ok?
    ensures var w' := CollectAll(env, lim, parent, children, abs, rel, w).value;
            && WalkSound(env, lim, w') && w.entries <= w'.entries
            && forall i :: |w.entries| <= i < |w'.entries| ==> SLASH in w'.entries[i].relative
    decreases parent, 0, |children|
  {
    hide WalkSound, AncestorsIn, DirsIn, Collect, Lawful;
    if children != [] {
      var c := children[0];
      ChildAncestors(w.entries, rel, c.key);
      WalkKeepsPolicy(env, lim, c.value, Join(abs, c.key), Join(rel, c.key), w);
      var w1 := Collect(env, lim, c.value, Join(abs, c.key), Join(rel, c.key), w).value;
      AncestorsGrow(w.entries, w1.entries, rel);
      WalkAllKeepsPolicy(env, lim, parent, children[1..], abs, rel, w1);
    }
  }

  // ---------------------------------------------------------------- building the queued transfer

  datatype Config = Config(maxEntries: nat, maxTransferBytes: nat)

  /** What a chosen path resolves to: its canonical path, its base name and what is there. */
  datatype Root = Root(absolute: Path, name: Path, node: Node)

  type Lookup = Path -> Option<Root>

  function LimitsOf(cfg: Config): Limits {
    Limits(if cfg.maxEntries < T.MAX_TRANSFER_MANIFEST_ENTRIES then cfg.maxEntries
      else T.MAX_TRANSFER_MANIFEST_ENTRIES, cfg.maxTransferBytes)
  }

  function ResolveRoots(env: Env, lookup: Lookup, paths: seq<Path>, names: set<Path>): Result<seq<Keyed<Root>>, string>
    decreases |paths|
  {
    if paths == [] then Ok([])
    else
      match lookup(paths[0])
      case None => Err("cannot inspect source")
      case Some(root) =>
        if root.node.Special? then Err("source must be a regular file or directory")
        else if !env.portable(root.name) then Err(NOT_PORTABLE)
        else if env.fold(root.name) in names then Err("source basenames collide on a case-insensitive destination")
        else
          match ResolveRoots(env, lookup, paths[1..], names + {env.fold(root.name)})
          case Err(error) => Err(error)
          case Ok(roots) => Ok([Keyed(env.fold(root.name), root)] + roots)
  }

  function CollectRoots(env: Env, lim: Limits, roots: seq<Keyed<Root>>, w: Walk): Result<Walk, string>
    requires Lawful(env)
    decreases |roots|
  {
    if roots == [] then Ok(w)
    else
      match Collect(env, lim, roots[0].value.node, roots[0].value.absolute, roots[0].value.name, w)
      case Err(error) => Err(error)
      case Ok(w') => CollectRoots(env, lim, roots[1..], w')
  }

  /** The roots' folded names are distinct, so sorting by folded name and then by name is sorting by folded name. */
  function Build(env: Env, lookup: Lookup, cfg: Config, paths: seq<Path>): Result<Walk, string>
    requires Lawful(env)
  {
    if paths == [] then Err("at least one source path is required")
    else if cfg.maxEntries == 0 then Err("file-transfer max_entries must be positive")
    else if cfg.maxTransferBytes > T.MAX_TRANSFER_TOTAL_BYTES
        then Err("configured file-transfer byte limit exceeds the wire limit")
    else if |paths| > LimitsOf(cfg).maxEntries then Err(ENTRY_LIMIT)
    else
      match ResolveRoots(env, lookup, paths, {})
      case Err(error) => Err(error)
      case Ok(roots) => CollectRoots(env, LimitsOf(cfg), Sort(roots), Walk([], {}, 0))
  }

  /** The paths of the entries that are not inside another. */
  function RootPaths(entries: seq<Source>): seq<Path> {
    if entries == [] then []
    else
      var e := entries[|entries| - 1];
      RootPaths(entries[..|entries| - 1]) + (if SLASH in e.relative then [] else [e.absolute])
  }

  /** A stored record is accepted when rebuilding from its own roots reproduces it. */
  predicate RecordValid(env: Env, lookup: Lookup, cfg: Config, entries: seq<Source>, total: nat)
    requires Lawful(env)
  {
    && 0 < |entries| <= LimitsOf(cfg).maxEntries
    && total <= cfg.maxTransferBytes && total <= T.MAX_TRANSFER_TOTAL_BYTES
    && RootPaths(entries) != []
    && var rebuilt := Build(env, lookup, cfg, RootPaths(entries));
       rebuilt.Ok? && rebuilt.value.entries == entries && rebuilt.value.total == total
  }

  /**
   * What the file system answers: base names without separators, well-formed trees, and a canonical path is its own
   * canonical path.
   */
  ghost predicate SoundLookup(lookup: Lookup) {
    forall p :: lookup(p).Some? ==>
                  && SLASH !in lookup(p).value.name && WellFormedTree(lookup(p).value.node)
                  && lookup(lookup(p).value.absolute) == lookup(p)
  }

  // ---------------------------------------------------------------- resolving roots

  predicate Resolves(env: Env, lookup: Lookup, p: Path) {
    lookup(p).Some? && !lookup(p).value.node.Special? && env.portable(lookup(p).value.name)
  }

  /** The root a path resolves to, keyed by its folded name; a missing path stands for a special node. */
  function RootOf(env: Env, lookup: Lookup, p: Path): Keyed<Root> {
    match lookup(p)
    case Some(root) => Keyed(env.fold(root.name), root)
    case None => Keyed([], Root([], [], Special))
  }

  function RootsOf(env: Env, lookup: Lookup, paths: seq<Path>): (roots: seq<Keyed<Root>>)
    ensures |roots| == |paths|
  {
    if paths == [] then [] else [RootOf(env, lookup, paths[0])] + RootsOf(env, lookup, paths[1..])
  }

  lemma {:induction false} RootsOfAt(env: Env, lookup: Lookup, paths: seq<Path>)
    ensures forall i :: 0 <= i < |paths| ==> RootsOf(env, lookup, paths)[i] == RootOf(env, lookup, paths[i])
    decreases |paths|
  {
    if paths != [] {
      RootsOfAt(env, lookup, paths[1..]);
    }
  }

  ghost predicate AllResolve(env: Env, lookup: Lookup, paths: seq<Path>) {
    forall p :: p in paths ==> Resolves(env, lookup, p)
  }

  /** The folded base names are distinct, and new. */
  ghost predicate NamesNew(roots: seq<Keyed<Root>>, names: set<Path>) {
    DistinctKeys(roots) && forall r :: r in roots ==> r.key !in names
  }

  lemma NamesNewStep(root: Keyed<Root>, roots: seq<Keyed<Root>>, names: set<Path>)
    ensures NamesNew([root] + roots, names) <==> root.key !in names && NamesNew(roots, names + {root.key})
  {
    DistinctHead(root, roots);
    hide DistinctKeys;
    assert root in [root] + roots;
    assert forall r :: r in roots ==> r in [root] + roots;
  }

  lemma AllResolveStep(env: Env, lookup: Lookup, paths: seq<Path>)
    requires paths != []
    ensures AllResolve(env, lookup, paths) <==> Resolves(env, lookup, paths[0]) && AllResolve(env, lookup, paths[1..])
  {
    assert paths == [paths[0]] + paths[1..];
  }

  /** Roots resolve exactly when each path does and no two base names agree up to case. */
  lemma {:induction false} ResolveRootsIff(env: Env, lookup: Lookup, paths: seq<Path>, names: set<Path>)
    ensures ResolveRoots(env, lookup, paths, names).Ok? <==>
            AllResolve(env, lookup, paths) && NamesNew(RootsOf(env, lookup, paths), names)
    ensures ResolveRoots(env, lookup, paths, names).Ok? ==>
            ResolveRoots(env, lookup, paths, names) == Ok(RootsOf(env, lookup, paths))
    decreases |paths|
  {
    if paths != [] {
      var root, rest := RootOf(env, lookup, paths[0]), RootsOf(env, lookup, paths[1..]);
      AllResolveStep(env, lookup, paths);
      NamesNewStep(root, rest, names);
      ResolveRootsIff(env, lookup, paths[1..], names + {root.key});
      hide AllResolve, NamesNew;
    }
  }

  lemma DistinctHead<V>(x: Keyed<V>, s: seq<Keyed<V>>)
    ensures DistinctKeys([x] + s) <==> DistinctKeys(s) && forall r :: r in s ==> r.key != x.key
  {
    var t := [x] + s;
    if DistinctKeys(t) {
      forall i, j | 0 <= i < j < |s| ensures s[i].key != s[j].key {
        assert t[i + 1].key != t[j + 1].key;
      }
      forall r | r in s ensures r.key != x.key {
        var i :| 0 <= i < |s| && s[i] == r;
        assert t[0].key != t[i + 1].key;
      }
    }
  }

  /** One path taken out of a list takes one root out. */
  lemma RootsRemove(env: Env, lookup: Lookup, paths: seq<Path>, j: nat)
    requires j < |paths|
    ensures multiset(RootsOf(env, lookup, paths)) ==
            multiset(RootsOf(env, lookup, paths[..j] + paths[j + 1..])) + multiset{RootOf(env, lookup, paths[j])}
  {
    var rest := paths[..j] + paths[j + 1..];
    RootsOfAt(env, lookup, paths);
    RootsOfAt(env, lookup, rest);
    var roots, others := RootsOf(env, lookup, paths), RootsOf(env, lookup, rest);
    hide RootsOf, RootOf;
    assert roots[..j] == others[..j];
    assert roots[j + 1..] == others[j..];
    assert roots == roots[..j] + [roots[j]] + roots[j + 1..];
    assert others == others[..j] + others[j..];
  }

  lemma RemoveMultiset<T>(s: seq<T>, j: nat)
    requires j < |s|
    ensures multiset(s[..j] + s[j + 1..]) == multiset(s) - multiset{s[j]}
  {
    assert s == s[..j] + [s[j]] + s[j + 1..];
  }

  lemma RemoveFirst<T>(a: seq<T>, b: seq<T>) returns (j: nat)
    requires multiset(a) == multiset(b) && a != []
    ensures j < |b| && b[j] == a[0] && multiset(a[1..]) == multiset(b[..j] + b[j + 1..])
  {
    assert a[0] in multiset(b);
    j :| 0 <= j < |b| && b[j] == a[0];
    TailMultiset(a);
    RemoveMultiset(b, j);
  }

  /** The same paths in another order resolve to the same roots in another order. */
  lemma {:induction false} RootsPermute(env: Env, lookup: Lookup, a: seq<Path>, b: seq<Path>)
    requires multiset(a) == multiset(b)
    ensures multiset(RootsOf(env, lookup, a)) == multiset(RootsOf(env, lookup, b))
    decreases |a|
  {
    hide RootsOf, RootOf;
    if a == [] {
      assert |multiset(b)| == |b|;
      assert a == b;
    } else {
      var j := RemoveFirst(a, b);
      var restA, restB := a[1..], b[..j] + b[j + 1..];
      assert a[..0] + a[0 + 1..] == restA;
      RootsRemove(env, lookup, a, 0);
      RootsRemove(env, lookup, b, j);
      RootsPermute(env, lookup, restA, restB);
    }
  }

  // ---------------------------------------------------------------- main results

  lemma {:induction false} CollectRootsIgnoresListing(a: Env, b: Env, lim: Limits, roots: seq<Keyed<Root>>, w: Walk)
    requires SameButListing(a, b) && forall r :: r in roots ==> WellFormedTree(r.value.node)
    ensures CollectRoots(a, lim, roots, w) == CollectRoots(b, lim, roots, w)
    decreases |roots|
  {
    if roots != [] {
      var r := roots[0].value;
      WalkIgnoresListing(a, b, lim, r.node, r.absolute, r.name, w);
      var first := Collect(a, lim, r.node, r.absolute, r.name, w);
      if first.Ok? {
        CollectRootsIgnoresListing(a, b, lim, roots[1..], first.value);
      }
    }
  }

  lemma SortedRoots(env: Env, lookup: Lookup, paths: seq<Path>)
    requires SoundLookup(lookup) && AllResolve(env, lookup, paths)
    ensures forall r :: r in Sort(RootsOf(env, lookup, paths)) ==>
              WellFormedTree(r.value.node) && SLASH !in r.value.name && lookup(r.value.absolute) == Some(r.value)
              && r.key == env.fold(r.value.name) && Resolves(env, lookup, r.value.absolute)
  {
    var roots := RootsOf(env, lookup, paths);
    RootsOfAt(env, lookup, paths);
    forall r | r in Sort(roots)
      ensures WellFormedTree(r.value.node) && SLASH !in r.value.name && lookup(r.value.absolute) == Some(r.value)
      ensures r.key == env.fold(r.value.name) && Resolves(env, lookup, r.value.absolute)
    {
      assert r in multiset(Sort(roots));
      assert r in multiset(roots);
      var i :| 0 <= i < |roots| && roots[i] == r;
      assert paths[i] in paths;
    }
  }

  /**
   * The queued entries are canonical: neither the order of the chosen paths nor the order in which
   * directories are listed changes whether a transfer is queued or what is queued.
   */
  lemma QueueIsCanonical(a: Env, b: Env, lookup: Lookup, cfg: Config, p: seq<Path>, q: seq<Path>)
    requires SameButListing(a, b) && SoundLookup(lookup) && multiset(p) == multiset(q)
    ensures Build(a, lookup, cfg, p).Ok? <==> Build(b, lookup, cfg, q).Ok?
    ensures Build(a, lookup, cfg, p).Ok? ==> Build(a, lookup, cfg, p) == Build(b, lookup, cfg, q)
  {
    hide Lawful, SoundLookup, RootsOf, ResolveRoots, CollectRoots, AllResolve, NamesNew, Sort;
    assert |p| == |multiset(p)| == |multiset(q)| == |q|;
    ResolveRootsIff(a, lookup, p, {});
    ResolveRootsIff(b, lookup, q, {});
    SameResolution(a, b, lookup, p, q);
    if ResolveRoots(a, lookup, p, {}).Ok? {
      SortedRoots(a, lookup, p);
      CollectRootsIgnoresListing(a, b, LimitsOf(cfg), Sort(RootsOf(a, lookup, p)), Walk([], {}, 0));
    }
  }

  lemma SameResolution(a: Env, b: Env, lookup: Lookup, p: seq<Path>, q: seq<Path>)
    requires SameButListing(a, b) && multiset(p) == multiset(q)
    ensures AllResolve(a, lookup, p) <==> AllResolve(b, lookup, q)
    ensures NamesNew(RootsOf(a, lookup, p), {}) <==> NamesNew(RootsOf(b, lookup, q), {})
    ensures NamesNew(RootsOf(a, lookup, p), {}) ==> Sort(RootsOf(a, lookup, p)) == Sort(RootsOf(b, lookup, q))
  {
    hide RootsOf, Sort, Lawful, DistinctKeys, Resolves;
    forall x ensures x in p <==> x in q {
      assert x in multiset(p) <==> x in multiset(q);
    }
    forall x ensures Resolves(a, lookup, x) == Resolves(b, lookup, x) {
      SameResolves(a, b, lookup, x);
    }
    RootsPermute(a, lookup, p, q);
    SameRoots(a, b, lookup, q);
    SameNames(RootsOf(a, lookup, p), RootsOf(b, lookup, q));
  }

  lemma SameResolves(a: Env, b: Env, lookup: Lookup, x: Path)
    requires SameButListing(a, b)
    ensures Resolves(a, lookup, x) == Resolves(b, lookup, x)
  {
  }

  lemma SameNames(a: seq<Keyed<Root>>, b: seq<Keyed<Root>>)
    requires multiset(a) == multiset(b)
    ensures NamesNew(a, {}) <==> NamesNew(b, {})
    ensures NamesNew(a, {}) ==> Sort(a) == Sort(b)
  {
    hide Sort, DistinctKeys;
    if DistinctKeys(a) {
      DistinctIgnoresOrder(a, b);
      SortIgnoresOrder(a, b);
    }
    if DistinctKeys(b) {
      DistinctIgnoresOrder(b, a);
    }
  }

  lemma SameRoots(a: Env, b: Env, lookup: Lookup, paths: seq<Path>)
    requires a.fold == b.fold
    ensures RootsOf(a, lookup, paths) == RootsOf(b, lookup, paths)
  {
    RootsOfAt(a, lookup, paths);
    RootsOfAt(b, lookup, paths);
  }

  lemma EmptyWalkSound(env: Env, lim: Limits)
    ensures WalkSound(env, lim, Walk([], {}, 0)) && RootPaths([]) == []
  {
  }

  function Absolutes(roots: seq<Keyed<Root>>): (paths: seq<Path>)
    ensures |paths| == |roots| && forall i :: 0 <= i < |roots| ==> paths[i] == roots[i].value.absolute
  {
    if roots == [] then [] else [roots[0].value.absolute] + Absolutes(roots[1..])
  }

  ghost predicate RootsSound(roots: seq<Keyed<Root>>) {
    forall r :: r in roots ==> WellFormedTree(r.value.node) && SLASH !in r.value.name
  }

  /** Walking one root keeps the policy and adds one root path. */
  lemma CollectRootStep(env: Env, lim: Limits, roots: seq<Keyed<Root>>, w: Walk)
    requires Lawful(env) && WalkSound(env, lim, w) && RootsSound(roots) && roots != []
    requires CollectRoots(env, lim, roots, w).Ok?
    ensures RootsSound(roots[1..])
    ensures var r := roots[0].value;
            var step := Collect(env, lim, r.node, r.absolute, r.name, w);
            && step.Ok? && WalkSound(env, lim, step.value)
            && RootPaths(step.value.entries) == RootPaths(w.entries) + [r.absolute]
            && CollectRoots(env, lim, roots, w) == CollectRoots(env, lim, roots[1..], step.value)
  {
    hide WalkSound, Collect, RootPaths, AncestorsIn, WellFormedTree, Lawful;
    var r := roots[0].value;
    assert roots[0] in roots;
    RootHasNoAncestors(DirsIn(w.entries), r.name);
    WalkKeepsPolicy(env, lim, r.node, r.absolute, r.name, w);
    var w1 := Collect(env, lim, r.node, r.absolute, r.name, w).value;
    RootPathsOfWalk(env, r, w.entries, w1.entries, |w1.entries|);
    assert w1.entries[..|w1.entries|] == w1.entries;
  }

  lemma AbsolutesStep(before: seq<Path>, roots: seq<Keyed<Root>>)
    requires roots != []
    ensures before + [roots[0].value.absolute] + Absolutes(roots[1..]) == before + Absolutes(roots)
  {
  }

  lemma RootsEnd(env: Env, lim: Limits, w: Walk)
    requires Lawful(env)
    ensures CollectRoots(env, lim, [], w) == Ok(w)
  {
  }

  lemma {:induction false} CollectRootsSound(env: Env, lim: Limits, roots: seq<Keyed<Root>>, w: Walk)
    requires Lawful(env) && WalkSound(env, lim, w) && RootsSound(roots)
    requires CollectRoots(env, lim, roots, w).Ok?
    ensures var w' := CollectRoots(env, lim, roots, w).value;
            WalkSound(env, lim, w') && RootPaths(w'.entries) == RootPaths(w.entries) + Absolutes(roots)
    decreases |roots|
  {
    hide WalkSound, Collect, CollectRoots, RootPaths, RootsSound, Lawful, Absolutes;
    RootsEnd(env, lim, w);
    if roots == [] {
      assert Absolutes(roots) == [];
      assert RootPaths(w.entries) + [] == RootPaths(w.entries);
    } else {
      CollectRootStep(env, lim, roots, w);
      var r := roots[0].value;
      var w1 := Collect(env, lim, r.node, r.absolute, r.name, w).value;
      CollectRootsSound(env, lim, roots[1..], w1);
      AbsolutesStep(RootPaths(w.entries), roots);
    }
  }

  lemma RootHasNoAncestors(dirs: set<Path>, name: Path)
    requires SLASH !in name
    ensures AncestorsIn(dirs, name)
  {
  }

  /** Of the entries a root adds, only its own is a root. */
  lemma {:induction false} RootPathsOfWalk(env: Env, r: Root, before: seq<Source>, after: seq<Source>, n: nat)
    requires Extends(env, r.node, r.absolute, r.name, before, after) && SLASH !in r.name && |before| < n <= |after|
    ensures RootPaths(after[..n]) == RootPaths(before) + [r.absolute]
    decreases n
  {
    assert after[..n][..n - 1] == after[..n - 1];
    if n == |before| + 1 {
      assert after[..|before|] == before;
    } else {
      RootPathsOfWalk(env, r, before, after, n - 1);
    }
  }

  /** Everything that gets queued satisfies the receiver's policy under the same limits, and its total is exact. */
  lemma QueuedPassesPolicy(env: Env, lookup: Lookup, cfg: Config, paths: seq<Path>)
    requires Lawful(env) && SoundLookup(lookup) && Build(env, lookup, cfg, paths).Ok?
    ensures var w := Build(env, lookup, cfg, paths).value;
            && WalkSound(env, LimitsOf(cfg), w) && PolicyAccepts(env, LimitsOf(cfg), w.entries, w.total)
            && w.total == SumSizes(w.entries) && w.total <= T.MAX_TRANSFER_TOTAL_BYTES
            && |RootPaths(w.entries)| == |paths|
  {
    hide Sort, ResolveRoots, CollectRoots, RootPaths, SoundLookup, Lawful, WalkSound, PolicyAccepts, RootOf,
         WellFormedTree, SumSizes;
    ResolveRootsIff(env, lookup, paths, {});
    SortedRoots(env, lookup, paths);
    var roots := Sort(RootsOf(env, lookup, paths));
    assert |multiset(roots)| == |roots| && |multiset(RootsOf(env, lookup, paths))| == |paths|;
    EmptyWalkSound(env, LimitsOf(cfg));
    CollectRootsSound(env, LimitsOf(cfg), roots, Walk([], {}, 0));
    SoundWalkAccepted(env, LimitsOf(cfg), Build(env, lookup, cfg, paths).value);
  }

  lemma SoundWalkAccepted(env: Env, lim: Limits, w: Walk)
    requires WalkSound(env, lim, w) && |RootPaths(w.entries)| > 0
    ensures PolicyAccepts(env, lim, w.entries, w.total) && w.total == SumSizes(w.entries) && w.total <= lim.maxBytes
  {
  }

  /** Resolving the absolute paths of resolved roots gives the same roots. */
  lemma ResolvedAgain(a: Env, b: Env, lookup: Lookup, paths: seq<Path>, again: seq<Path>)
    requires SameButListing(a, b) && SoundLookup(lookup)
    requires AllResolve(a, lookup, paths) && DistinctKeys(RootsOf(a, lookup, paths))
    requires var roots := Sort(RootsOf(a, lookup, paths));
             |again| == |roots| && forall i :: 0 <= i < |roots| ==> again[i] == roots[i].value.absolute
    ensures ResolveRoots(b, lookup, again, {}) == Ok(Sort(RootsOf(a, lookup, paths)))
    ensures Sort(Sort(RootsOf(a, lookup, paths))) == Sort(RootsOf(a, lookup, paths))
  {
    hide Sort, ResolveRoots, Lawful;
    SortedRoots(a, lookup, paths);
    var given := RootsOf(a, lookup, paths);
    var roots := Sort(given);
    SortAscending(given);
    DistinctIgnoresOrder(given, roots);
    AscendingIsSorted(roots);
    forall i | 0 <= i < |again| ensures lookup(again[i]).Some? && Resolves(b, lookup, again[i])
    && roots[i] == RootOf(b, lookup, again[i]) {
      assert roots[i] in roots;
    }
    RootsOfAt(b, lookup, again);
    assert RootsOf(b, lookup, again) == roots;
    assert AllResolve(b, lookup, again);
    assert NamesNew(roots, {});
    ResolveRootsIff(b, lookup, again, {});
  }

  /**
   * Queue records survive: over an unchanged tree, whatever the listing order, rebuilding from a record's own
   * roots reproduces it, so every record that was built is accepted when it is read back.
   */
  lemma RecordRebuildsItself(a: Env, b: Env, lookup: Lookup, cfg: Config, paths: seq<Path>)
    requires SameButListing(a, b) && SoundLookup(lookup) && Build(a, lookup, cfg, paths).Ok?
    ensures var w := Build(a, lookup, cfg, paths).value; RecordValid(b, lookup, cfg, w.entries, w.total)
  {
    hide Build, Sort, ResolveRoots, CollectRoots, RootPaths, SoundLookup, Lawful, WalkSound, RootOf, DistinctKeys,
         WellFormedTree,
         RootsOf, AllResolve, NamesNew;
    QueuedPassesPolicy(a, lookup, cfg, paths);
    BuildCollects(a, lookup, cfg, paths);
    var roots := Sort(RootsOf(a, lookup, paths));
    var w := Build(a, lookup, cfg, paths).value;
    var again := RootPaths(w.entries);
    ResolvedAgain(a, b, lookup, paths, again);
    BuildAgain(b, lookup, cfg, again, roots);
    CollectRootsIgnoresListing(a, b, LimitsOf(cfg), roots, Walk([], {}, 0));
    assert Build(b, lookup, cfg, again) == Ok(w);
  }

  /** What a successful build has done. */
  lemma BuildCollects(env: Env, lookup: Lookup, cfg: Config, paths: seq<Path>)
    requires Lawful(env) && SoundLookup(lookup) && Build(env, lookup, cfg, paths).Ok?
    ensures paths != [] && cfg.maxEntries != 0 && cfg.maxTransferBytes <= T.MAX_TRANSFER_TOTAL_BYTES
            && |paths| <= LimitsOf(cfg).maxEntries
    ensures AllResolve(env, lookup, paths) && DistinctKeys(RootsOf(env, lookup, paths))
    ensures var roots := Sort(RootsOf(env, lookup, paths));
            && (forall r :: r in roots ==> WellFormedTree(r.value.node))
            && Build(env, lookup, cfg, paths) == CollectRoots(env, LimitsOf(cfg), roots, Walk([], {}, 0))
            && RootPaths(Build(env, lookup, cfg, paths).value.entries) == Absolutes(roots)
  {
    hide Sort, ResolveRoots, CollectRoots, RootPaths, SoundLookup, Lawful, WalkSound, RootOf, WellFormedTree, RootsOf,
         AllResolve;
    ResolveRootsIff(env, lookup, paths, {});
    SortedRoots(env, lookup, paths);
    EmptyWalkSound(env, LimitsOf(cfg));
    CollectRootsSound(env, LimitsOf(cfg), Sort(RootsOf(env, lookup, paths)), Walk([], {}, 0));
  }

  lemma BuildAgain(env: Env, lookup: Lookup, cfg: Config, again: seq<Path>, roots: seq<Keyed<Root>>)
    requires Lawful(env) && again != [] && cfg.maxEntries != 0 && cfg.maxTransferBytes <= T.MAX_TRANSFER_TOTAL_BYTES
    requires |again| <= LimitsOf(cfg).maxEntries && ResolveRoots(env, lookup, again, {}) == Ok(roots)
             && Sort(roots) == roots
    ensures Build(env, lookup, cfg, again) == CollectRoots(env, LimitsOf(cfg), roots, Walk([], {}, 0))
  {
    hide Sort, ResolveRoots, CollectRoots;
  }

  lemma AscendingIsSorted<V>(s: seq<Keyed<V>>)
    requires Ascending(s) && DistinctKeys(s)
    ensures Sort(s) == s
  {
    SortAscending(s);
    AscendingUnique(Sort(s), s);
  }

  // ---------------------------------------------------------------- the loops

  /** The entries, folded paths and byte total the recursive walk grows in place. */
  class SourceWalk {
    var entries: seq<Source>
    var folded: set<Path>
    var total: nat

    function View(): Walk
      reads this
    {
      Walk(entries, folded, total)
    }

    constructor ()
      ensures View() == Walk([], {}, 0)
    {
      entries, folded, total := [], {}, 0;
    }

    method VisitNode(env: Env, lim: Limits, node: Node, abs: Path, rel: Path) returns (error: Option<string>)
      modifies this
      ensures match Visit(env, lim, node, abs, rel, old(View()))
              case Ok(w) => error.None? && View() == w
              case Err(e) => error == Some(e)
    {
      if node.Special? {
        return Some(SPECIAL_NODE);
      }
      if |entries| >= lim.maxEntries {
        return Some(ENTRY_LIMIT);
      }
      if !env.portable(rel) {
        return Some(NOT_PORTABLE);
      }
      if env.fold(rel) in folded {
        return Some(PATH_COLLISION);
      }
      folded := folded + {env.fold(rel)};
      if node.File? {
        if total + |node.content| > U64_MAX {
          return Some(TOTAL_OVERFLOW);
        }
        total := total + |node.content|;
        if total > lim.maxBytes {
          return Some(BYTE_LIMIT);
        }
        entries := entries + [Source(abs, rel, false, |node.content|, Some(env.hash(node.content)))];
      } else {
        entries := entries + [Source(abs, rel, true, 0, None)];
      }
      return None;
    }

    method CollectSourceEntries(env: Env, lim: Limits, node: Node, abs: Path, rel: Path) returns (error: Option<string>)
      requires Lawful(env)
      modifies this
      ensures match Collect(env, lim, node, abs, rel, old(View()))
              case Ok(w) => error.None? && View() == w
              case Err(e) => error == Some(e)
      decreases node
    {
      hide Visit, Sort;
      error := VisitNode(env, lim, node, abs, rel);
      if error.Some? || !node.Dir? {
        return;
      }
      if |entries| + |node.children| > lim.maxEntries {
        return Some(ENTRY_LIMIT);
      }
      var children := Sort(env.readDir(abs, node.children));
      ListedAreSmaller(env, node, abs);
      var i := 0;
      ghost var whole := CollectAll(env, lim, node, children, abs, rel, View());
      assert children[0..] == children;
      while i < |children|
        invariant 0 <= i <= |children| && error.None?
        invariant CollectAll(env, lim, node, children[i..], abs, rel, View()) == whole
      {
        assert children[i] in children && children[i..][0] == children[i] && children[i..][1..] == children[i + 1..];
        error := CollectSourceEntries(env, lim, children[i].value, Join(abs, children[i].key),
                                      Join(rel, children[i].key));
        if error.Some? {
          return;
        }
        i := i + 1;
      }
    }
  }

  lemma NothingListed(env: Env)
    ensures FoldedIn(env, []) == {} && DirsIn([]) == {}
  {
  }

  lemma PushedDirs(entries: seq<Source>, e: Source)
    ensures DirsIn(entries + [e]) == DirsIn(entries) + (if e.isDir then {e.relative} else {})
  {
  }

  /** The receiver's structural check of an offered manifest, growing the folded paths and the declared directories. */
  method ValidateManifestPolicy(env: Env, lim: Limits, entries: seq<Source>, total: nat) returns (ok: bool)
    ensures ok <==> PolicyAccepts(env, lim, entries, total)
  {
    hide FoldedIn, DirsIn, SumSizes;
    NothingListed(env);
    if entries == [] || |entries| > lim.maxEntries || total > lim.maxBytes {
      return false;
    }
    var folded: set<Path>, declared: set<Path> := {}, {};
    for n := 0 to |entries|
      invariant folded == FoldedIn(env, entries[..n]) && declared == DirsIn(entries[..n])
      invariant forall i :: 0 <= i < n ==> EntryAllowed(env, entries, i)
    {
      var e := entries[n];
      if !env.portable(e.relative) || env.fold(e.relative) in folded {
        assert !EntryAllowed(env, entries, n);
        return false;
      }
      var k := 0;
      while k < |e.relative|
        invariant 0 <= k <= |e.relative|
        invariant forall j :: 0 <= j < k && e.relative[j] == SLASH ==> e.relative[..j] in declared
      {
        if e.relative[k] == SLASH && e.relative[..k] !in declared {
          assert !EntryAllowed(env, entries, n);
          return false;
        }
        k := k + 1;
      }
      assert entries[..n + 1] == entries[..n] + [e];
      PushedFolds(env, entries[..n], e);
      PushedDirs(entries[..n], e);
      folded := folded + {env.fold(e.relative)};
      if e.isDir {
        declared := declared + {e.relative};
      }
    }
    return true;
  }
}
