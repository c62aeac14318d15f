/**
 * Which chosen paths can be queued, and what is then queued: a transfer is
 * built exactly when every path resolves to a new name and the nodes of all the
 * trees fit the policy and the limits, and it then lists exactly those nodes:
 * apps/desktop/src/file_transfer.rs:1681-1763, 1786-1882.
 */
module QueuedContents {
  import opened Wrappers
  import opened ByteOrder
  import opened SourceTree
  import opened SourceListing
  import T = TransferCheckpoint

  // ---------------------------------------------------------------- what may be added to a walk

  /** A file or a directory, not a symlink, device or socket. */
  predicate Regular(e: Source) {
    e.isDir || e.digest.Some?
  }

  /** What the entries to be added must satisfy together, in whatever order they come. */
  ghost predicate Fits(env: Env, lim: Limits, w: Walk, entries: seq<Source>) {
    && (forall e :: e in entries ==> Regular(e) && env.portable(e.relative) && env.fold(e.relative) !in w.folded)
    && |FoldedIn(env, entries)| == |entries|
    && |w.entries| + |entries| <= lim.maxEntries
    && w.total + SumSizes(entries) <= U64_MAX
    && w.total + SumSizes(entries) <= lim.maxBytes
  }

  function Added(env: Env, w: Walk, entries: seq<Source>): Walk {
    Walk(w.entries + entries, w.folded + FoldedIn(env, entries), w.total + SumSizes(entries))
  }

  /** The walk is within the limits so far. */
  predicate Within(lim: Limits, w: Walk) {
    |w.entries| <= lim.maxEntries && w.total <= U64_MAX && w.total <= lim.maxBytes
  }

  lemma {:induction false} FoldedAtMost(env: Env, entries: seq<Source>)
    ensures |FoldedIn(env, entries)| <= |entries|
  {
    if entries != [] {
      var n := |entries| - 1;
      FoldedAtMost(env, entries[..n]);
      assert entries == entries[..n] + [entries[n]];
      PushedFolds(env, entries[..n], entries[n]);
    } else {
      assert FoldedIn(env, []) == {};
    }
  }

  lemma {:induction false} SumsAppend(a: seq<Source>, b: seq<Source>)
    ensures SumSizes(a + b) == SumSizes(a) + SumSizes(b)
    decreases |b|
  {
    if b == [] {
      assert a + b == a;
    } else {
      SumsAppend(a, b[..|b| - 1]);
      assert (a + b)[..|a + b| - 1] == a + b[..|b| - 1];
    }
  }

  lemma FoldedAppend(env: Env, a: seq<Source>, b: seq<Source>)
    ensures FoldedIn(env, a + b) == FoldedIn(env, a) + FoldedIn(env, b)
  {
  }

  lemma AddedAppend(env: Env, w: Walk, a: seq<Source>, b: seq<Source>)
    ensures Added(env, Added(env, w, a), b) == Added(env, w, a + b)
  {
    SumsAppend(a, b);
    FoldedAppend(env, a, b);
    hide SumSizes, FoldedIn;
    assert w.entries + a + b == w.entries + (a + b);
    assert w.folded + FoldedIn(env, a) + FoldedIn(env, b) == w.folded + (FoldedIn(env, a) + FoldedIn(env, b));
  }

  /** Disjoint sides each without a repetition are a whole without one. */
  lemma FoldedFull(env: Env, a: seq<Source>, b: seq<Source>)
    ensures |FoldedIn(env, a + b)| == |a + b| <==>
            && |FoldedIn(env, a)| == |a| && |FoldedIn(env, b)| == |b|
            && FoldedIn(env, a) !! FoldedIn(env, b)
  {
    FoldedAtMost(env, a);
    FoldedAtMost(env, b);
    FoldedAppend(env, a, b);
    hide FoldedIn;
    var x, y := FoldedIn(env, a), FoldedIn(env, b);
    assert |x + y| + |x * y| == |x| + |y|;
  }

  /** A list fits exactly when its beginning fits and the rest fits after it. */
  lemma FitsAppend(env: Env, lim: Limits, w: Walk, a: seq<Source>, b: seq<Source>)
    ensures Fits(env, lim, w, a + b) <==> Fits(env, lim, w, a) && Fits(env, lim, Added(env, w, a), b)
  {
    FoldedFull(env, a, b);
    SumsAppend(a, b);
    hide SumSizes;
    assert forall e :: e in a + b <==> e in a || e in b;
    assert FoldedIn(env, a) !! FoldedIn(env, b) <==> forall e :: e in b ==> env.fold(e.relative) !in FoldedIn(env, a);
  }

  lemma FitsNothing(env: Env, lim: Limits, w: Walk)
    ensures Fits(env, lim, w, []) <==> Within(lim, w)
    ensures Added(env, w, []) == w
  {
    assert FoldedIn(env, []) == {};
  }

  // ---------------------------------------------------------------- the walk

  lemma VisitFits(env: Env, lim: Limits, node: Node, abs: Path, rel: Path, w: Walk)
    requires Within(lim, w)
    ensures var own := [Described(env, node, abs, rel)];
            && (Visit(env, lim, node, abs, rel, w).Ok? <==> Fits(env, lim, w, own))
            && (Visit(env, lim, node, abs, rel, w).Ok? ==>
                  Visit(env, lim, node, abs, rel, w).value == Added(env, w, own))
  {
    var e := Described(env, node, abs, rel);
    PushedFolds(env, [], e);
    assert [] + [e] == [e];
    assert FoldedIn(env, []) == {};
  }

  lemma {:induction false} WholeAllAtLeast(env: Env, parent: Node, children: seq<Keyed<Node>>, abs: Path, rel: Path)
    requires Lawful(env) && forall c :: c in children ==> c.value < parent
    ensures |WholeAll(env, parent, children, abs, rel)| >= |children|
    decreases |children|
  {
    if children != [] {
      WholeAllAtLeast(env, parent, children[1..], abs, rel);
    }
  }

  lemma FitsIsWithin(env: Env, lim: Limits, w: Walk, entries: seq<Source>)
    requires Fits(env, lim, w, entries)
    ensures Within(lim, Added(env, w, entries)) && |w.entries| + |entries| <= lim.maxEntries
  {
  }

  /** The walk adds the whole tree, when it fits. */
  lemma {:induction false} CollectsWhole(env: Env, lim: Limits, node: Node, abs: Path, rel: Path, w: Walk)
    requires Lawful(env) && Within(lim, w)
    ensures var whole, r := Whole(env, node, abs, rel), Collect(env, lim, node, abs, rel, w);
            (r.Ok? <==> Fits(env, lim, w, whole)) && (r.Ok? ==> r.value == Added(env, w, whole))
    decreases node, 1, 0
  {
    hide Lawful, Within, Fits, Added, Visit, Sort, Described;
    var own := [Described(env, node, abs, rel)];
    var visited := Visit(env, lim, node, abs, rel, w);
    VisitFits(env, lim, node, abs, rel, w);
    if !node.Dir? {
      assert own + [] == own;
    } else {
      ListedAreSmaller(env, node, abs);
      var children := Sort(env.readDir(abs, node.children));
      var below := WholeAll(env, node, children, abs, rel);
      SameLength(env, node, abs);
      WholeAllAtLeast(env, node, children, abs, rel);
      FitsAppend(env, lim, w, own, below);
      AddedAppend(env, w, own, below);
      assert Whole(env, node, abs, rel) == own + below;
      if visited.Ok? {
        FitsIsWithin(env, lim, w, own);
        if Fits(env, lim, visited.value, below) {
          FitsIsWithin(env, lim, visited.value, below);
        }
        CollectsWholeAll(env, lim, node, children, abs, rel, visited.value);
      }
    }
  }

  lemma SameLength(env: Env, node: Node, abs: Path)
    requires Lawful(env) && node.Dir?
    ensures |Sort(env.readDir(abs, node.children))| == |node.children|
  {
    assert |multiset(Sort(env.readDir(abs, node.children)))| == |multiset(node.children)|;
  }

  lemma {:induction false} CollectsWholeAll(env: Env, lim: Limits, parent: Node, children: seq<Keyed<Node>>, abs: Path,
                                            rel: Path, w: Walk)
    requires Lawful(env) && Within(lim, w) && forall c :: c in children ==> c.value < parent
    ensures var whole, r := WholeAll(env, parent, children, abs, rel),
                            CollectAll(env, lim, parent, children, abs, rel, w);
            (r.Ok? <==> Fits(env, lim, w, whole)) && (r.Ok? ==> r.value == Added(env, w, whole))
    decreases parent, 0, |children|
  {
    hide Lawful, Within, Fits, Added, Visit, Sort, Collect, Whole;
    if children == [] {
      FitsNothing(env, lim, w);
    } else {
      var c := children[0];
      var first := Whole(env, c.value, Join(abs, c.key), Join(rel, c.key));
      var others := WholeAll(env, parent, children[1..], abs, rel);
      CollectsWhole(env, lim, c.value, Join(abs, c.key), Join(rel, c.key), w);
      FitsAppend(env, lim, w, first, others);
      AddedAppend(env, w, first, others);
      if Fits(env, lim, w, first) {
        FitsIsWithin(env, lim, w, first);
        CollectsWholeAll(env, lim, parent, children[1..], abs, rel, Added(env, w, first));
      }
    }
  }

  // ---------------------------------------------------------------- listings in any order

  lemma SumOfOne(e: Source)
    ensures SumSizes([e]) == e.size
  {
    assert [e][..0] == [];
  }

  lemma SumSplit(a: seq<Source>, e: Source, b: seq<Source>)
    ensures SumSizes(a + ([e] + b)) == SumSizes(a + b) + e.size
  {
    hide SumSizes;
    SumsAppend(a, [e] + b);
    SumsAppend([e], b);
    SumsAppend(a, b);
    SumOfOne(e);
  }

  lemma {:induction false} SumPermutes(a: seq<Source>, b: seq<Source>)
    requires multiset(a) == multiset(b)
    ensures SumSizes(a) == SumSizes(b)
    decreases |a|
  {
    hide SumSizes;
    if a == [] {
      assert |multiset(b)| == |b|;
      assert a == b;
    } else {
      var j := RemoveFirst(a, b);
      SumPermutes(a[1..], b[..j] + b[j + 1..]);
      SumSplit([], a[0], a[1..]);
      SumSplit(b[..j], b[j], b[j + 1..]);
      assert a == [] + ([a[0]] + a[1..]) && a[1..] == [] + a[1..];
      assert b == b[..j] + ([b[j]] + b[j + 1..]);
    }
  }

  /** Order does not matter to what may be added. */
  lemma FitsPermutes(env: Env, lim: Limits, w: Walk, a: seq<Source>, b: seq<Source>)
    requires multiset(a) == multiset(b)
    ensures Fits(env, lim, w, a) <==> Fits(env, lim, w, b)
  {
    SumPermutes(a, b);
    forall e ensures e in a <==> e in b {
      assert e in multiset(a) <==> e in multiset(b);
    }
    assert |multiset(a)| == |a| && |multiset(b)| == |b|;
    assert FoldedIn(env, a) == FoldedIn(env, b);
  }

  /**
   * A walk succeeds exactly when the nodes of its tree fit, and it then adds one
   * description of every node and nothing else.
   */
  lemma WalkAddsTheTree(env: Env, lim: Limits, node: Node, abs: Path, rel: Path, w: Walk, listing: seq<Source>)
    requires Lawful(env) && WellFormedTree(node) && Within(lim, w) && ListsTree(env, node, abs, rel, listing)
    ensures var r := Collect(env, lim, node, abs, rel, w);
            && (r.Ok? <==> Fits(env, lim, w, listing))
            && (r.Ok? ==> w.entries <= r.value.entries
                          && ListsTree(env, node, abs, rel, r.value.entries[|w.entries|..]))
  {
    hide Lawful, ListsTree, Fits, Collect, FoldedIn, SumSizes, Whole, WellFormedTree;
    var whole := Whole(env, node, abs, rel);
    CollectsWhole(env, lim, node, abs, rel, w);
    WholeListsTree(env, node, abs, rel);
    ListingsAgree(env, node, abs, rel, listing, whole);
    FitsPermutes(env, lim, w, listing, whole);
    assert (w.entries + whole)[|w.entries|..] == whole;
  }

  // ---------------------------------------------------------------- all chosen paths

  function Flatten(lists: seq<seq<Source>>): seq<Source> {
    if lists == [] then [] else lists[0] + Flatten(lists[1..])
  }

  function WholeRoots(env: Env, roots: seq<Keyed<Root>>): seq<Source>
    requires Lawful(env)
  {
    if roots == [] then []
    else Whole(env, roots[0].value.node, roots[0].value.absolute, roots[0].value.name) + WholeRoots(env, roots[1..])
  }

  lemma {:induction false} CollectsWholeRoots(env: Env, lim: Limits, roots: seq<Keyed<Root>>, w: Walk)
    requires Lawful(env) && Within(lim, w)
    ensures var whole, r := WholeRoots(env, roots), CollectRoots(env, lim, roots, w);
            (r.Ok? <==> Fits(env, lim, w, whole)) && (r.Ok? ==> r.value == Added(env, w, whole))
    decreases |roots|
  {
    hide Lawful, Within, Fits, Added, Collect, Whole;
    if roots == [] {
      FitsNothing(env, lim, w);
    } else {
      var root := roots[0].value;
      var first := Whole(env, root.node, root.absolute, root.name);
      var others := WholeRoots(env, roots[1..]);
      CollectsWhole(env, lim, root.node, root.absolute, root.name, w);
      FitsAppend(env, lim, w, first, others);
      AddedAppend(env, w, first, others);
      if Fits(env, lim, w, first) {
        FitsIsWithin(env, lim, w, first);
        CollectsWholeRoots(env, lim, roots[1..], Added(env, w, first));
      }
    }
  }

  lemma {:induction false} WholeRootsAppend(env: Env, a: seq<Keyed<Root>>, b: seq<Keyed<Root>>)
    requires Lawful(env)
    ensures WholeRoots(env, a + b) == WholeRoots(env, a) + WholeRoots(env, b)
    decreases |a|
  {
    hide Lawful, Whole;
    if a == [] {
      assert a + b == b;
    } else {
      assert (a + b)[1..] == a[1..] + b;
      WholeRootsAppend(env, a[1..], b);
    }
  }

  lemma WholeRootsRemove(env: Env, roots: seq<Keyed<Root>>, j: nat)
    requires Lawful(env) && j < |roots|
    ensures multiset(WholeRoots(env, roots)) ==
            multiset(WholeRoots(env, roots[..j] + roots[j + 1..])) + multiset(WholeRoots(env, [roots[j]]))
  {
    hide Lawful, WholeRoots;
    var a, x, b := roots[..j], [roots[j]], roots[j + 1..];
    assert roots == a + (x + b);
    WholeRootsAppend(env, a, x + b);
    WholeRootsAppend(env, x, b);
    WholeRootsAppend(env, a, b);
  }

  lemma {:induction false} WholeRootsPermute(env: Env, a: seq<Keyed<Root>>, b: seq<Keyed<Root>>)
    requires Lawful(env) && multiset(a) == multiset(b)
    ensures multiset(WholeRoots(env, a)) == multiset(WholeRoots(env, b))
    decreases |a|
  {
    hide Lawful, WholeRoots;
    if a == [] {
      assert |multiset(b)| == |b|;
      assert a == b;
    } else {
      var j := RemoveFirst(a, b);
      WholeRootsPermute(env, a[1..], b[..j] + b[j + 1..]);
      assert a[..0] + a[0 + 1..] == a[1..];
      WholeRootsRemove(env, a, 0);
      WholeRootsRemove(env, b, j);
    }
  }

  /** `listings[i]` lists the tree of the `i`th root. */
  ghost predicate ListsRoots(env: Env, roots: seq<Keyed<Root>>, listings: seq<seq<Source>>) {
    |listings| == |roots| && forall i :: 0 <= i < |roots| ==>
      ListsTree(env, roots[i].value.node, roots[i].value.absolute, roots[i].value.name, listings[i])
  }

  lemma ListsRootsTail(env: Env, roots: seq<Keyed<Root>>, listings: seq<seq<Source>>)
    requires ListsRoots(env, roots, listings) && roots != []
    ensures ListsRoots(env, roots[1..], listings[1..]) && listings != []
    ensures var r := roots[0].value; ListsTree(env, r.node, r.absolute, r.name, listings[0])
  {
    hide ListsTree;
  }

  lemma {:induction false} ListingsOfRootsAgree(env: Env, roots: seq<Keyed<Root>>, listings: seq<seq<Source>>)
    requires Lawful(env) && ListsRoots(env, roots, listings)
    requires forall r :: r in roots ==> WellFormedTree(r.value.node)
    ensures multiset(Flatten(listings)) == multiset(WholeRoots(env, roots))
    decreases |roots|
  {
    if roots != [] {
      ListsRootsTail(env, roots, listings);
      hide Lawful, ListsRoots, ListsTree, WellFormedTree, Whole;
      var r := roots[0].value;
      assert roots[0] in roots;
      WholeListsTree(env, r.node, r.absolute, r.name);
      ListingsAgree(env, r.node, r.absolute, r.name, listings[0], Whole(env, r.node, r.absolute, r.name));
      ListingsOfRootsAgree(env, roots[1..], listings[1..]);
    }
  }

  lemma {:induction false} WholeRootsAtLeast(env: Env, roots: seq<Keyed<Root>>)
    requires Lawful(env)
    ensures |WholeRoots(env, roots)| >= |roots|
    decreases |roots|
  {
    if roots != [] {
      WholeRootsAtLeast(env, roots[1..]);
    }
  }

  /** Whether anything is chosen and the configured limits are usable. */
  predicate Usable(cfg: Config, paths: seq<Path>) {
    paths != [] && cfg.maxEntries > 0 && cfg.maxTransferBytes <= T.MAX_TRANSFER_TOTAL_BYTES
  }

  lemma RootsWellFormed(env: Env, lookup: Lookup, paths: seq<Path>)
    requires SoundLookup(lookup)
    ensures forall r :: r in RootsOf(env, lookup, paths) ==> WellFormedTree(r.value.node)
  {
    RootsOfAt(env, lookup, paths);
  }

  /**
   * A transfer is built exactly when the limits are usable, every chosen path
   * resolves, no two base names agree up to case, and the nodes of all the trees
   * fit together.  It then has one entry for every node below every chosen path,
   * with that node's paths, length and digest, and no other entry.
   */
  lemma QueuesTheTreesIff(env: Env, lookup: Lookup, cfg: Config, paths: seq<Path>, listings: seq<seq<Source>>)
    requires Lawful(env) && SoundLookup(lookup)
    requires ListsRoots(env, RootsOf(env, lookup, paths), listings)
    ensures var r := Build(env, lookup, cfg, paths);
            && (r.Ok? <==>
                && Usable(cfg, paths) && AllResolve(env, lookup, paths)
                && NamesNew(RootsOf(env, lookup, paths), {})
                && Fits(env, LimitsOf(cfg), Walk([], {}, 0), Flatten(listings)))
            && (r.Ok? ==> multiset(r.value.entries) == multiset(Flatten(listings)))
  {
    var roots := RootsOf(env, lookup, paths);
    var whole := WholeRoots(env, Sort(roots));
    hide *;
    BuildFits(env, lookup, cfg, paths);
    SortedListingsAgree(env, lookup, paths, listings);
    FitsPermutes(env, LimitsOf(cfg), Walk([], {}, 0), Flatten(listings), whole);
  }

  lemma BuildIs(env: Env, lookup: Lookup, cfg: Config, paths: seq<Path>)
    requires Lawful(env)
    ensures var r, resolved := Build(env, lookup, cfg, paths), ResolveRoots(env, lookup, paths, {});
            && (r.Ok? <==> Usable(cfg, paths) && |paths| <= LimitsOf(cfg).maxEntries && resolved.Ok?
                           && CollectRoots(env, LimitsOf(cfg), Sort(resolved.value), Walk([], {}, 0)).Ok?)
            && (r.Ok? ==> r == CollectRoots(env, LimitsOf(cfg), Sort(resolved.value), Walk([], {}, 0)))
  {
    hide Lawful, Sort, CollectRoots, ResolveRoots;
  }

  /** A build adds the whole trees of its roots, when everything resolves and fits. */
  lemma BuildFits(env: Env, lookup: Lookup, cfg: Config, paths: seq<Path>)
    requires Lawful(env)
    ensures var r := Build(env, lookup, cfg, paths);
            var whole := WholeRoots(env, Sort(RootsOf(env, lookup, paths)));
            && (r.Ok? <==>
                && Usable(cfg, paths) && AllResolve(env, lookup, paths)
                && NamesNew(RootsOf(env, lookup, paths), {})
                && Fits(env, LimitsOf(cfg), Walk([], {}, 0), whole))
            && (r.Ok? ==> r.value.entries == whole)
  {
    var roots := Sort(RootsOf(env, lookup, paths));
    var empty, whole := Walk([], {}, 0), WholeRoots(env, roots);
    assert |multiset(roots)| == |multiset(RootsOf(env, lookup, paths))|;
    assert Within(LimitsOf(cfg), empty);
    hide *;
    BuildIs(env, lookup, cfg, paths);
    ResolveRootsIff(env, lookup, paths, {});
    CollectsWholeRoots(env, LimitsOf(cfg), roots, empty);
    AddedToEmpty(env, whole);
    WholeRootsAtLeast(env, roots);
    if Fits(env, LimitsOf(cfg), empty, whole) {
      FitsIsWithin(env, LimitsOf(cfg), empty, whole);
    }
  }

  lemma SortedListingsAgree(env: Env, lookup: Lookup, paths: seq<Path>, listings: seq<seq<Source>>)
    requires Lawful(env) && SoundLookup(lookup)
    requires ListsRoots(env, RootsOf(env, lookup, paths), listings)
    ensures multiset(Flatten(listings)) == multiset(WholeRoots(env, Sort(RootsOf(env, lookup, paths))))
  {
    var roots := RootsOf(env, lookup, paths);
    RootsWellFormed(env, lookup, paths);
    hide Lawful, RootsOf, ListsRoots, WholeRoots, Flatten, Sort, WellFormedTree;
    ListingsOfRootsAgree(env, roots, listings);
    WholeRootsPermute(env, roots, Sort(roots));
  }

  lemma AddedToEmpty(env: Env, entries: seq<Source>)
    ensures Added(env, Walk([], {}, 0), entries).entries == entries
  {
  }

  lemma {:induction false} ListingsExist(env: Env, roots: seq<Keyed<Root>>) returns (listings: seq<seq<Source>>)
    requires Lawful(env) && forall r :: r in roots ==> WellFormedTree(r.value.node)
    ensures ListsRoots(env, roots, listings)
    decreases |roots|
  {
    hide Lawful, ListsTree, WellFormedTree, Whole;
    if roots == [] {
      listings := [];
    } else {
      var r := roots[0].value;
      assert roots[0] in roots;
      WholeListsTree(env, r.node, r.absolute, r.name);
      var rest := ListingsExist(env, roots[1..]);
      listings := [Whole(env, r.node, r.absolute, r.name)] + rest;
    }
  }

  lemma ListedIn(env: Env, node: Node, abs: Path, rel: Path, listing: seq<Source>, names: seq<Path>)
    requires ListsTree(env, node, abs, rel, listing) && NodeAt(node, names).Some?
    ensures Described(env, NodeAt(node, names).value, JoinAll(abs, names), JoinAll(rel, names)) in listing
  {
    hide NodeAt, Described, JoinAll;
    var addresses :| Addresses(node, addresses) && Describe(env, node, abs, rel, addresses, listing);
    assert names in addresses;
    var i :| 0 <= i < |addresses| && addresses[i] == names;
    assert listing[i] in listing;
  }

  lemma {:induction false} FlattenHolds(lists: seq<seq<Source>>, i: nat, e: Source)
    requires i < |lists| && e in lists[i]
    ensures e in Flatten(lists)
    decreases |lists|
  {
    if i > 0 {
      FlattenHolds(lists[1..], i - 1, e);
    }
  }

  /** Nothing below a chosen path is left out of a queued transfer. */
  lemma EveryNodeIsQueued(env: Env, lookup: Lookup, cfg: Config, paths: seq<Path>, p: Path, names: seq<Path>)
    requires Lawful(env) && SoundLookup(lookup) && Build(env, lookup, cfg, paths).Ok?
    requires p in paths && lookup(p).Some? && NodeAt(lookup(p).value.node, names).Some?
    ensures var root := lookup(p).value;
            Described(env, NodeAt(root.node, names).value, JoinAll(root.absolute, names), JoinAll(root.name, names))
              in Build(env, lookup, cfg, paths).value.entries
  {
    hide Build, Lawful, SoundLookup, NodeAt, Described, JoinAll, ListsTree, Flatten, RootsOf, Fits, WellFormedTree;
    var roots, root := RootsOf(env, lookup, paths), lookup(p).value;
    RootsWellFormed(env, lookup, paths);
    RootsOfAt(env, lookup, paths);
    var listings := ListingsExist(env, roots);
    QueuesTheTreesIff(env, lookup, cfg, paths, listings);
    var i :| 0 <= i < |paths| && paths[i] == p;
    ListedIn(env, root.node, root.absolute, root.name, listings[i], names);
    var e := Described(env, NodeAt(root.node, names).value, JoinAll(root.absolute, names), JoinAll(root.name, names));
    FlattenHolds(listings, i, e);
    assert e in multiset(Flatten(listings));
  }

  /** A stored record that is accepted lists exactly what now lies below its roots, and passes the receiver's policy. */
  lemma AcceptedRecordIsCurrent(env: Env, lookup: Lookup, cfg: Config, entries: seq<Source>, total: nat,
                                listings: seq<seq<Source>>)
    requires Lawful(env) && SoundLookup(lookup) && RecordValid(env, lookup, cfg, entries, total)
    requires ListsRoots(env, RootsOf(env, lookup, RootPaths(entries)), listings)
    ensures multiset(entries) == multiset(Flatten(listings)) && total == SumSizes(Flatten(listings))
    ensures PolicyAccepts(env, LimitsOf(cfg), entries, total)
  {
    hide Build, Lawful, SoundLookup, RootPaths, RootsOf, ListsRoots, Flatten, SumSizes, Fits, PolicyAccepts, WalkSound;
    QueuesTheTreesIff(env, lookup, cfg, RootPaths(entries), listings);
    QueuedPassesPolicy(env, lookup, cfg, RootPaths(entries));
    SumPermutes(entries, Flatten(listings));
  }
}
