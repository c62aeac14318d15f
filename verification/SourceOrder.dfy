/**
 * The order in which a sender lists the files of a transfer: a file always comes
 * before one that is named like its part.  apps/desktop/src/file_transfer.rs:1730-1747, 1857-1880.
 */
module SourceOrder {
  import opened Wrappers
  import opened ByteOrder
  import opened SourceTree

  /** The suffix of a part's name, ".part". */
  const PART: Path := [0x2E, 0x70, 0x61, 0x72, 0x74]

  /** No entry is listed before another one whose part it is named like. */
  ghost predicate OwnersListedFirst(entries: seq<Source>) {
    forall i, j :: 0 <= i < |entries| && 0 <= j < |entries| && entries[j].relative == entries[i].relative + PART ==>
      i < j
  }

  /** Case folding puts a name before the name of its part. */
  ghost predicate FoldsInOrder(env: Env) {
    forall name: Path :: Before(env.fold(name), env.fold(name + PART))
  }

  /** `path` is `rel` or lies below it. */
  predicate Within(path: Path, rel: Path) {
    path == rel || (|path| > |rel| && path[..|rel|] == rel && path[|rel|] == SLASH)
  }

  /** Nothing listed so far gets in the way of listing `rel` and what is below it. */
  ghost predicate Clear(entries: seq<Source>, rel: Path) {
    forall e :: e in entries ==> !Within(e.relative, rel) && e.relative != rel + PART
  }

  /** What was added lies within `rel`. */
  ghost predicate AddedWithin(before: seq<Source>, after: seq<Source>, rel: Path) {
    before <= after && forall e :: e in after[|before|..] ==> Within(e.relative, rel)
  }

  lemma {:induction false} PartComesAfter(name: Path)
    ensures Before(name, name + PART)
  {
    if name != [] {
      PartComesAfter(name[1..]);
      assert (name + PART)[1..] == name[1..] + PART;
    }
  }

  lemma WithinTransitive(path: Path, child: Path, rel: Path)
    requires Within(path, child) && Within(child, rel)
    ensures Within(path, rel)
  {
    if path != child && child != rel {
      assert path[..|rel|] == path[..|child|][..|rel|];
    }
  }

  lemma JoinWithin(rel: Path, name: Path)
    ensures Within(Join(rel, name), rel)
  {
    assert Join(rel, name)[..|rel|] == rel;
  }

  /** Below the child with the shorter name, a longer child's name would hold a separator. */
  lemma LongerSibling(path: Path, rel: Path, a: Path, b: Path)
    requires Within(path, Join(rel, a)) && Within(path, Join(rel, b)) && |a| < |b|
    ensures SLASH in b
  {
    var ja, jb := Join(rel, a), Join(rel, b);
    assert path[|ja|] == SLASH;
    assert jb[|ja|] == path[..|jb|][|ja|] == SLASH;
    assert jb[|ja|] == b[|a|];
  }

  /** Paths within two different children of one directory are different. */
  lemma SiblingsApart(path: Path, rel: Path, a: Path, b: Path)
    requires SLASH !in a && SLASH !in b && Within(path, Join(rel, a)) && Within(path, Join(rel, b))
    ensures a == b
  {
    if |a| < |b| {
      LongerSibling(path, rel, a, b);
    } else if |b| < |a| {
      LongerSibling(path, rel, b, a);
    } else {
      var ja, jb := Join(rel, a), Join(rel, b);
      assert path[..|ja|] == ja && path[..|jb|] == jb;
      assert ja[|rel| + 1..] == a && jb[|rel| + 1..] == b;
    }
  }

  /** A path within a child whose path is another child's part is that child. */
  lemma PartSibling(rel: Path, a: Path, b: Path)
    requires SLASH !in a && SLASH !in b && Within(Join(rel, b) + PART, Join(rel, a))
    ensures a == b + PART
  {
    assert Join(rel, b) + PART == Join(rel, b + PART);
    assert forall x :: x in b + PART ==> x in b || x in PART;
    SiblingsApart(Join(rel, b + PART), rel, a, b + PART);
  }

  /** Listing a child keeps the way clear for the later ones. */
  lemma ClearForLater(before: seq<Source>, after: seq<Source>, rel: Path, first: Path, later: Path)
    requires Clear(before, Join(rel, later)) && AddedWithin(before, after, Join(rel, first))
    requires SLASH !in first && SLASH !in later && Before(first, later)
    ensures Clear(after, Join(rel, later))
  {
    BeforeIsTotal(first, later);
    forall e | e in after ensures !Within(e.relative, Join(rel, later)) && e.relative != Join(rel, later) + PART {
      assert after == before + after[|before|..];
      if e in after[|before|..] {
        if Within(e.relative, Join(rel, later)) {
          SiblingsApart(e.relative, rel, first, later);
          assert false;
        }
        if e.relative == Join(rel, later) + PART {
          PartSibling(rel, first, later);
          PartComesAfter(later);
          BeforeIsTotal(first, later);
          assert false;
        }
      }
    }
  }

  /** Going down into a directory: nothing so far is below it but itself. */
  lemma ClearBelow(before: seq<Source>, e: Source, rel: Path, name: Path)
    requires Clear(before, rel) && e.relative == rel
    ensures Clear(before + [e], Join(rel, name))
  {
    JoinWithin(rel, name);
    forall x | x in before + [e] ensures !Within(x.relative, Join(rel, name)) && x.relative != Join(rel, name) + PART {
      if Within(x.relative, Join(rel, name)) {
        WithinTransitive(x.relative, Join(rel, name), rel);
      }
      assert Join(rel, name) + PART == Join(rel, name + PART);
      JoinWithin(rel, name + PART);
    }
  }

  lemma PushKeepsOrder(entries: seq<Source>, e: Source)
    requires OwnersListedFirst(entries) && Clear(entries, e.relative)
    ensures OwnersListedFirst(entries + [e])
  {
    assert |e.relative + PART| > |e.relative|;
    assert forall k :: 0 <= k < |entries| ==> entries[k] in entries;
  }

  /** Listing a node appends its entry. */
  lemma VisitAppends(env: Env, lim: Limits, node: Node, abs: Path, rel: Path, w: Walk)
    requires Visit(env, lim, node, abs, rel, w).Ok?
    ensures !node.Special?
    ensures var e := EntryFor(env, node, abs, rel);
            var visited := Visit(env, lim, node, abs, rel, w).value;
            e.relative == rel && visited.entries == w.entries + [e] && visited.entries[|w.entries|..] == [e]
  {
  }

  /** The children of a directory, sorted. */
  lemma ChildrenInOrder(env: Env, node: Node, abs: Path)
    requires Lawful(env) && WellFormedTree(node) && node.Dir?
    ensures var children := Sort(env.readDir(abs, node.children));
            Ascending(children) && forall c ::
              c in children ==> c.value < node && SLASH !in c.key && WellFormedTree(c.value)
  {
    hide Sort;
    var children := Sort(env.readDir(abs, node.children));
    ListedAreSmaller(env, node, abs);
    ListedAreWellFormed(env, node, abs);
    DistinctIgnoresOrder(node.children, env.readDir(abs, node.children));
    SortAscending(env.readDir(abs, node.children));
  }

  lemma {:induction false} WalkKeepsOrder(env: Env, lim: Limits, node: Node, abs: Path, rel: Path, w: Walk)
    requires Lawful(env) && WellFormedTree(node) && OwnersListedFirst(w.entries) && Clear(w.entries, rel)
    requires Collect(env, lim, node, abs, rel, w).Ok?
    ensures var w' := Collect(env, lim, node, abs, rel, w).value;
            OwnersListedFirst(w'.entries) && AddedWithin(w.entries, w'.entries, rel)
    decreases node, 1, 0
  {
    hide OwnersListedFirst, Clear, Sort, Visit, Lawful, WellFormedTree, EntryFor;
    VisitAppends(env, lim, node, abs, rel, w);
    var e := EntryFor(env, node, abs, rel);
    PushKeepsOrder(w.entries, e);
    var visited := Visit(env, lim, node, abs, rel, w).value;
    if node.Dir? {
      var children := Sort(env.readDir(abs, node.children));
      ChildrenInOrder(env, node, abs);
      forall c | c in children ensures Clear(visited.entries, Join(rel, c.key)) {
        ClearBelow(w.entries, e, rel, c.key);
      }
      WalkAllKeepsOrder(env, lim, node, children, abs, rel, visited);
      var after := Collect(env, lim, node, abs, rel, w).value.entries;
      assert after[|w.entries|..] == [e] + after[|visited.entries|..];
    }
  }

  lemma {:induction false} WalkAllKeepsOrder(env: Env, lim: Limits, parent: Node, children: seq<Keyed<Node>>,
                                             abs: Path, rel: Path, w: Walk)
    requires Lawful(env) && Ascending(children) && OwnersListedFirst(w.entries)
    requires forall c :: c in children ==>
               && c.value < parent && SLASH !in c.key && WellFormedTree(c.value)
               && Clear(w.entries, Join(rel, c.key))
    requires CollectAll(env, lim, parent, children, abs, rel, w).Ok?
    ensures var w' := CollectAll(env, lim, parent, children, abs, rel, w).value;
            OwnersListedFirst(w'.entries) && AddedWithin(w.entries, w'.entries, rel)
    decreases parent, 0, |children|
  {
    hide OwnersListedFirst, Clear, Collect;
    if children != [] {
      var c := children[0];
      WalkKeepsOrder(env, lim, c.value, Join(abs, c.key), Join(rel, c.key), w);
      var w1 := Collect(env, lim, c.value, Join(abs, c.key), Join(rel, c.key), w).value;
      forall d | d in children[1..] ensures Clear(w1.entries, Join(rel, d.key)) {
        var k :| 0 <= k < |children[1..]| && children[1..][k] == d;
        assert children[k + 1] == d;
        ClearForLater(w.entries, w1.entries, rel, c.key, d.key);
      }
      WalkAllKeepsOrder(env, lim, parent, children[1..], abs, rel, w1);
      AddedTwice(w.entries, w1.entries, CollectAll(env, lim, parent, children, abs, rel, w).value.entries,
                 Join(rel, c.key), rel);
    }
  }

  lemma AddedTwice(a: seq<Source>, b: seq<Source>, c: seq<Source>, child: Path, rel: Path)
    requires AddedWithin(a, b, child) && AddedWithin(b, c, rel) && Within(child, rel)
    ensures AddedWithin(a, c, rel)
  {
    assert c[|a|..] == b[|a|..] + c[|b|..];
    forall e | e in b[|a|..] ensures Within(e.relative, rel) {
      WithinTransitive(e.relative, child, rel);
    }
  }

  // ---------------------------------------------------------------- the whole list

  /** Listing one root keeps the way clear for the later ones, whose folded names come later. */
  lemma ClearForLaterRoot(env: Env, before: seq<Source>, after: seq<Source>, first: Path, later: Path)
    requires FoldsInOrder(env) && Clear(before, later) && AddedWithin(before, after, first)
    requires SLASH !in first && SLASH !in later && Before(env.fold(first), env.fold(later))
    ensures Clear(after, later)
  {
    BeforeIsTotal(env.fold(first), env.fold(later));
    BeforeIsTotal(env.fold(later + PART), env.fold(later));
    assert after == before + after[|before|..];
    forall e | e in after[|before|..] ensures !Within(e.relative, later) && e.relative != later + PART {
      if Within(e.relative, later) {
        SameRoot(e.relative, first, later);
        assert false;
      }
      if e.relative == later + PART {
        assert forall x :: x in later + PART ==> x in later || x in PART;
        SameRoot(e.relative, first, later + PART);
        assert false;
      }
    }
  }

  /** A path lies within one root only. */
  lemma SameRoot(path: Path, a: Path, b: Path)
    requires SLASH !in a && SLASH !in b && Within(path, a) && Within(path, b)
    ensures a == b
  {
    FirstSlash(path, a);
    FirstSlash(path, b);
    if |a| == |b| {
      assert path[..|a|] == a && path[..|b|] == b;
    }
  }

  /** A root name is the path up to its first separator. */
  lemma FirstSlash(path: Path, a: Path)
    requires SLASH !in a && Within(path, a)
    ensures |a| <= |path| && (forall k :: 0 <= k < |a| ==> path[k] != SLASH) && (|a| < |path| ==> path[|a|] == SLASH)
  {
    assert path[..|a|] == a;
    assert forall k :: 0 <= k < |a| ==> path[k] == a[k] && a[k] in a;
  }

  lemma {:induction false} RootsKeepOrder(env: Env, lim: Limits, roots: seq<Keyed<Root>>, w: Walk)
    requires Lawful(env) && FoldsInOrder(env) && Ascending(roots) && RootsSound(roots) && OwnersListedFirst(w.entries)
    requires forall r :: r in roots ==> r.key == env.fold(r.value.name) && Clear(w.entries, r.value.name)
    requires CollectRoots(env, lim, roots, w).Ok?
    ensures OwnersListedFirst(CollectRoots(env, lim, roots, w).value.entries)
    decreases |roots|
  {
    hide OwnersListedFirst, Clear, Collect, WellFormedTree;
    if roots != [] {
      var r := roots[0].value;
      assert roots[0] in roots;
      WalkKeepsOrder(env, lim, r.node, r.absolute, r.name, w);
      var w1 := Collect(env, lim, r.node, r.absolute, r.name, w).value;
      forall later | later in roots[1..] ensures Clear(w1.entries, later.value.name) {
        var k :| 0 <= k < |roots[1..]| && roots[1..][k] == later;
        assert roots[k + 1] == later && later in roots;
        ClearForLaterRoot(env, w.entries, w1.entries, r.name, later.value.name);
      }
      RootsKeepOrder(env, lim, roots[1..], w1);
    }
  }

  /** Whatever is queued, from any paths and any trees, a file is listed before one that is named like its part. */
  lemma QueuedOwnersFirst(env: Env, lookup: Lookup, cfg: Config, paths: seq<Path>)
    requires Lawful(env) && SoundLookup(lookup) && FoldsInOrder(env) && Build(env, lookup, cfg, paths).Ok?
    ensures OwnersListedFirst(Build(env, lookup, cfg, paths).value.entries)
  {
    ResolveRootsIff(env, lookup, paths, {});
    SortedRoots(env, lookup, paths);
    SortAscending(RootsOf(env, lookup, paths));
    hide Sort, WellFormedTree, SoundLookup, ResolveRoots;
    RootsKeepOrder(env, LimitsOf(cfg), Sort(RootsOf(env, lookup, paths)), Walk([], {}, 0));
  }
}
