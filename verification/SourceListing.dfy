/**
 * What a queued transfer contains, told from the source trees alone: one entry
 * for every node below every chosen path, and nothing else, exactly when every
 * node is regular and every path, name and limit allows it:
 * apps/desktop/src/file_transfer.rs:1681-1763, 1786-1882.
 */
module SourceListing {
  import opened Wrappers
  import opened ByteOrder
  import opened SourceTree

  // ---------------------------------------------------------------- finding a node by names

  function Child(children: seq<Keyed<Node>>, name: Path): Option<Node> {
    if children == [] then None
    else if children[0].key == name then Some(children[0].value)
    else Child(children[1..], name)
  }

  /** The node that `names` lead to, one directory at a time. */
  function NodeAt(node: Node, names: seq<Path>): Option<Node>
    decreases |names|
  {
    if names == [] then Some(node)
    else if !node.Dir? then None
    else FoundAmong(node.children, names)
  }

  function FoundAmong(children: seq<Keyed<Node>>, names: seq<Path>): Option<Node>
    requires names != []
    decreases |names|, 0
  {
    match Child(children, names[0])
    case None => None
    case Some(child) => NodeAt(child, names[1..])
  }

  function JoinAll(path: Path, names: seq<Path>): Path
    decreases |names|
  {
    if names == [] then path else JoinAll(Join(path, names[0]), names[1..])
  }

  /** The entry a node deserves: its paths, and for a file the length and digest of its content. */
  function Described(env: Env, node: Node, abs: Path, rel: Path): Source {
    match node
    case File(content) => Source(abs, rel, false, |content|, Some(env.hash(content)))
    case Dir(_) => Source(abs, rel, true, 0, None)
    case Special => Source(abs, rel, false, 0, None)
  }

  ghost predicate Distinct<T>(s: seq<T>) {
    forall i, j :: 0 <= i < j < |s| ==> s[i] != s[j]
  }

  /** `addresses` are the name lists that lead to a node, each once. */
  ghost predicate Addresses(node: Node, addresses: seq<seq<Path>>) {
    Distinct(addresses) && forall names :: names in addresses <==> NodeAt(node, names).Some?
  }

  /** The same below the children of a directory. */
  ghost predicate AddressesAmong(children: seq<Keyed<Node>>, addresses: seq<seq<Path>>) {
    Distinct(addresses) && forall names :: names in addresses <==> names != [] && FoundAmong(children, names).Some?
  }

  /** Each entry describes the node at its address. */
  ghost predicate Describe(env: Env, node: Node, abs: Path, rel: Path, addresses: seq<seq<Path>>, entries: seq<Source>)
  {
    |addresses| == |entries| && forall i :: 0 <= i < |entries| ==>
      NodeAt(node, addresses[i]).Some? && entries[i] == Described(env, NodeAt(node, addresses[i]).value,
                                                                  JoinAll(abs, addresses[i]),
                                                                      JoinAll(rel, addresses[i]))
  }

  ghost predicate DescribeAmong(env: Env, children: seq<Keyed<Node>>, abs: Path, rel: Path, addresses: seq<seq<Path>>,
                                entries: seq<Source>)
  {
    |addresses| == |entries| && forall i :: 0 <= i < |entries| ==>
      && addresses[i] != [] && FoundAmong(children, addresses[i]).Some?
      && entries[i] == Described(env, FoundAmong(children, addresses[i]).value,
                                 JoinAll(abs, addresses[i]), JoinAll(rel, addresses[i]))
  }

  /** `entries` hold one description of every node of the tree. */
  ghost predicate ListsTree(env: Env, node: Node, abs: Path, rel: Path, entries: seq<Source>) {
    exists addresses :: Addresses(node, addresses) && Describe(env, node, abs, rel, addresses, entries)
  }

  lemma {:induction false} ChildIff(children: seq<Keyed<Node>>, name: Path, child: Node)
    requires DistinctKeys(children)
    ensures Child(children, name) == Some(child) <==> Keyed(name, child) in children
  {
    if children != [] {
      DistinctTail(children);
      ChildIff(children[1..], name, child);
      assert children == [children[0]] + children[1..];
    }
  }

  lemma DistinctTail(children: seq<Keyed<Node>>)
    requires DistinctKeys(children) && children != []
    ensures DistinctKeys(children[1..]) && forall c :: c in children[1..] ==> c.key != children[0].key
  {
    assert children == [children[0]] + children[1..];
    DistinctHead(children[0], children[1..]);
  }

  /** Looking a child up does not depend on the order of the children. */
  lemma ChildIgnoresOrder(a: seq<Keyed<Node>>, b: seq<Keyed<Node>>, name: Path)
    requires DistinctKeys(a) && DistinctKeys(b) && forall c :: c in a <==> c in b
    ensures Child(a, name) == Child(b, name)
  {
    if Child(a, name).Some? {
      ChildIff(a, name, Child(a, name).value);
      ChildIff(b, name, Child(a, name).value);
    }
    if Child(b, name).Some? {
      ChildIff(b, name, Child(b, name).value);
      ChildIff(a, name, Child(b, name).value);
    }
  }

  // ---------------------------------------------------------------- the whole tree, and its addresses

  /** Every node of the tree, each directory before what it holds. */
  function Whole(env: Env, node: Node, abs: Path, rel: Path): seq<Source>
    requires Lawful(env)
    decreases node, 1, 0
  {
    [Described(env, node, abs, rel)] +
    if !node.Dir? then []
    else
      var children := Sort(env.readDir(abs, node.children));
      ListedAreSmaller(env, node, abs);
      WholeAll(env, node, children, abs, rel)
  }

  function WholeAll(env: Env, ghost parent: Node, children: seq<Keyed<Node>>, abs: Path, rel: Path): seq<Source>
    requires Lawful(env) && forall c :: c in children ==> c.value < parent
    decreases parent, 0, |children|
  {
    if children == [] then []
    else
      Whole(env, children[0].value, Join(abs, children[0].key), Join(rel, children[0].key))
      + WholeAll(env, parent, children[1..], abs, rel)
  }

  function Under(name: Path, addresses: seq<seq<Path>>): (r: seq<seq<Path>>)
    ensures |r| == |addresses| && forall i :: 0 <= i < |r| ==> r[i] == [name] + addresses[i]
  {
    seq(|addresses|, i requires 0 <= i < |addresses| => [name] + addresses[i])
  }

  lemma UnderIff(name: Path, addresses: seq<seq<Path>>, names: seq<Path>)
    ensures names in Under(name, addresses) <==> names != [] && names[0] == name && names[1..] in addresses
  {
    var r := Under(name, addresses);
    if names in r {
      var i :| 0 <= i < |r| && r[i] == names;
      assert names[1..] == addresses[i];
    }
    if names != [] && names[0] == name && names[1..] in addresses {
      var i :| 0 <= i < |addresses| && addresses[i] == names[1..];
      assert names == [name] + names[1..];
      assert r[i] == names;
    }
  }

  lemma UnderDistinct(name: Path, addresses: seq<seq<Path>>)
    requires Distinct(addresses)
    ensures Distinct(Under(name, addresses))
  {
    var r := Under(name, addresses);
    forall i, j | 0 <= i < j < |r| ensures r[i] != r[j] {
      assert r[i][1..] == addresses[i] && r[j][1..] == addresses[j];
    }
  }

  lemma DistinctAppend<T>(a: seq<T>, b: seq<T>)
    requires Distinct(a) && Distinct(b) && forall x :: x in a ==> x !in b
    ensures Distinct(a + b)
  {
    var s := a + b;
    forall i, j | 0 <= i < j < |s| ensures s[i] != s[j] {
      if i < |a| <= j {
        assert s[i] in a && s[j] in b;
      }
    }
  }

  /** The first child's tree and the other children's trees, side by side. */
  lemma AddressesOfForest(children: seq<Keyed<Node>>, first: seq<seq<Path>>, rest: seq<seq<Path>>)
    requires children != [] && DistinctKeys(children)
    requires Addresses(children[0].value, first) && AddressesAmong(children[1..], rest)
    ensures AddressesAmong(children, Under(children[0].key, first) + rest)
  {
    var key, child := children[0].key, children[0].value;
    var mine := Under(key, first);
    UnderDistinct(key, first);
    DistinctTail(children);
    forall names ensures names in mine <==> names != [] && names[0] == key && NodeAt(child, names[1..]).Some? {
      UnderIff(key, first, names);
    }
    forall names | names in rest ensures names[0] != key {
      var found := Child(children[1..], names[0]);
      ChildIff(children[1..], names[0], found.value);
    }
    DistinctAppend(mine, rest);
    forall names ensures names in mine + rest <==> names != [] && FoundAmong(children, names).Some? {
      if names != [] && names[0] != key {
        assert FoundAmong(children, names) == FoundAmong(children[1..], names);
      }
    }
  }

  lemma DescribedForest(env: Env, children: seq<Keyed<Node>>, abs: Path, rel: Path, first: seq<seq<Path>>,
                        mine: seq<Source>, rest: seq<seq<Path>>, others: seq<Source>)
    requires children != [] && DistinctKeys(children)
    requires var c := children[0]; Describe(env, c.value, Join(abs, c.key), Join(rel, c.key), first, mine)
    requires DescribeAmong(env, children[1..], abs, rel, rest, others)
    ensures DescribeAmong(env, children, abs, rel, Under(children[0].key, first) + rest, mine + others)
  {
    var key := children[0].key;
    var under := Under(key, first);
    var all, entries := under + rest, mine + others;
    DistinctTail(children);
    forall i | 0 <= i < |entries|
      ensures all[i] != [] && FoundAmong(children, all[i]).Some?
      ensures entries[i] == Described(env, FoundAmong(children, all[i]).value, JoinAll(abs, all[i]),
                                      JoinAll(rel, all[i]))
    {
      if i < |mine| {
        assert all[i] == [key] + first[i] && all[i][1..] == first[i];
      } else {
        var names := rest[i - |mine|];
        ChildIff(children[1..], names[0], Child(children[1..], names[0]).value);
        assert names[0] != key;
      }
    }
  }

  /** A directory's own address is empty; the others are those among its children. */
  lemma AddressesOfDir(node: Node, children: seq<Keyed<Node>>, below: seq<seq<Path>>)
    requires node.Dir? && DistinctKeys(node.children) && DistinctKeys(children)
    requires forall c :: c in children <==> c in node.children
    requires AddressesAmong(children, below)
    ensures Addresses(node, [[]] + below)
  {
    DistinctAppend([[]], below);
    forall names ensures names in [[]] + below <==> NodeAt(node, names).Some? {
      if names != [] {
        ChildIgnoresOrder(children, node.children, names[0]);
      }
    }
  }

  lemma DescribedDir(env: Env, node: Node, children: seq<Keyed<Node>>, abs: Path, rel: Path, below: seq<seq<Path>>,
                     entries: seq<Source>)
    requires node.Dir? && DistinctKeys(node.children) && DistinctKeys(children)
    requires forall c :: c in children <==> c in node.children
    requires DescribeAmong(env, children, abs, rel, below, entries)
    ensures Describe(env, node, abs, rel, [[]] + below, [Described(env, node, abs, rel)] + entries)
  {
    var all, whole := [[]] + below, [Described(env, node, abs, rel)] + entries;
    forall i | 0 <= i < |whole|
      ensures NodeAt(node, all[i]).Some?
      ensures whole[i] == Described(env, NodeAt(node, all[i]).value, JoinAll(abs, all[i]), JoinAll(rel, all[i]))
    {
      if i > 0 {
        assert all[i] == below[i - 1];
        ChildIgnoresOrder(children, node.children, all[i][0]);
      }
    }
  }

  lemma LeafLists(env: Env, node: Node, abs: Path, rel: Path)
    requires !node.Dir?
    ensures Addresses(node, [[]]) && Describe(env, node, abs, rel, [[]], [Described(env, node, abs, rel)])
  {
  }

  lemma ListedKeepKeys(env: Env, node: Node, abs: Path)
    requires Lawful(env) && WellFormedTree(node) && node.Dir?
    ensures DistinctKeys(Sort(env.readDir(abs, node.children)))
  {
    DistinctIgnoresOrder(node.children, env.readDir(abs, node.children));
    DistinctIgnoresOrder(env.readDir(abs, node.children), Sort(env.readDir(abs, node.children)));
  }

  /** The whole tree is listed: one description of each node. */
  lemma {:induction false} WholeLists(env: Env, node: Node, abs: Path, rel: Path) returns (addresses: seq<seq<Path>>)
    requires Lawful(env) && WellFormedTree(node)
    ensures Addresses(node, addresses) && Describe(env, node, abs, rel, addresses, Whole(env, node, abs, rel))
    decreases node, 1, 0
  {
    hide Lawful, Sort, Addresses, AddressesAmong, Describe, DescribeAmong, DistinctKeys, Described;
    if !node.Dir? {
      addresses := [[]];
      LeafLists(env, node, abs, rel);
      assert [Described(env, node, abs, rel)] + [] == [Described(env, node, abs, rel)];
    } else {
      var children := Sort(env.readDir(abs, node.children));
      ListedAreWellFormed(env, node, abs);
      ListedAreSmaller(env, node, abs);
      ListedKeepKeys(env, node, abs);
      var below := WholeAllLists(env, node, children, abs, rel);
      addresses := [[]] + below;
      AddressesOfDir(node, children, below);
      DescribedDir(env, node, children, abs, rel, below, WholeAll(env, node, children, abs, rel));
    }
  }

  lemma {:induction false} WholeAllLists(env: Env, parent: Node, children: seq<Keyed<Node>>, abs: Path, rel: Path)
    returns (addresses: seq<seq<Path>>)
    requires Lawful(env) && DistinctKeys(children)
    requires forall c :: c in children ==> c.value < parent && WellFormedTree(c.value)
    ensures AddressesAmong(children, addresses)
    ensures DescribeAmong(env, children, abs, rel, addresses, WholeAll(env, parent, children, abs, rel))
    decreases parent, 0, |children|
  {
    hide Lawful, Sort, Describe, Addresses, DistinctKeys, Described, WellFormedTree, Whole;
    if children == [] {
      addresses := [];
    } else {
      var c := children[0];
      DistinctTail(children);
      var first := WholeLists(env, c.value, Join(abs, c.key), Join(rel, c.key));
      var rest := WholeAllLists(env, parent, children[1..], abs, rel);
      addresses := Under(c.key, first) + rest;
      hide AddressesAmong, DescribeAmong;
      AddressesOfForest(children, first, rest);
      DescribedForest(env, children, abs, rel, first, Whole(env, c.value, Join(abs, c.key), Join(rel, c.key)), rest,
                      WholeAll(env, parent, children[1..], abs, rel));
    }
  }

  /** The listing the walk is measured against is the tree's: its entries are one description of each node. */
  lemma WholeListsTree(env: Env, node: Node, abs: Path, rel: Path)
    requires Lawful(env) && WellFormedTree(node)
    ensures ListsTree(env, node, abs, rel, Whole(env, node, abs, rel))
  {
    hide Addresses, Describe, Whole;
    var addresses := WholeLists(env, node, abs, rel);
  }

  // ---------------------------------------------------------------- any two listings agree

  lemma CountsOfDistinct<T>(s: seq<T>, x: T)
    requires Distinct(s)
    ensures multiset(s)[x] == if x in s then 1 else 0
    decreases |s|
  {
    if s != [] {
      assert s == [s[0]] + s[1..];
      forall i, j | 0 <= i < j < |s[1..]| ensures s[1..][i] != s[1..][j] {
        assert s[i + 1] != s[j + 1];
      }
      CountsOfDistinct(s[1..], x);
    }
  }

  lemma DistinctSameMembers<T>(a: seq<T>, b: seq<T>)
    requires Distinct(a) && Distinct(b) && forall x :: x in a <==> x in b
    ensures multiset(a) == multiset(b)
  {
    forall x ensures multiset(a)[x] == multiset(b)[x] {
      CountsOfDistinct(a, x);
      CountsOfDistinct(b, x);
    }
  }

  /** One address taken out takes its entry out. */
  lemma DescribeRemove(env: Env, node: Node, abs: Path, rel: Path, addresses: seq<seq<Path>>, entries: seq<Source>,
                       j: nat)
    returns (left: seq<seq<Path>>, rest: seq<Source>)
    requires Describe(env, node, abs, rel, addresses, entries) && j < |entries|
    ensures Describe(env, node, abs, rel, left, rest) && left == addresses[..j] + addresses[j + 1..]
    ensures multiset(entries) == multiset(rest) + multiset{entries[j]}
  {
    left, rest := addresses[..j] + addresses[j + 1..], entries[..j] + entries[j + 1..];
    RemoveMultiset(entries, j);
    hide Described, NodeAt, JoinAll;
    forall i | 0 <= i < |rest|
      ensures left[i] == addresses[if i < j then i else i + 1] && rest[i] == entries[if i < j then i else i + 1]
    {
    }
  }

  lemma DescribeLength(env: Env, node: Node, abs: Path, rel: Path, addresses: seq<seq<Path>>, entries: seq<Source>)
    requires Describe(env, node, abs, rel, addresses, entries)
    ensures |addresses| == |entries|
  {
  }

  lemma SameAddressSameEntry(env: Env, node: Node, abs: Path, rel: Path, p: seq<seq<Path>>, a: seq<Source>, i: nat,
                             q: seq<seq<Path>>, b: seq<Source>, j: nat)
    requires Describe(env, node, abs, rel, p, a) && Describe(env, node, abs, rel, q, b)
    requires i < |p| && j < |q| && p[i] == q[j]
    ensures i < |a| && j < |b| && a[i] == b[j]
  {
    hide Described, NodeAt, JoinAll;
  }

  lemma {:induction false} DescribePermutes(env: Env, node: Node, abs: Path, rel: Path, p: seq<seq<Path>>,
                                            a: seq<Source>, q: seq<seq<Path>>, b: seq<Source>)
    requires Describe(env, node, abs, rel, p, a) && Describe(env, node, abs, rel, q, b)
    requires multiset(p) == multiset(q)
    ensures multiset(a) == multiset(b)
    decreases |p|
  {
    DescribeLength(env, node, abs, rel, p, a);
    DescribeLength(env, node, abs, rel, q, b);
    hide Describe;
    if p == [] {
      assert |multiset(q)| == |q|;
    } else {
      var j := RemoveFirst(p, q);
      SameAddressSameEntry(env, node, abs, rel, p, a, 0, q, b, j);
      var leftP, restA := DescribeRemove(env, node, abs, rel, p, a, 0);
      var leftQ, restB := DescribeRemove(env, node, abs, rel, q, b, j);
      assert leftP == p[1..];
      DescribePermutes(env, node, abs, rel, leftP, restA, leftQ, restB);
    }
  }

  /** A tree has one listing, up to order. */
  lemma ListingsAgree(env: Env, node: Node, abs: Path, rel: Path, a: seq<Source>, b: seq<Source>)
    requires ListsTree(env, node, abs, rel, a) && ListsTree(env, node, abs, rel, b)
    ensures multiset(a) == multiset(b)
  {
    hide Describe;
    var p :| Addresses(node, p) && Describe(env, node, abs, rel, p, a);
    var q :| Addresses(node, q) && Describe(env, node, abs, rel, q, b);
    DistinctSameMembers(p, q);
    DescribePermutes(env, node, abs, rel, p, a, q, b);
  }
}
