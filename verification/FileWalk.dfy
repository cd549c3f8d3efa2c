/**
 The sender's walk over the files a user copied, and why both receiving validators accept its result.
 */
module FileWalk {
  import opened Common
  import opened Manifest

  /** What the walk finds at a path. A directory lists its children in the order it visits them. */
  datatype Node =
    | FileNode(length: nat)
    | DirectoryNode(children: seq<Child>)
    | LinkNode
    | OtherNode

  datatype Child = Child(name: string, node: Node)

  /** The state the recursion threads through itself. */
  datatype Walk = Walk(entries: seq<Entry>, nextId: nat, total: nat, sources: set<nat>)

  function Begin(): Walk {
    Walk([], 1, 0, {})
  }

  /** One entry of the walk; `parts` are the components of its relative path. */
  function Collect(w: Walk, node: Node, parts: seq<string>): Option<Walk>
    decreases node, 1
  {
    var path := Join(parts);
    if |w.entries| >= MAX_ENTRIES || !RelativePathOk(path) || w.nextId + 1 > U64_MAX then None
    else
      var id := w.nextId;
      match node
      case FileNode(length) =>
        if w.total + length > U64_MAX || w.total + length > MAX_TOTAL then None
        else Some(Walk(w.entries + [Entry(id, path, File, length)], id + 1, w.total + length, w.sources + {id}))
      case DirectoryNode(children) =>
        CollectChildren(w.(entries := w.entries + [Entry(id, path, Directory, 0)], nextId := id + 1), children, parts)
      case _ => None
  }

  function CollectChildren(w: Walk, children: seq<Child>, parts: seq<string>): Option<Walk>
    decreases children, 0
  {
    if children == [] then Some(w)
    else
      match Collect(w, children[0].node, parts + [children[0].name])
      case None => None
      case Some(next) => CollectChildren(next, children[1..], parts)
  }

  /** The walk over all roots; two roots with the same name are refused. */
  function CollectRoots(w: Walk, roots: seq<Child>, names: set<string>): Option<Walk>
    decreases |roots|
  {
    if roots == [] then Some(w)
    else
      var root := roots[0];
      if root.node.LinkNode? || !RelativePathOk(root.name) || root.name in names then None
      else
        match Collect(w, root.node, [root.name])
        case None => None
        case Some(next) => CollectRoots(next, roots[1..], names + {root.name})
  }

  function FromPaths(roots: seq<Child>): Option<Walk> {
    CollectRoots(Begin(), roots, {})
  }

  /** The walk as the source runs it: one object whose fields the recursion changes. */
  class Walker {
    var entries: seq<Entry>
    var nextId: nat
    var total: nat
    var sources: set<nat>

    function Value(): Walk
      reads this
    {
      Walk(entries, nextId, total, sources)
    }

    constructor ()
      ensures Value() == Begin()
    {
      entries, nextId, total, sources := [], 1, 0, {};
    }

    method CollectEntry(node: Node, parts: seq<string>) returns (ok: bool)
      modifies this
      ensures ok == Collect(old(Value()), node, parts).Some?
      ensures ok ==> Value() == Collect(old(Value()), node, parts).value
      decreases node
    {
      var path := Join(parts);
      if |entries| >= MAX_ENTRIES || !RelativePathOk(path) || nextId + 1 > U64_MAX {
        return false;
      }
      if node.LinkNode? {
        return false;
      }
      var id := nextId;
      nextId := nextId + 1;
      match node
      case FileNode(length) =>
        if total + length > U64_MAX {
          return false;
        }
        total := total + length;
        if total > MAX_TOTAL {
          return false;
        }
        entries := entries + [Entry(id, path, File, length)];
        sources := sources + {id};
        return true;
      case DirectoryNode(children) =>
        entries := entries + [Entry(id, path, Directory, 0)];
        ghost var entered := Value();
        var i := 0;
        while i < |children|
          invariant 0 <= i <= |children|
          invariant CollectChildren(entered, children, parts) == CollectChildren(Value(), children[i..], parts)
        {
          assert children[i..][0] == children[i] && children[i..][1..] == children[i + 1..];
          var walked := CollectEntry(children[i].node, parts + [children[i].name]);
          if !walked {
            return false;
          }
          i := i + 1;
        }
        return true;
      case _ =>
        return false;
    }

    method CollectPaths(roots: seq<Child>) returns (ok: bool)
      requires Value() == Begin()
      modifies this
      ensures ok == FromPaths(roots).Some?
      ensures ok ==> Value() == FromPaths(roots).value
    {
      var names: set<string> := {};
      var i := 0;
      while i < |roots|
        invariant 0 <= i <= |roots|
        invariant FromPaths(roots) == CollectRoots(Value(), roots[i..], names)
      {
        assert roots[i..][0] == roots[i] && roots[i..][1..] == roots[i + 1..];
        if roots[i].node.LinkNode? || !RelativePathOk(roots[i].name) || roots[i].name in names {
          return false;
        }
        names := names + {roots[i].name};
        var walked := CollectEntry(roots[i].node, [roots[i].name]);
        if !walked {
          return false;
        }
        i := i + 1;
      }
      return true;
    }
  }

  // ----- What the walk lists -----

  datatype Item = Item(parts: seq<string>, kind: Kind, size: nat)

  /** The tree in preorder, each node with the components of its path. */
  function Listing(node: Node, parts: seq<string>): seq<Item>
    decreases node, 1
  {
    match node
    case FileNode(length) => [Item(parts, File, length)]
    case DirectoryNode(children) => [Item(parts, Directory, 0)] + ListingOf(children, parts)
    case _ => [Item(parts, File, 0)]
  }

  function ListingOf(children: seq<Child>, parts: seq<string>): seq<Item>
    decreases children, 0
  {
    if children == [] then []
    else Listing(children[0].node, parts + [children[0].name]) + ListingOf(children[1..], parts)
  }

  function RootListing(roots: seq<Child>): seq<Item>
    decreases |roots|
  {
    if roots == [] then [] else Listing(roots[0].node, [roots[0].name]) + RootListing(roots[1..])
  }

  /** Only files and directories, all the way down. */
  predicate Plain(node: Node)
    decreases node, 1
  {
    match node
    case FileNode(_) => true
    case DirectoryNode(children) => PlainAll(children)
    case _ => false
  }

  predicate PlainAll(children: seq<Child>)
    decreases children, 0
  {
    children == [] || (Plain(children[0].node) && PlainAll(children[1..]))
  }

  function Sizes(items: seq<Item>): nat {
    if items == [] then 0 else items[0].size + Sizes(items[1..])
  }

  ghost predicate PathsOk(items: seq<Item>) {
    forall i :: 0 <= i < |items| ==> RelativePathOk(Join(items[i].parts))
  }

  function EntryFor(item: Item, id: nat): Entry {
    Entry(id, Join(item.parts), item.kind, item.size)
  }

  /** `items` numbered from `first`. */
  function Numbered(items: seq<Item>, first: nat): seq<Entry> {
    seq(|items|, i requires 0 <= i < |items| => EntryFor(items[i], first + i))
  }

  function FileIds(items: seq<Item>, first: nat): set<nat> {
    set i | 0 <= i < |items| && items[i].kind == File :: first + i
  }

  /** What adding `items` to a walk must give. */
  function Extended(w: Walk, items: seq<Item>): Walk {
    Walk(w.entries + Numbered(items, w.nextId), w.nextId + |items|, w.total + Sizes(items), w.sources + FileIds(items, w.nextId))
  }

  predicate Fits(w: Walk, items: seq<Item>) {
    |w.entries| + |items| <= MAX_ENTRIES && w.total + Sizes(items) <= MAX_TOTAL
  }

  lemma {:induction false} SizesOfConcat(a: seq<Item>, b: seq<Item>)
    ensures Sizes(a + b) == Sizes(a) + Sizes(b)
  {
    if a == [] {
      assert a + b == b;
    } else {
      assert (a + b)[1..] == a[1..] + b;
      SizesOfConcat(a[1..], b);
    }
  }

  lemma {:induction false} FileIdsOfConcat(a: seq<Item>, b: seq<Item>, first: nat)
    ensures FileIds(a + b, first) == FileIds(a, first) + FileIds(b, first + |a|)
  {
    forall id
      ensures id in FileIds(a + b, first) <==> id in FileIds(a, first) + FileIds(b, first + |a|)
    {
      assert id in FileIds(a, first) <==> first <= id < first + |a| && a[id - first].kind == File by {
        assert id in FileIds(a, first) <==> exists i :: 0 <= i < |a| && a[i].kind == File && first + i == id;
        assert first <= id < first + |a| && a[id - first].kind == File ==> first + (id - first) == id;
      }
      assert id in FileIds(b, first + |a|) <==> first + |a| <= id < first + |a| + |b| && b[id - first - |a|].kind == File by {
        assert first + |a| <= id < first + |a| + |b| && b[id - first - |a|].kind == File ==> first + |a| + (id - first - |a|) == id;
      }
      assert id in FileIds(a + b, first) <==> first <= id < first + |a| + |b| && (a + b)[id - first].kind == File by {
        assert first <= id < first + |a| + |b| && (a + b)[id - first].kind == File ==> first + (id - first) == id;
      }
    }
  }

  lemma NumberedOfConcat(a: seq<Item>, b: seq<Item>, first: nat)
    ensures Numbered(a + b, first) == Numbered(a, first) + Numbered(b, first + |a|)
  {
  }

  lemma {:induction false} ExtendedTwice(w: Walk, a: seq<Item>, b: seq<Item>)
    requires PathsOk(a) && PathsOk(b)
    ensures PathsOk(a + b) && Extended(Extended(w, a), b) == Extended(w, a + b)
  {
    PathsOfConcat(a, b);
    SizesOfConcat(a, b);
    FileIdsOfConcat(a, b, w.nextId);
    NumberedOfConcat(a, b, w.nextId);
    var twice, once := Extended(Extended(w, a), b), Extended(w, a + b);
    assert twice.entries == once.entries by {
      assert w.entries + Numbered(a, w.nextId) + Numbered(b, w.nextId + |a|) == w.entries + (Numbered(a, w.nextId) + Numbered(b, w.nextId + |a|));
    }
    assert twice.sources == once.sources;
  }

  lemma {:induction false} PathsOfConcat(a: seq<Item>, b: seq<Item>)
    ensures PathsOk(a + b) <==> PathsOk(a) && PathsOk(b)
  {
    if PathsOk(a + b) {
      forall i | 0 <= i < |a|
        ensures RelativePathOk(Join(a[i].parts))
      {
        assert (a + b)[i] == a[i];
      }
      forall i | 0 <= i < |b|
        ensures RelativePathOk(Join(b[i].parts))
      {
        assert (a + b)[|a| + i] == b[i];
      }
    }
  }

  /** The walk of one node succeeds exactly when the node is plain, its paths are safe and everything fits. */
  lemma {:induction false} CollectIsListing(w: Walk, node: Node, parts: seq<string>)
    requires w.nextId == |w.entries| + 1 && w.total <= MAX_TOTAL
    ensures Collect(w, node, parts).Some? <==>
              Plain(node) && PathsOk(Listing(node, parts)) && Fits(w, Listing(node, parts))
    ensures Collect(w, node, parts).Some? ==> Collect(w, node, parts).value == Extended(w, Listing(node, parts))
    decreases node, 1
  {
    match node
    case FileNode(length) =>
      var items := [Item(parts, File, length)];
      assert items[1..] == [] && Sizes(items) == length;
      assert PathsOk(items) <==> RelativePathOk(Join(parts)) by {
        assert items[0].parts == parts;
      }
      assert FileIds(items, w.nextId) == {w.nextId} by {
        assert items[0].kind == File && w.nextId + 0 == w.nextId;
      }
      assert Numbered(items, w.nextId) == [Entry(w.nextId, Join(parts), File, length)];
    case DirectoryNode(children) =>
      var head := [Item(parts, Directory, 0)];
      assert head[1..] == [] && Sizes(head) == 0;
      assert PathsOk(head) <==> RelativePathOk(Join(parts)) by {
        assert head[0].parts == parts;
      }
      assert Numbered(head, w.nextId) == [Entry(w.nextId, Join(parts), Directory, 0)];
      assert FileIds(head, w.nextId) == {};
      var entered := Extended(w, head);
      assert w.sources + {} == w.sources;
      var rest := ListingOf(children, parts);
      if |w.entries| < MAX_ENTRIES {
        CollectChildrenIsListing(entered, children, parts);
      }
      PathsOfConcat(head, rest);
      SizesOfConcat(head, rest);
      if PathsOk(head) && PathsOk(rest) {
        ExtendedTwice(w, head, rest);
      }
    case _ =>
  }

  lemma {:induction false} CollectChildrenIsListing(w: Walk, children: seq<Child>, parts: seq<string>)
    requires w.nextId == |w.entries| + 1 && w.total <= MAX_TOTAL && |w.entries| <= MAX_ENTRIES
    ensures CollectChildren(w, children, parts).Some? <==>
              PlainAll(children) && PathsOk(ListingOf(children, parts)) && Fits(w, ListingOf(children, parts))
    ensures CollectChildren(w, children, parts).Some? ==>
              CollectChildren(w, children, parts).value == Extended(w, ListingOf(children, parts))
    decreases children, 0
  {
    if children == [] {
      assert Numbered([], w.nextId) == [] && FileIds([], w.nextId) == {};
      assert w.entries + [] == w.entries && w.sources + {} == w.sources;
    } else {
      var here := parts + [children[0].name];
      var first, rest := Listing(children[0].node, here), ListingOf(children[1..], parts);
      CollectIsListing(w, children[0].node, here);
      PathsOfConcat(first, rest);
      SizesOfConcat(first, rest);
      if Collect(w, children[0].node, here).Some? {
        var next := Collect(w, children[0].node, here).value;
        CollectChildrenIsListing(next, children[1..], parts);
        if PathsOk(rest) {
          ExtendedTwice(w, first, rest);
        }
      }
    }
  }

  ghost predicate DistinctNames(children: seq<Child>) {
    forall i, j :: 0 <= i < j < |children| ==> children[i].name != children[j].name
  }

  /** The whole walk succeeds exactly when every root is plain, root names differ, paths are safe and everything fits. */
  lemma {:induction false} RootsAreListed(w: Walk, roots: seq<Child>, names: set<string>)
    requires w.nextId == |w.entries| + 1 && w.total <= MAX_TOTAL && |w.entries| <= MAX_ENTRIES
    ensures CollectRoots(w, roots, names).Some? <==>
              && PlainAll(roots) && PathsOk(RootListing(roots)) && Fits(w, RootListing(roots))
              && DistinctNames(roots) && (forall r :: r in roots ==> r.name !in names)
    ensures CollectRoots(w, roots, names).Some? ==> CollectRoots(w, roots, names).value == Extended(w, RootListing(roots))
    decreases |roots|
  {
    if roots == [] {
      assert Numbered([], w.nextId) == [] && FileIds([], w.nextId) == {};
      assert w.entries + [] == w.entries && w.sources + {} == w.sources;
    } else {
      var root := roots[0];
      var first, rest := Listing(root.node, [root.name]), RootListing(roots[1..]);
      CollectIsListing(w, root.node, [root.name]);
      PathsOfConcat(first, rest);
      SizesOfConcat(first, rest);
      assert PathsOk(first) ==> RelativePathOk(root.name) by {
        assert first[0].parts == [root.name];
      }
      assert roots == [root] + roots[1..];
      NamesDiffer(roots, names);
      if Collect(w, root.node, [root.name]).Some? {
        RootsAreListed(Collect(w, root.node, [root.name]).value, roots[1..], names + {root.name});
        if PathsOk(rest) {
          ExtendedTwice(w, first, rest);
        }
      }
    }
  }

  lemma {:induction false} NamesDiffer(roots: seq<Child>, names: set<string>)
    requires roots != []
    ensures (DistinctNames(roots) && forall r :: r in roots ==> r.name !in names) <==>
            (roots[0].name !in names && DistinctNames(roots[1..]) && forall r :: r in roots[1..] ==> r.name !in names + {roots[0].name})
  {
    var rest := roots[1..];
    if DistinctNames(roots) && forall r :: r in roots ==> r.name !in names {
      forall r | r in rest
        ensures r.name !in names + {roots[0].name}
      {
        var i :| 0 <= i < |rest| && rest[i] == r;
        assert roots[i + 1] == r;
      }
    }
    if roots[0].name !in names && DistinctNames(rest) && forall r :: r in rest ==> r.name !in names + {roots[0].name} {
      forall i, j | 0 <= i < j < |roots|
        ensures roots[i].name != roots[j].name
      {
        assert roots[j] == rest[j - 1] && rest[j - 1] in rest;
        if i > 0 {
          assert roots[i] == rest[i - 1];
        }
      }
      forall r | r in roots
        ensures r.name !in names
      {
        if r != roots[0] {
          var i :| 0 <= i < |roots| && roots[i] == r;
          assert rest[i - 1] == r;
        }
      }
    }
  }

  // ----- Both validators accept what the walk produced -----

  /** A directory entry's name as the operating system allows it. */
  predicate GoodName(name: string) {
    name != "" && name != "." && name != ".." && '/' !in name
  }

  /** Good names, distinct among siblings, all the way down. */
  ghost predicate WellNamed(node: Node)
    decreases node, 1
  {
    node.DirectoryNode? ==> WellNamedAll(node.children)
  }

  ghost predicate WellNamedAll(children: seq<Child>)
    decreases children, 0
  {
    children == [] ||
    (GoodName(children[0].name) && WellNamed(children[0].node) && WellNamedAll(children[1..])
     && forall c :: c in children[1..] ==> c.name != children[0].name)
  }

  predicate GoodParts(parts: seq<string>) {
    forall part :: part in parts ==> GoodName(part)
  }

  ghost predicate DistinctItems(items: seq<Item>) {
    forall i, j :: 0 <= i < j < |items| ==> items[i].parts != items[j].parts
  }

  ghost predicate GoodItems(items: seq<Item>) {
    forall i :: 0 <= i < |items| ==>
      items[i].parts != [] && GoodParts(items[i].parts) && (items[i].kind == Directory ==> items[i].size == 0)
  }

  /** Every item lies at or below `parts`. */
  ghost predicate Below(items: seq<Item>, parts: seq<string>) {
    forall i :: 0 <= i < |items| ==> parts <= items[i].parts
  }

  /** Below `parts`, through one of the children. */
  ghost predicate BelowOne(items: seq<Item>, parts: seq<string>, children: seq<Child>) {
    forall i :: 0 <= i < |items| ==>
      |items[i].parts| > |parts| && parts <= items[i].parts && exists c :: c in children && c.name == items[i].parts[|parts|]
  }

  lemma {:induction false} ListingIsTree(node: Node, parts: seq<string>)
    requires WellNamed(node) && parts != [] && GoodParts(parts)
    ensures Listing(node, parts) != [] && Listing(node, parts)[0].parts == parts
    ensures GoodItems(Listing(node, parts)) && DistinctItems(Listing(node, parts)) && Below(Listing(node, parts), parts)
    decreases node, 1
  {
    if node.DirectoryNode? {
      ListingOfIsForest(node.children, parts);
      var head, rest := [Item(parts, Directory, 0)], ListingOf(node.children, parts);
      assert Listing(node, parts) == head + rest;
      assert forall j :: 0 <= j < |rest| ==> rest[j].parts != parts;
    }
  }

  lemma {:induction false} ListingOfIsForest(children: seq<Child>, parts: seq<string>)
    requires WellNamedAll(children) && GoodParts(parts)
    ensures GoodItems(ListingOf(children, parts)) && DistinctItems(ListingOf(children, parts))
    ensures BelowOne(ListingOf(children, parts), parts, children)
    decreases children, 0
  {
    if children != [] {
      var child, here := children[0], parts + [children[0].name];
      var first, rest := Listing(child.node, here), ListingOf(children[1..], parts);
      ListingIsTree(child.node, here);
      ListingOfIsForest(children[1..], parts);
      forall i, j | 0 <= i < |first| && 0 <= j < |rest|
        ensures first[i].parts != rest[j].parts
      {
        assert here <= first[i].parts && first[i].parts[|parts|] == child.name;
        var c :| c in children[1..] && c.name == rest[j].parts[|parts|];
      }
      DistinctConcat(first, rest);
      forall i | 0 <= i < |first|
        ensures |first[i].parts| > |parts| && parts <= first[i].parts && first[i].parts[|parts|] == child.name
      {
        assert here <= first[i].parts;
      }
      assert child in children;
      assert forall c :: c in children[1..] ==> c in children;
    }
  }

  lemma {:induction false} DistinctConcat(a: seq<Item>, b: seq<Item>)
    requires DistinctItems(a) && DistinctItems(b)
    requires forall i, j :: 0 <= i < |a| && 0 <= j < |b| ==> a[i].parts != b[j].parts
    ensures DistinctItems(a + b)
  {
  }

  /** Roots are listed like the children of an unnamed directory. */
  lemma {:induction false} RootsAreChildren(roots: seq<Child>)
    ensures RootListing(roots) == ListingOf(roots, [])
    decreases |roots|
  {
    if roots != [] {
      RootsAreChildren(roots[1..]);
      assert [] + [roots[0].name] == [roots[0].name];
    }
  }

  lemma {:induction false} TotalOfNumbered(items: seq<Item>, first: nat)
    ensures Total(Numbered(items, first)) == Sizes(items)
    decreases |items|
  {
    if items != [] {
      var last := |items| - 1;
      assert items == items[..last] + [items[last]];
      SizesOfConcat(items[..last], [items[last]]);
      assert [items[last]][1..] == [];
      TotalOfNumbered(items[..last], first);
      assert Numbered(items, first)[..last] == Numbered(items[..last], first);
    }
  }

  /** A safe path made of good names passes both path checks. */
  lemma {:induction false} GoodPathIsSafe(parts: seq<string>)
    requires parts != [] && GoodParts(parts) && RelativePathOk(Join(parts))
    ensures Parts(Join(parts)) == parts && WirePathOk(Join(parts))
  {
    SplitUndoesJoin(parts);
  }

  /** `dir` is the directory that holds `item`. */
  predicate Holds(dir: Item, item: Item) {
    dir.kind == Directory && item.parts != [] && dir.parts == item.parts[..|item.parts| - 1]
  }

  /** Parents come first: above the roots, the containing directory is an earlier entry. */
  ghost predicate ParentsFirst(items: seq<Item>, depth: nat) {
    forall i :: 0 <= i < |items| && |items[i].parts| > depth ==>
      exists j :: 0 <= j < i && Holds(items[j], items[i])
  }

  lemma {:induction false} UnderOneHead(head: Item, rest: seq<Item>)
    requires head.kind == Directory && ParentsFirst(rest, |head.parts| + 1)
    requires forall i :: 0 <= i < |rest| ==> |rest[i].parts| > |head.parts| && head.parts <= rest[i].parts
    ensures ParentsFirst([head] + rest, |head.parts|)
  {
    var all := [head] + rest;
    assert forall i :: 0 < i < |all| ==> all[i] == rest[i - 1];
    forall i | 0 <= i < |all| && |all[i].parts| > |head.parts|
      ensures exists j :: 0 <= j < i && Holds(all[j], all[i])
    {
      var own := rest[i - 1];
      if |own.parts| == |head.parts| + 1 {
        assert Holds(all[0], all[i]);
      } else {
        var j :| 0 <= j < i - 1 && Holds(rest[j], own);
        assert Holds(all[j + 1], all[i]);
      }
    }
  }

  lemma {:induction false} ListingParentsFirst(node: Node, parts: seq<string>)
    requires WellNamed(node) && parts != [] && GoodParts(parts)
    ensures ParentsFirst(Listing(node, parts), |parts|)
    decreases node, 1
  {
    if node.DirectoryNode? {
      var rest := ListingOf(node.children, parts);
      ListingOfParentsFirst(node.children, parts);
      ListingOfIsForest(node.children, parts);
      assert forall i :: 0 <= i < |rest| ==> |rest[i].parts| > |parts| && parts <= rest[i].parts;
      UnderOneHead(Item(parts, Directory, 0), rest);
    }
  }

  lemma {:induction false} ListingOfParentsFirst(children: seq<Child>, parts: seq<string>)
    requires WellNamedAll(children) && GoodParts(parts)
    ensures ParentsFirst(ListingOf(children, parts), |parts| + 1)
    decreases children, 0
  {
    if children != [] {
      var here := parts + [children[0].name];
      var first, rest := Listing(children[0].node, here), ListingOf(children[1..], parts);
      var all := first + rest;
      ListingParentsFirst(children[0].node, here);
      ListingOfParentsFirst(children[1..], parts);
      forall i | 0 <= i < |all| && |all[i].parts| > |parts| + 1
        ensures exists j :: 0 <= j < i && Holds(all[j], all[i])
      {
        if i < |first| {
          var j :| 0 <= j < i && Holds(first[j], first[i]);
          assert Holds(all[j], all[i]);
        } else {
          var n := i - |first|;
          var j :| 0 <= j < n && Holds(rest[j], rest[n]);
          assert Holds(all[|first| + j], all[i]);
        }
      }
    }
  }

  /** The identifiers of the file entries. */
  function FileEntryIds(entries: seq<Entry>): set<nat> {
    set e | e in entries && e.kind == File :: e.fileId
  }

  lemma {:induction false} NumberedPathsDiffer(items: seq<Item>)
    requires GoodItems(items) && DistinctItems(items)
    ensures DistinctPaths(Numbered(items, 1))
  {
    var entries := Numbered(items, 1);
    forall i, j | 0 <= i < j < |entries|
      ensures entries[i].path != entries[j].path
    {
      SplitUndoesJoin(items[i].parts);
      SplitUndoesJoin(items[j].parts);
    }
  }

  lemma {:induction false} NumberedEntryIsAccepted(item: Item, id: nat)
    requires GoodItems([item]) && RelativePathOk(Join(item.parts)) && id != 0
    ensures var e := EntryFor(item, id); EntryOk(e) && WirePathOk(e.path) && RelativePathOk(e.path)
  {
    assert [item][0] == item;
    GoodPathIsSafe(item.parts);
  }

  lemma {:induction false} NumberedAscends(items: seq<Item>)
    ensures Ascending(Numbered(items, 1)) && DistinctIds(Numbered(items, 1))
  {
  }

  lemma {:induction false} NumberedIsAccepted(items: seq<Item>, limit: Option<nat>)
    requires 1 <= |items| <= MAX_ENTRIES && Sizes(items) <= MAX_TOTAL && (limit.Some? ==> limit.value >= MAX_TOTAL)
    requires GoodItems(items) && DistinctItems(items) && PathsOk(items)
    ensures WireManifestOk(Numbered(items, 1)) && IncomingManifestOk(Numbered(items, 1), limit)
  {
    var entries := Numbered(items, 1);
    NumberedPathsDiffer(items);
    TotalOfNumbered(items, 1);
    NumberedAscends(items);
    assert |entries| == |items| && Total(entries) <= MAX_TOTAL;
    assert forall i :: 0 <= i < |entries| ==> EntryOk(entries[i]) && WirePathOk(entries[i].path) && RelativePathOk(entries[i].path) by {
      forall i | 0 <= i < |entries|
        ensures EntryOk(entries[i]) && WirePathOk(entries[i].path) && RelativePathOk(entries[i].path)
      {
        NumberedEntryIsAccepted(items[i], i + 1);
      }
    }
  }

  /**
   Every manifest the walk produces from at least one root is accepted by the wire validator and by the
   incoming one, with any size limit the walk's own limit respects. Its ids count from 1, every parent
   precedes its children, and exactly the file ids have sources.
   */
  lemma {:induction false} WalkIsAccepted(roots: seq<Child>, limit: Option<nat>)
    requires roots != [] && WellNamedAll(roots) && FromPaths(roots).Some?
    requires limit.Some? ==> limit.value >= MAX_TOTAL
    ensures
      var walk := FromPaths(roots).value;
      && WireManifestOk(walk.entries) && IncomingManifestOk(walk.entries, limit)
      && (forall i :: 0 <= i < |walk.entries| ==> walk.entries[i].fileId == i + 1)
      && walk.sources == FileEntryIds(walk.entries)
      && walk.total == Total(walk.entries)
      && walk.entries == Numbered(RootListing(roots), 1) && ParentsFirst(RootListing(roots), 1)
  {
    var items := RootListing(roots);
    WalkIsListing(roots);
    RootListingIsTree(roots);
    NumberedIsAccepted(items, limit);
    TotalOfNumbered(items, 1);
    SourcesAreFiles(items);
  }

  lemma {:induction false} WalkIsListing(roots: seq<Child>)
    requires FromPaths(roots).Some?
    ensures
      var walk, items := FromPaths(roots).value, RootListing(roots);
      && walk == Walk(Numbered(items, 1), 1 + |items|, Sizes(items), FileIds(items, 1))
      && PathsOk(items) && |items| <= MAX_ENTRIES && Sizes(items) <= MAX_TOTAL
  {
    var items := RootListing(roots);
    RootsAreListed(Begin(), roots, {});
    assert [] + Numbered(items, 1) == Numbered(items, 1) && {} + FileIds(items, 1) == FileIds(items, 1);
  }

  lemma {:induction false} RootListingIsTree(roots: seq<Child>)
    requires roots != [] && WellNamedAll(roots)
    ensures
      var items := RootListing(roots);
      items != [] && GoodItems(items) && DistinctItems(items) && ParentsFirst(items, 1)
  {
    RootsAreChildren(roots);
    ListingOfIsForest(roots, []);
    ListingOfParentsFirst(roots, []);
    ListingIsTree(roots[0].node, [roots[0].name]);
  }

  lemma {:induction false} SourcesAreFiles(items: seq<Item>)
    ensures FileIds(items, 1) == FileEntryIds(Numbered(items, 1))
  {
    var entries := Numbered(items, 1);
    forall id | id in FileIds(items, 1)
      ensures id in FileEntryIds(entries)
    {
      assert entries[id - 1] in entries;
    }
    forall id | id in FileEntryIds(entries)
      ensures id in FileIds(items, 1)
    {
      var e :| e in entries && e.kind == File && e.fileId == id;
      var i :| 0 <= i < |entries| && entries[i] == e;
      assert items[i].kind == File;
    }
  }
}
