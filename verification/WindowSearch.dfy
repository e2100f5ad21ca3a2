/** The traversal is a breadth-first search: what it visits, at which depth, and what its flag means. */
module WindowSearch {
  import opened Common
  import opened WindowTraversal

  /** A node found by the search, its depth, and the position of the node it was found from. */
  datatype Entry<T> = Entry(node: T, depth: nat, from: nat)

  /** `node` lies at the end of a walk of `length` edges from the root. */
  ghost predicate Reach<T(!new)>(succ: T -> seq<T>, root: T, node: T, length: nat)
    decreases length
  {
    if length == 0 then node == root
    else exists p :: Reach(succ, root, p, length - 1) && node in succ(p)
  }

  ghost predicate Listed<T>(order: seq<Entry<T>>, node: T) {
    exists k :: 0 <= k < |order| && order[k].node == node
  }

  /** `node` was found no later than while the node at position `p` was extended. */
  ghost predicate FoundBy<T>(order: seq<Entry<T>>, p: nat, node: T) {
    exists k :: 0 <= k < |order| && order[k].node == node && order[k].from <= p
  }

  function Admit<T(==)>(order: seq<Entry<T>>, at: nat, child: T, b: Bounds): seq<Entry<T>>
    requires at < |order|
  {
    if (exists k :: 0 <= k < |order| && order[k].node == child) || order[at].depth >= b.depth || |order| >= b.nodes then order
    else order + [Entry(child, order[at].depth + 1, at)]
  }

  /** Breadth-first tree over everything found so far; the first `done` nodes have been taken out. */
  ghost predicate Tree<T>(order: seq<Entry<T>>, done: nat, root: T, succ: T -> seq<T>, b: Bounds) {
    && 1 <= |order| <= b.nodes && done <= |order| && order[0] == Entry(root, 0, 0)
    && (forall i, j :: 0 <= i < j < |order| ==> order[i].node != order[j].node)
    && (forall i, j :: 0 <= i < j < |order| ==> order[i].depth <= order[j].depth && order[i].from <= order[j].from)
    && (forall k :: 0 < k < |order| ==> Child(order, k, done, succ))
    && (forall k :: 0 <= k < |order| ==> order[k].depth <= k && order[k].depth <= b.depth)
  }

  ghost predicate Child<T>(order: seq<Entry<T>>, k: nat, done: nat, succ: T -> seq<T>)
    requires k < |order|
  {
    var from := order[k].from;
    from < k && from < done && order[k].depth == order[from].depth + 1 && order[k].node in succ(order[from].node)
  }

  /** Why a child of the node at position `p` may be absent: the node is at the depth limit, or the budget
      ran out no later than while `p` was extended. */
  ghost predicate Excused<T>(order: seq<Entry<T>>, p: nat, b: Bounds)
    requires p < |order|
  {
    order[p].depth >= b.depth || (|order| >= b.nodes && forall k :: 0 <= k < |order| ==> order[k].from <= p)
  }

  ghost predicate Considered<T>(order: seq<Entry<T>>, p: nat, children: seq<T>, b: Bounds)
    requires p < |order|
  {
    forall i :: 0 <= i < |children| ==> FoundBy(order, p, children[i]) || Excused(order, p, b)
  }

  ghost predicate Complete<T>(order: seq<Entry<T>>, children: seq<T>) {
    forall i :: 0 <= i < |children| ==> Listed(order, children[i])
  }

  /** A child was left out for good. */
  ghost predicate Missing<T(!new)>(order: seq<Entry<T>>, done: nat, succ: T -> seq<T>, b: Bounds) {
    exists p: nat, c :: p < done && p < |order| && c in succ(order[p].node) && !Listed(order, c) &&
      (order[p].depth >= b.depth || |order| >= b.nodes)
  }

  ghost predicate Searching<T(!new)>(order: seq<Entry<T>>, done: nat, root: T, succ: T -> seq<T>, b: Bounds,
                                     truncated: bool, cut: bool) {
    && Tree(order, done, root, succ, b)
    && (cut ==> truncated)
    && (!cut ==> forall p :: 0 <= p < done ==> Considered(order, p, succ(order[p].node), b))
    && (!truncated ==> forall p :: 0 <= p < done ==> Complete(order, succ(order[p].node)))
    && (truncated && !cut ==> Missing(order, done, succ, b))
  }

  /** Everything that holds while the node at position `at` is being extended by the first of its children. */
  ghost predicate Extending<T(!new)>(order: seq<Entry<T>>, at: nat, root: T, succ: T -> seq<T>, b: Bounds,
                                     truncated: bool, cut: bool, children: seq<T>) {
    && at < |order| && Tree(order, at + 1, root, succ, b)
    && (cut ==> truncated)
    && (!cut ==> forall p :: 0 <= p < at ==> Considered(order, p, succ(order[p].node), b))
    && Considered(order, at, children, b)
    && (!truncated ==> forall p :: 0 <= p < at ==> Complete(order, succ(order[p].node)))
    && (!truncated ==> Complete(order, children))
    && (truncated && !cut ==> Missing(order, at + 1, succ, b))
    && forall i :: 0 <= i < |children| ==> children[i] in succ(order[at].node)
  }

  lemma AdmitTree<T>(order: seq<Entry<T>>, at: nat, root: T, succ: T -> seq<T>, b: Bounds, child: T)
    requires at < |order| && Tree(order, at + 1, root, succ, b) && child in succ(order[at].node)
    ensures Tree(Admit(order, at, child, b), at + 1, root, succ, b)
  {
    var next, done := Admit(order, at, child, b), at + 1;
    if next != order {
      var last := |order| - 1;
      assert last > 0 ==> Child(order, last, done, succ);
      assert order[last].from <= at && order[last].depth <= order[at].depth + 1;
      forall k | 0 < k < |next| ensures Child(next, k, done, succ) {
        if k < |order| {
          assert Child(order, k, done, succ);
        }
      }
    }
  }

  lemma AdmitExtends<T(!new)>(order: seq<Entry<T>>, at: nat, root: T, succ: T -> seq<T>, b: Bounds,
                              truncated: bool, cut: bool, children: seq<T>, child: T)
    requires Extending(order, at, root, succ, b, truncated, cut, children) && child in succ(order[at].node)
    ensures var next := Admit(order, at, child, b);
            Extending(next, at, root, succ, b, truncated || (next == order && !Listed(order, child)), cut, children + [child])
  {
    var next := Admit(order, at, child, b);
    AdmitTree(order, at, root, succ, b, child);
    AllFoundBefore(next, at, root, succ, b);
    if next == order {
      if Listed(order, child) {
        assert FoundBy(order, at, child);
      } else {
        assert Missing(order, at + 1, succ, b);
      }
    } else {
      AdmitKeeps(order, at, root, succ, b, child, cut, truncated);
      forall i | 0 <= i < |children| ensures FoundBy(next, at, children[i]) && Listed(next, children[i]) {
        assert FoundBy(order, at, children[i]);
        FoundStays(order, child, b, at, at, children[i]);
      }
      assert next[|order|].node == child;
    }
  }

  lemma FoundStays<T>(order: seq<Entry<T>>, child: T, b: Bounds, at: nat, p: nat, node: T)
    requires at < |order|
    ensures Listed(order, node) ==> Listed(Admit(order, at, child, b), node)
    ensures FoundBy(order, p, node) ==> FoundBy(Admit(order, at, child, b), p, node)
  {
    if FoundBy(order, p, node) {
      var k :| 0 <= k < |order| && order[k].node == node && order[k].from <= p;
      assert Admit(order, at, child, b)[k] == order[k];
    }
    if Listed(order, node) {
      var k :| 0 <= k < |order| && order[k].node == node;
      assert Admit(order, at, child, b)[k].node == node;
    }
  }

  lemma AllFoundBefore<T>(order: seq<Entry<T>>, at: nat, root: T, succ: T -> seq<T>, b: Bounds)
    requires at < |order| && Tree(order, at + 1, root, succ, b)
    ensures forall k :: 0 <= k < |order| ==> order[k].from <= at
  {
    forall k | 0 <= k < |order| ensures order[k].from <= at {
      if k > 0 {
        assert Child(order, k, at + 1, succ);
      }
    }
  }

  /** Growth keeps what is known of the nodes extended before, and cannot reach a child left out earlier. */
  lemma AdmitKeeps<T(!new)>(order: seq<Entry<T>>, at: nat, root: T, succ: T -> seq<T>, b: Bounds, child: T,
                            cut: bool, truncated: bool)
    requires at < |order| && Tree(order, at + 1, root, succ, b) && Admit(order, at, child, b) != order
    requires !cut ==> forall p :: 0 <= p < at ==> Considered(order, p, succ(order[p].node), b)
    requires !truncated ==> forall p :: 0 <= p < at ==> Complete(order, succ(order[p].node))
    ensures var next := Admit(order, at, child, b);
            && (!cut ==> forall p :: 0 <= p < at ==> Considered(next, p, succ(next[p].node), b))
            && (!truncated ==> forall p :: 0 <= p < at ==> Complete(next, succ(next[p].node)))
            && !Missing(order, at + 1, succ, b)
  {
    var next := Admit(order, at, child, b);
    forall p, i | 0 <= p < at && 0 <= i < |succ(order[p].node)| ensures
      && (!cut ==> FoundBy(next, p, succ(next[p].node)[i]) || Excused(next, p, b))
      && (!truncated ==> Listed(next, succ(next[p].node)[i]))
    {
      FoundStays(order, child, b, at, p, succ(order[p].node)[i]);
      assert !cut ==> Considered(order, p, succ(order[p].node), b);
      assert !truncated ==> Complete(order, succ(order[p].node));
    }
    assert forall p :: 0 <= p < at ==> order[p].depth <= order[at].depth;
  }

  /** Every child in turn. */
  function AdmitAll<T(==)>(order: seq<Entry<T>>, at: nat, children: seq<T>, b: Bounds): (next: seq<Entry<T>>)
    requires at < |order|
    ensures |order| <= |next| && next[..|order|] == order
  {
    if children == [] then order
    else Admit(AdmitAll(order, at, children[..|children| - 1], b), at, children[|children| - 1], b)
  }

  /** The concrete queue and list of seen nodes hold the search order. */
  ghost predicate Holds<T>(seen: seq<T>, pending: seq<Item<T>>, order: seq<Entry<T>>) {
    && |seen| + |pending| == |order|
    && (forall i :: 0 <= i < |seen| ==> seen[i] == order[i].node)
    && (forall i :: 0 <= i < |pending| ==> pending[i] == Item(order[|seen| + i].node, order[|seen| + i].depth))
  }

  lemma KnownIsListed<T>(seen: seq<T>, pending: seq<Item<T>>, order: seq<Entry<T>>, node: T)
    requires Holds(seen, pending, order)
    ensures Known(seen, pending, node) <==> Listed(order, node)
  {
    if Listed(order, node) {
      var k :| 0 <= k < |order| && order[k].node == node;
      if k >= |seen| {
        assert pending[k - |seen|].node == node;
      } else {
        assert seen[k] == node;
      }
    }
    if node in seen {
      var k :| 0 <= k < |seen| && seen[k] == node;
      assert order[k].node == node;
    } else if Known(seen, pending, node) {
      var k :| 0 <= k < |pending| && pending[k].node == node;
      assert order[|seen| + k].node == node;
    }
  }

  /** Extending one node by a list of its children keeps the search going. */
  lemma {:induction false} ExtendSearches<T(!new)>(seen: seq<T>, pending: seq<Item<T>>, order: seq<Entry<T>>,
                                             root: T, succ: T -> seq<T>, b: Bounds,
                                             truncated: bool, cut: bool, children: seq<T>)
    requires seen != [] && Holds(seen, pending, order)
    requires Extending(order, |seen| - 1, root, succ, b, truncated, cut, [])
    requires forall i :: 0 <= i < |children| ==> children[i] in succ(order[|seen| - 1].node)
    ensures var at := |seen| - 1;
            var next := AdmitAll(order, at, children, b);
            && Holds(seen, Queue(seen, pending, order[at].depth, children, b), next)
            && Extending(next, at, root, succ, b,
                         truncated || Refused(seen, pending, order[at].depth, children, b), cut, children)
    decreases |children|
  {
    hide Extending;
    var at := |seen| - 1;
    if children != [] {
      var front, child := children[..|children| - 1], children[|children| - 1];
      assert children == front + [child];
      ExtendSearches(seen, pending, order, root, succ, b, truncated, cut, front);
      var mid := AdmitAll(order, at, front, b);
      assert mid[at] == order[at];
      var q := Queue(seen, pending, order[at].depth, front, b);
      KnownIsListed(seen, q, mid, child);
      AdmitExtends(mid, at, root, succ, b, truncated || Refused(seen, pending, order[at].depth, front, b), cut, front, child);
    }
  }

  /** The node taken out next. */
  lemma BeginExtending<T(!new)>(order: seq<Entry<T>>, done: nat, root: T, succ: T -> seq<T>, b: Bounds,
                                truncated: bool, cut: bool, more: bool)
    requires Searching(order, done, root, succ, b, truncated, cut) && done < |order|
    ensures Extending(order, done, root, succ, b, truncated || more, cut || more, [])
  {
    var later := done + 1;
    forall k | 0 < k < |order| ensures Child(order, k, later, succ) {
      assert Child(order, k, done, succ);
    }
    if truncated && !cut {
      var p: nat, c :| p < done && p < |order| && c in succ(order[p].node) && !Listed(order, c) &&
        (order[p].depth >= b.depth || |order| >= b.nodes);
      assert Missing(order, done + 1, succ, b);
    }
  }

  /** The extended node joins the finished ones when its whole list was offered, or when a cut is on record. */
  lemma EndExtending<T(!new)>(order: seq<Entry<T>>, at: nat, root: T, succ: T -> seq<T>, b: Bounds,
                              truncated: bool, cut: bool, children: seq<T>)
    requires Extending(order, at, root, succ, b, truncated, cut, children)
    requires children == succ(order[at].node) || cut
    ensures Searching(order, at + 1, root, succ, b, truncated, cut)
  {
  }

  lemma {:induction false} FoundIsReachable<T(!new)>(order: seq<Entry<T>>, done: nat, root: T, succ: T -> seq<T>, b: Bounds, k: nat)
    requires Tree(order, done, root, succ, b) && k < |order|
    ensures Reach(succ, root, order[k].node, order[k].depth)
    decreases k
  {
    if k > 0 {
      assert Child(order, k, done, succ);
      FoundIsReachable(order, done, root, succ, b, order[k].from);
    }
  }

  /** A walk shorter than the depth of some found node ends in a node found at least as early. */
  lemma {:induction false} ShorterIsFound<T(!new)>(order: seq<Entry<T>>, done: nat, root: T, succ: T -> seq<T>, b: Bounds,
                                                   deep: nat, node: T, length: nat) returns (k: nat)
    requires Tree(order, done, root, succ, b) && deep < |order| && length < order[deep].depth
    requires forall p :: 0 <= p < done ==> Considered(order, p, succ(order[p].node), b)
    requires Reach(succ, root, node, length)
    ensures k < |order| && order[k].node == node && order[k].depth <= length
    decreases length
  {
    if length == 0 {
      return 0;
    }
    var prior :| Reach(succ, root, prior, length - 1) && node in succ(prior);
    var p := ShorterIsFound(order, done, root, succ, b, deep, prior, length - 1);
    assert Child(order, deep, done, succ);
    var j := order[deep].from;
    assert p < j;
    assert Considered(order, p, succ(order[p].node), b);
    assert !Excused(order, p, b);
    k :| 0 <= k < |order| && order[k].node == node && order[k].from <= p;
    if k > 0 {
      assert Child(order, k, done, succ);
    }
  }

  /** Without a cut list, no walk to a found node is shorter than its depth, even if nodes were left out. */
  lemma DepthIsShortest<T(!new)>(order: seq<Entry<T>>, done: nat, root: T, succ: T -> seq<T>, b: Bounds,
                                 truncated: bool, k: nat, length: nat)
    requires Searching(order, done, root, succ, b, truncated, false) && k < |order|
    requires Reach(succ, root, order[k].node, length)
    ensures order[k].depth <= length
  {
    if length < order[k].depth {
      var _ := ShorterIsFound(order, done, root, succ, b, k, order[k].node, length);
    }
  }

  lemma {:induction false} CompleteIsAll<T(!new)>(order: seq<Entry<T>>, root: T, succ: T -> seq<T>, node: T, length: nat)
    requires order != [] && order[0].node == root && Reach(succ, root, node, length)
    requires forall p :: 0 <= p < |order| ==> Complete(order, succ(order[p].node))
    ensures Listed(order, node)
    decreases length
  {
    if length > 0 {
      var prior :| Reach(succ, root, prior, length - 1) && node in succ(prior);
      CompleteIsAll(order, root, succ, prior, length - 1);
      var p :| 0 <= p < |order| && order[p].node == prior;
      assert Complete(order, succ(order[p].node));
    }
  }

  /** A child left out is a reachable node that was not visited. */
  lemma MissingIsReachable<T(!new)>(order: seq<Entry<T>>, done: nat, root: T, succ: T -> seq<T>, b: Bounds)
    returns (node: T, length: nat)
    requires Tree(order, done, root, succ, b) && Missing(order, done, succ, b)
    ensures Reach(succ, root, node, length) && !Listed(order, node)
  {
    var p: nat, c :| p < done && p < |order| && c in succ(order[p].node) && !Listed(order, c) &&
      (order[p].depth >= b.depth || |order| >= b.nodes);
    FoundIsReachable(order, done, root, succ, b, p);
    return c, order[p].depth + 1;
  }

  ghost predicate Visited<T>(visits: seq<Item<T>>, node: T) {
    exists k :: 0 <= k < |visits| && visits[k].node == node
  }

  ghost predicate Unvisited<T(!new)>(visits: seq<Item<T>>, root: T, succ: T -> seq<T>) {
    exists node, length: nat :: Reach(succ, root, node, length) && !Visited(visits, node)
  }

  /** Root first, no node twice, shallower before deeper, within the budget and the depth limit. */
  ghost predicate Shaped<T>(visits: seq<Item<T>>, root: T, b: Bounds) {
    && (visits != [] ==> visits[0] == Item(root, 0)) && |visits| <= b.nodes
    && (forall i, j :: 0 <= i < j < |visits| ==> visits[i].node != visits[j].node && visits[i].depth <= visits[j].depth)
    && (forall k :: 0 <= k < |visits| ==> visits[k].depth <= b.depth)
  }

  /** Every visited node is reachable by a walk as long as its depth. */
  ghost predicate Reached<T(!new)>(visits: seq<Item<T>>, root: T, succ: T -> seq<T>) {
    forall k :: 0 <= k < |visits| ==> Reach(succ, root, visits[k].node, visits[k].depth)
  }

  /** No walk to a visited node is shorter than its depth. */
  ghost predicate Depths<T(!new)>(visits: seq<Item<T>>, root: T, succ: T -> seq<T>) {
    forall k, length: nat :: 0 <= k < |visits| && Reach(succ, root, visits[k].node, length) ==> visits[k].depth <= length
  }

  ghost predicate Matches<T>(visits: seq<Item<T>>, order: seq<Entry<T>>) {
    |visits| <= |order| && forall k :: 0 <= k < |visits| ==> visits[k] == Item(order[k].node, order[k].depth)
  }

  lemma VisitedIsListed<T>(visits: seq<Item<T>>, order: seq<Entry<T>>, node: T)
    requires Matches(visits, order) && |visits| == |order|
    ensures Visited(visits, node) <==> Listed(order, node)
  {
    if Visited(visits, node) {
      var k :| 0 <= k < |visits| && visits[k].node == node;
      assert order[k].node == node;
    }
    if Listed(order, node) {
      var k :| 0 <= k < |order| && order[k].node == node;
      assert visits[k].node == node;
    }
  }

  /** What a search says about the nodes it has visited so far. */
  lemma VisitsMean<T(!new)>(visits: seq<Item<T>>, order: seq<Entry<T>>, root: T, succ: T -> seq<T>, b: Bounds,
                            truncated: bool, cut: bool)
    requires Matches(visits, order) && Searching(order, |visits|, root, succ, b, truncated, cut)
    ensures Shaped(visits, root, b)
    ensures Reached(visits, root, succ)
    ensures !cut ==> Depths(visits, root, succ)
  {
    hide Searching, Tree, Reach;
    SearchFits(order, |visits|, root, succ, b, truncated, cut);
    forall k | 0 <= k < |visits| ensures Reach(succ, root, visits[k].node, visits[k].depth) {
      FoundIsReachable(order, |visits|, root, succ, b, k);
    }
    if !cut {
      forall k, length: nat | 0 <= k < |visits| && Reach(succ, root, visits[k].node, length)
        ensures visits[k].depth <= length
      {
        DepthIsShortest(order, |visits|, root, succ, b, truncated, k, length);
      }
    }
  }

  /** What the finished search says about the graph. */
  lemma SearchMeans<T(!new)>(visits: seq<Item<T>>, order: seq<Entry<T>>, root: T, succ: T -> seq<T>, b: Bounds,
                             truncated: bool, cut: bool)
    requires Matches(visits, order) && |visits| == |order| && Searching(order, |order|, root, succ, b, truncated, cut)
    ensures visits != []
    ensures truncated <==> Unvisited(visits, root, succ) || cut
    ensures truncated && !cut && b.depth >= b.nodes ==> |visits| == b.nodes
  {
    hide Searching, Tree, Reach;
    SearchIsTree(order, root, succ, b, truncated, cut);
    if Unvisited(visits, root, succ) && !truncated {
      var node, length: nat :| Reach(succ, root, node, length) && !Visited(visits, node);
      VisitedIsListed(visits, order, node);
      CompleteIsAll(order, root, succ, node, length);
    }
    if truncated && !cut {
      var node, length := MissingIsReachable(order, |order|, root, succ, b);
      VisitedIsListed(visits, order, node);
    }
  }

  lemma SearchIsTree<T(!new)>(order: seq<Entry<T>>, root: T, succ: T -> seq<T>, b: Bounds, truncated: bool, cut: bool)
    requires Searching(order, |order|, root, succ, b, truncated, cut)
    ensures Tree(order, |order|, root, succ, b) && order != [] && order[0].node == root
    ensures cut ==> truncated
    ensures !truncated ==> forall p :: 0 <= p < |order| ==> Complete(order, succ(order[p].node))
    ensures truncated && !cut ==> Missing(order, |order|, succ, b)
    ensures truncated && !cut && b.depth >= b.nodes ==> |order| == b.nodes
  {
  }

  function Fetched<T>(list: seq<T>, limit: nat): seq<T> {
    if |list| > limit then list[..limit] else list
  }

  /** One round: take a node, fetch children up to the limit, offer them. */
  lemma RoundSearches<T(!new)>(seen: seq<T>, pending: seq<Item<T>>, order: seq<Entry<T>>, visits: seq<Item<T>>,
                               root: T, succ: T -> seq<T>, b: Bounds, truncated: bool, cut: bool, limit: nat)
    requires Holds(seen, pending, order) && pending != [] && Matches(visits, order) && |visits| == |seen|
    requires Searching(order, |seen|, root, succ, b, truncated, cut)
    ensures var item := pending[0];
            var list := succ(item.node);
            var children, more := Fetched(list, limit), |list| > limit;
            var seen', next := seen + [item.node], AdmitAll(order, |seen|, children, b);
            && |seen'| + |Queue(seen', pending[1..], item.depth, children, b)| == |next| >= |order|
            && Holds(seen', Queue(seen', pending[1..], item.depth, children, b), next)
            && Searching(next, |seen'|, root, succ, b,
                         truncated || more || Refused(seen', pending[1..], item.depth, children, b), cut || more)
            && Matches(visits + [item], next)
  {
    hide Searching, Extending, Queue, Refused, Admit;
    var item, at := pending[0], |seen|;
    var list := succ(item.node);
    var children, more := Fetched(list, limit), |list| > limit;
    var seen', rest, next := seen + [item.node], pending[1..], AdmitAll(order, at, children, b);
    BeginExtending(order, at, root, succ, b, truncated, cut, more);
    ExtendSearches(seen', rest, order, root, succ, b, truncated || more, cut || more, children);
    assert next[..|order|][at] == order[at];
    EndExtending(next, at, root, succ, b, truncated || more || Refused(seen', rest, item.depth, children, b), cut || more, children);
    forall k | 0 <= k <= at ensures (visits + [item])[k] == Item(next[k].node, next[k].depth) {
      assert next[..|order|][k] == order[k];
    }
  }

  lemma StartSearches<T(!new)>(root: T, succ: T -> seq<T>, b: Bounds)
    requires b.nodes > 0
    ensures Searching([Entry(root, 0, 0)], 0, root, succ, b, false, false)
    ensures Holds([], [Item(root, 0)], [Entry(root, 0, 0)]) && Matches([], [Entry(root, 0, 0)])
  {
  }

  lemma SearchFits<T(!new)>(order: seq<Entry<T>>, done: nat, root: T, succ: T -> seq<T>, b: Bounds, truncated: bool, cut: bool)
    requires Searching(order, done, root, succ, b, truncated, cut)
    ensures 1 <= |order| <= b.nodes && order[0] == Entry(root, 0, 0) && Tree(order, done, root, succ, b)
    ensures forall i, j :: 0 <= i < j < |order| ==> order[i].node != order[j].node && order[i].depth <= order[j].depth
    ensures forall k :: 0 <= k < |order| ==> order[k].depth <= b.depth
  {
  }

  // ---------------------------------------------------------------- which lists are cut

  /** What is known after `k` rounds. It depends on the graph and the bounds alone. */
  ghost function Rounds<T(!new)>(succ: T -> seq<T>, root: T, b: Bounds, k: nat): seq<Entry<T>> {
    if k == 0 then [Entry(root, 0, 0)]
    else
      var order := Rounds(succ, root, b, k - 1);
      if k - 1 < |order| then Round(order, k - 1, succ, b) else order
  }

  ghost function Round<T>(order: seq<Entry<T>>, at: nat, succ: T -> seq<T>, b: Bounds): seq<Entry<T>>
    requires at < |order|
  {
    AdmitAll(order, at, Fetched(succ(order[at].node), ChildLimitFor(|order|, order[at].depth, b)), b)
  }

  /** The child list of the node taken out next is longer than what is asked for. */
  ghost predicate CutBy<T>(order: seq<Entry<T>>, at: nat, succ: T -> seq<T>, b: Bounds) {
    at < |order| && |succ(order[at].node)| > ChildLimitFor(|order|, order[at].depth, b)
  }

  /** Whether one of the first `n` rounds cuts a list. */
  ghost predicate CutBefore<T(!new)>(succ: T -> seq<T>, root: T, b: Bounds, n: nat) {
    exists k: nat :: k < n && CutBy(Rounds(succ, root, b, k), k, succ, b)
  }

  lemma CutNext<T(!new)>(succ: T -> seq<T>, root: T, b: Bounds, n: nat)
    ensures CutBefore(succ, root, b, n + 1) <==> CutBefore(succ, root, b, n) || CutBy(Rounds(succ, root, b, n), n, succ, b)
    ensures !CutBefore(succ, root, b, 0)
  {
    hide Rounds, CutBy;
    if CutBefore(succ, root, b, n) {
      var k: nat :| k < n && CutBy(Rounds(succ, root, b, k), k, succ, b);
      assert k < n + 1;
    }
  }

  /** Room for every list: a node has at most one child, or it lies above the depth limit with no more
      children than are ever asked for, and the nodes of the graph and its children fit the budget together. */
  ghost predicate Roomy<T(!new)>(succ: T -> seq<T>, root: T, all: set<T>, b: Bounds) {
    forall node, length: nat :: Reach(succ, root, node, length) ==>
      && node in all
      && (|succ(node)| <= 1 || (length < b.depth && |succ(node)| <= b.children && |all| + |succ(node)| <= b.nodes))
  }

  lemma {:induction false} AdmitAllTree<T(!new)>(order: seq<Entry<T>>, at: nat, root: T, succ: T -> seq<T>, b: Bounds,
                                                 children: seq<T>)
    requires at < |order| && Tree(order, at + 1, root, succ, b)
    requires forall i :: 0 <= i < |children| ==> children[i] in succ(order[at].node)
    ensures Tree(AdmitAll(order, at, children, b), at + 1, root, succ, b)
  {
    if children != [] {
      var front := children[..|children| - 1];
      hide Tree, Admit;
      AdmitAllTree(order, at, root, succ, b, front);
      var mid := AdmitAll(order, at, front, b);
      assert mid[..|order|][at] == order[at];
      AdmitTree(mid, at, root, succ, b, children[|children| - 1]);
    }
  }

  lemma TreeLater<T>(order: seq<Entry<T>>, done: nat, root: T, succ: T -> seq<T>, b: Bounds)
    requires Tree(order, done, root, succ, b) && done < |order|
    ensures Tree(order, done + 1, root, succ, b)
  {
    var later := done + 1;
    forall k | 0 < k < |order| ensures Child(order, k, later, succ) {
      assert Child(order, k, done, succ);
    }
  }

  lemma {:induction false} RoundsTree<T(!new)>(succ: T -> seq<T>, root: T, b: Bounds, k: nat)
    requires b.nodes > 0
    ensures var order := Rounds(succ, root, b, k);
            Tree(order, if k < |order| then k else |order|, root, succ, b)
  {
    if k > 0 {
      RoundsTree(succ, root, b, k - 1);
      var order := Rounds(succ, root, b, k - 1);
      if k - 1 < |order| {
        TreeLater(order, k - 1, root, succ, b);
        AdmitAllTree(order, k - 1, root, succ, b, Fetched(succ(order[k - 1].node), ChildLimitFor(|order|, order[k - 1].depth, b)));
      }
    }
  }

  lemma {:induction false} NoMoreThan<T(!new)>(order: seq<Entry<T>>, all: set<T>)
    requires forall k :: 0 <= k < |order| ==> order[k].node in all
    requires forall i, j :: 0 <= i < j < |order| ==> order[i].node != order[j].node
    ensures |order| <= |all|
  {
    if order != [] {
      var front, last := order[..|order| - 1], order[|order| - 1];
      NoMoreThan(front, all - {last.node});
    }
  }

  /** In a roomy graph no list is ever cut. */
  lemma RoomyIsNeverCut<T(!new)>(succ: T -> seq<T>, root: T, all: set<T>, b: Bounds, n: nat)
    requires Roomy(succ, root, all, b) && 1 <= b.children <= b.nodes
    ensures !CutBefore(succ, root, b, n)
  {
    hide Reach, Rounds;
    forall k: nat | k < n ensures !CutBy(Rounds(succ, root, b, k), k, succ, b) {
      var order := Rounds(succ, root, b, k);
      RoundsTree(succ, root, b, k);
      if k < |order| {
        forall i | 0 <= i < |order| ensures order[i].node in all {
          FoundIsReachable(order, k, root, succ, b, i);
        }
        NoMoreThan(order, all);
        FoundIsReachable(order, k, root, succ, b, k);
      }
    }
  }

  // ---------------------------------------------------------------- the walk

  /** The traversal's state after visiting `visits`, before the next node is taken. */
  ghost predicate Midway<T(!new)>(seen: seq<T>, pending: seq<Item<T>>, truncated: bool, visits: seq<Item<T>>,
                                  root: T, succ: T -> seq<T>, b: Bounds) {
    var order := Rounds(succ, root, b, |visits|);
    && |visits| == |seen| && Holds(seen, pending, order) && Matches(visits, order)
    && Searching(order, |seen|, root, succ, b, truncated, CutBefore(succ, root, b, |visits|))
  }

  lemma MidwayStarts<T(!new)>(root: T, succ: T -> seq<T>, b: Bounds)
    requires b.nodes > 0
    ensures Midway([], [Item(root, 0)], false, [], root, succ, b)
  {
    StartSearches(root, succ, b);
    CutNext(succ, root, b, 0);
  }

  lemma MidwayMeans<T(!new)>(seen: seq<T>, pending: seq<Item<T>>, truncated: bool, visits: seq<Item<T>>,
                             root: T, succ: T -> seq<T>, b: Bounds)
    requires Midway(seen, pending, truncated, visits, root, succ, b)
    ensures Shaped(visits, root, b) && Reached(visits, root, succ)
    ensures !CutBefore(succ, root, b, |visits|) ==> Depths(visits, root, succ)
    ensures |visits| + |pending| <= b.nodes
  {
    hide Searching, Tree, Rounds, CutBefore;
    var order, cut := Rounds(succ, root, b, |visits|), CutBefore(succ, root, b, |visits|);
    SearchFits(order, |visits|, root, succ, b, truncated, cut);
    VisitsMean(visits, order, root, succ, b, truncated, cut);
  }

  /** One round of the loop. */
  lemma MidwayRound<T(!new)>(seen: seq<T>, pending: seq<Item<T>>, truncated: bool, visits: seq<Item<T>>,
                             root: T, succ: T -> seq<T>, b: Bounds)
    requires Midway(seen, pending, truncated, visits, root, succ, b) && pending != []
    ensures var item := pending[0];
            var seen', limit := seen + [item.node], ChildLimitFor(|seen| + |pending|, item.depth, b);
            var children, more := Fetched(succ(item.node), limit), |succ(item.node)| > limit;
            Midway(seen', Queue(seen', pending[1..], item.depth, children, b),
                   truncated || more || Refused(seen', pending[1..], item.depth, children, b), visits + [item], root, succ, b)
  {
    hide Searching, Tree, CutBefore, Queue, Refused, AdmitAll, Matches, ChildLimitFor, Fetched;
    var order, n := Rounds(succ, root, b, |visits|), |visits|;
    var item := pending[0];
    assert item == Item(order[n].node, order[n].depth);
    var limit := ChildLimitFor(|order|, item.depth, b);
    RoundSearches(seen, pending, order, visits, root, succ, b, truncated, CutBefore(succ, root, b, n), limit);
    CutNext(succ, root, b, n);
    assert Rounds(succ, root, b, n + 1) == AdmitAll(order, n, Fetched(succ(item.node), limit), b);
  }

  lemma MidwayEnds<T(!new)>(seen: seq<T>, truncated: bool, visits: seq<Item<T>>, root: T, succ: T -> seq<T>, b: Bounds)
    requires Midway(seen, [], truncated, visits, root, succ, b)
    ensures visits != []
    ensures truncated <==> Unvisited(visits, root, succ) || CutBefore(succ, root, b, |visits|)
    ensures truncated && !CutBefore(succ, root, b, |visits|) && b.depth >= b.nodes ==> |visits| == b.nodes
  {
    hide Searching, Tree, Rounds, CutBefore, Unvisited;
    SearchMeans(visits, Rounds(succ, root, b, |visits|), root, succ, b, truncated, CutBefore(succ, root, b, |visits|));
  }

  /** The traversal of any graph ends. It visits nodes once, in breadth-first order, within the budget, each
      at the length of a walk to it, and of a shortest one unless a list was cut. It may be stopped before
      any node. The flag is raised exactly when it was stopped, a list was cut, or a reachable node was left
      out; which lists are cut depends on the graph alone. */
  method Traverse<T(==,!new)>(root: T, targeted: bool, succ: T -> seq<T>, stops: nat -> bool)
    returns (visits: seq<Item<T>>, truncated: bool, ghost stopped: bool)
    ensures Shaped(visits, root, BoundsFor(targeted))
    ensures forall k :: 0 <= k < |visits| ==> !stops(k)
    ensures Reached(visits, root, succ)
    ensures stopped ==> stops(|visits|)
    ensures !stopped ==> visits != []
    ensures !CutBefore(succ, root, BoundsFor(targeted), |visits|) ==>
              Depths(visits, root, succ)
    ensures truncated <==>
              stopped || Unvisited(visits, root, succ) || CutBefore(succ, root, BoundsFor(targeted), |visits|)
    ensures truncated && !stopped && !CutBefore(succ, root, BoundsFor(targeted), |visits|) && targeted ==> |visits| == 512
  {
    hide Midway, Queue, Refused, Reach, Reached, Unvisited, Shaped, ChildLimitFor, CutBefore, Fetched, Rounds, Depths;
    var t := new Traversal(root, targeted);
    ghost var b := t.bounds;
    visits, stopped := [], false;
    MidwayStarts(root, succ, b);
    while true
      invariant t.bounds == b == BoundsFor(targeted)
      invariant Midway(t.seen, t.pending, t.truncated, visits, root, succ, b)
      invariant forall k :: 0 <= k < |visits| ==> !stops(k)
      decreases b.nodes - |visits|
    {
      MidwayMeans(t.seen, t.pending, t.truncated, visits, root, succ, b);
      ghost var seen, pending, flag := t.seen, t.pending, t.truncated;
      var next := t.Next();
      if next.None? {
        break;
      }
      if stops(|visits|) {
        t.truncated := true;
        return visits, true, true;
      }
      var item := next.value;
      var list := succ(item.node);
      var limit := t.ChildLimit(item.depth);
      MidwayRound(seen, pending, flag, visits, root, succ, b);
      t.Extend(item.depth, Fetched(list, limit), |list| > limit);
      visits := visits + [item];
    }
    truncated := t.truncated;
    MidwayEnds(t.seen, t.truncated, visits, root, succ, b);
  }

  /** In a roomy graph, left to finish, the flag is exact. */
  method TraverseRoomy<T(==,!new)>(root: T, targeted: bool, succ: T -> seq<T>, ghost all: set<T>)
    returns (visits: seq<Item<T>>, truncated: bool)
    requires Roomy(succ, root, all, BoundsFor(targeted))
    ensures truncated <==> Unvisited(visits, root, succ)
    ensures Depths(visits, root, succ)
  {
    hide Depths, Reached, Roomy, Reach, Unvisited, CutBefore, Shaped;
    ghost var stopped;
    visits, truncated, stopped := Traverse(root, targeted, succ, k => false);
    RoomyIsNeverCut(succ, root, all, BoundsFor(targeted), |visits|);
  }

  lemma {:induction false} OnlyItself(succ: nat -> seq<nat>, node: nat, length: nat)
    requires Reach(succ, 0, node, length) && forall i :: 0 <= i < |succ(0)| ==> succ(0)[i] == 0
    ensures node == 0
    decreases length
  {
    if length > 0 {
      var p :| Reach(succ, 0, p, length - 1) && node in succ(p);
      OnlyItself(succ, p, length - 1);
    }
  }

  /** A cut list raises the flag even when nothing was missed: a node that lists itself 33 times. */
  method CutMayMislead() returns (visits: seq<Item<nat>>, truncated: bool)
    ensures truncated && !Unvisited(visits, 0, (n: nat) => seq(33, i => 0))
  {
    var succ: nat -> seq<nat> := (n: nat) => seq(33, i => 0);
    ghost var stopped;
    visits, truncated, stopped := Traverse(0, false, succ, k => false);
    assert CutBy(Rounds(succ, 0, BoundsFor(false), 0), 0, succ, BoundsFor(false));
    assert visits[0].node == 0;
    forall node, length: nat | Reach(succ, 0, node, length) ensures Visited(visits, node) {
      OnlyItself(succ, node, length);
    }
  }
}
