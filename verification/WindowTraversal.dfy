/** Bounded breadth-first traversal of a window's hierarchy, which may share nodes and contain cycles. */
module WindowTraversal {
  import opened Common

  datatype Item<T> = Item(node: T, depth: nat)

  datatype Bounds = Bounds(nodes: nat, children: nat, depth: nat)

  function BoundsFor(targeted: bool): Bounds {
    if targeted then Bounds(512, 512, 512) else Bounds(128, 32, 12)
  }

  predicate Known<T(==)>(seen: seq<T>, pending: seq<Item<T>>, node: T) {
    node in seen || exists i :: 0 <= i < |pending| && pending[i].node == node
  }

  predicate Full<T>(seen: seq<T>, pending: seq<Item<T>>, depth: nat, b: Bounds) {
    depth >= b.depth || |seen| + |pending| >= b.nodes
  }

  /** The queue once the children offered so far have been considered in turn. */
  function Queue<T(==)>(seen: seq<T>, pending: seq<Item<T>>, depth: nat, children: seq<T>, b: Bounds): seq<Item<T>> {
    if children == [] then pending
    else
      var q := Queue(seen, pending, depth, children[..|children| - 1], b);
      var child := children[|children| - 1];
      if Known(seen, q, child) || Full(seen, q, depth, b) then q else q + [Item(child, depth + 1)]
  }

  /** Whether a new node had to be left out. */
  predicate Refused<T(==)>(seen: seq<T>, pending: seq<Item<T>>, depth: nat, children: seq<T>, b: Bounds) {
    children != []
    && var front := children[..|children| - 1];
    var q := Queue(seen, pending, depth, front, b);
    || Refused(seen, pending, depth, front, b)
    || (!Known(seen, q, children[|children| - 1]) && Full(seen, q, depth, b))
  }

  function ChildLimitFor(known: nat, depth: nat, b: Bounds): (n: nat)
    ensures n >= 1
    ensures depth < b.depth && known < b.nodes && b.children >= 1 ==> n <= b.children && known + n <= b.nodes
  {
    if depth >= b.depth then 1
    else
      var room := if known <= b.nodes then b.nodes - known else 0;
      var n := if room < b.children then room else b.children;
      if n < 1 then 1 else n
  }

  class Traversal<T(==)> {
    var pending: seq<Item<T>>
    var seen: seq<T>
    var bounds: Bounds
    var truncated: bool

    constructor (root: T, targeted: bool)
      ensures pending == [Item(root, 0)] && seen == [] && bounds == BoundsFor(targeted) && !truncated
    {
      pending, seen, bounds, truncated := [Item(root, 0)], [], BoundsFor(targeted), false;
    }

    method Next() returns (item: Option<Item<T>>)
      modifies this`pending, this`seen
      ensures item == if old(pending) == [] then None else Some(old(pending)[0])
      ensures item.Some? ==> pending == old(pending)[1..] && seen == old(seen) + [item.value.node]
      ensures item.None? ==> pending == old(pending) && seen == old(seen)
    {
      if pending == [] {
        return None;
      }
      item := Some(pending[0]);
      pending, seen := pending[1..], seen + [pending[0].node];
    }

    function ChildLimit(depth: nat): nat
      reads this
    {
      ChildLimitFor(|seen| + |pending|, depth, bounds)
    }

    method Extend(depth: nat, children: seq<T>, more: bool)
      modifies this`pending, this`truncated
      ensures pending == Queue(seen, old(pending), depth, children, bounds)
      ensures truncated == (old(truncated) || more || Refused(seen, old(pending), depth, children, bounds))
    {
      truncated := truncated || more;
      ghost var start := pending;
      for k := 0 to |children|
        invariant pending == Queue(seen, start, depth, children[..k], bounds)
        invariant truncated == (old(truncated) || more || Refused(seen, start, depth, children[..k], bounds))
      {
        assert children[..k + 1][..k] == children[..k];
        var child := children[k];
        if child in seen || exists i :: 0 <= i < |pending| && pending[i].node == child {
          continue;
        }
        if depth >= bounds.depth || |seen| + |pending| >= bounds.nodes {
          truncated := true;
          continue;
        }
        pending := pending + [Item(child, depth + 1)];
      }
      assert children[..|children|] == children;
    }
  }
}
