/** Connected components of the candidate/source graph by breadth-first search. */
module Components {
  import opened Wrappers
  import opened Sums
  import opened Matching
  import opened Sorting
  import opened Reindex
  import OptimalAssignment

  /** A node is (true, candidate) or (false, source). */
  type Node = (bool, nat)

  /** The adjacency lists describe exactly the edges of g, from both sides. */
  ghost predicate Adjacency(g: Graph, columns: nat, edges: seq<seq<(nat, nat)>>, reverse: seq<seq<nat>>) {
    && OptimalAssignment.RectangularGraph(g, columns)
    && |edges| == |g| && |reverse| == columns
    && (forall r, k :: 0 <= r < |edges| && 0 <= k < |edges[r]| ==> Edge(g, r, edges[r][k].0))
    && (forall r: nat, c: nat :: Edge(g, r, c) ==> exists k :: 0 <= k < |edges[r]| && edges[r][k].0 == c)
    && (forall c, k :: 0 <= c < |reverse| && 0 <= k < |reverse[c]| ==> Edge(g, reverse[c][k], c))
    && (forall r: nat, c: nat :: Edge(g, r, c) ==> r in reverse[c])
  }

  ghost predicate Linked(g: Graph, x: Node, y: Node) {
    x.0 != y.0 && if x.0 then Edge(g, x.1, y.1) else Edge(g, y.1, x.1)
  }

  ghost predicate InGraph(g: Graph, columns: nat, x: Node) {
    if x.0 then x.1 < |g| else x.1 < columns
  }

  ghost predicate Member(rows: set<nat>, cols: set<nat>, x: Node) {
    if x.0 then x.1 in rows else x.1 in cols
  }

  /** The nodes discovered so far, the first `head` of them expanded. */
  ghost predicate Exploring(g: Graph, columns: nat, order: seq<Node>, head: nat, start: nat, rows: set<nat>, cols: set<nat>) {
    && head <= |order| && |order| > 0 && order[0] == (true, start)
    && NoRepeats(order)
    && (forall x :: x in order ==> InGraph(g, columns, x) && !Member(rows, cols, x))
    && (forall i, y :: 0 <= i < head && Linked(g, order[i], y) ==> y in order)
    && (forall a, b :: Closed(g, a, b) && start in a ==> forall x :: x in order ==> Member(a, b, x))
  }

  /** Expanding order[head] appended its undiscovered neighbours. */
  ghost predicate Expanded(g: Graph, order: seq<Node>, order': seq<Node>, x: Node) {
    && order <= order'
    && NoRepeats(order')
    && (forall i :: |order| <= i < |order'| ==> Linked(g, x, order'[i]))
  }

  lemma LinkedInGraph(g: Graph, columns: nat, x: Node, y: Node)
    requires OptimalAssignment.RectangularGraph(g, columns) && Linked(g, x, y)
    ensures InGraph(g, columns, x) && InGraph(g, columns, y)
  {
  }

  lemma ClosedAlong(g: Graph, a: set<nat>, b: set<nat>, x: Node, y: Node)
    requires Closed(g, a, b) && Linked(g, x, y)
    ensures Member(a, b, x) <==> Member(a, b, y)
  {
  }

  lemma Expand(g: Graph, columns: nat, order: seq<Node>, order': seq<Node>, head: nat, start: nat, rows: set<nat>, cols: set<nat>)
    requires OptimalAssignment.RectangularGraph(g, columns) && Closed(g, rows, cols)
    requires Exploring(g, columns, order, head, start, rows, cols) && head < |order|
    requires Expanded(g, order, order', order[head])
    requires forall y :: Linked(g, order[head], y) ==> y in order' || Member(rows, cols, y)
    ensures Exploring(g, columns, order', head + 1, start, rows, cols)
  {
    var x := order[head];
    forall y | y in order' ensures InGraph(g, columns, y) && !Member(rows, cols, y) {
      if y !in order {
        ClosedAlong(g, rows, cols, x, y);
        LinkedInGraph(g, columns, x, y);
      }
    }
    forall i, y | 0 <= i < head + 1 && Linked(g, order'[i], y) ensures y in order' {
      assert order'[i] == order[i];
      if i == head {
        ClosedAlong(g, rows, cols, x, y);
      } else {
        assert y in order;
      }
    }
    forall a, b | Closed(g, a, b) && start in a ensures forall y :: y in order' ==> Member(a, b, y) {
      forall y | y in order' ensures Member(a, b, y) {
        if y !in order {
          ClosedAlong(g, a, b, x, y);
        }
      }
    }
  }

  /** Only so many nodes can be discovered. */
  lemma ExploringBound(g: Graph, columns: nat, order: seq<Node>, head: nat, start: nat, rows: set<nat>, cols: set<nat>)
    requires Exploring(g, columns, order, head, start, rows, cols)
    ensures |order| <= |g| + columns
  {
    var codes := seq(|order|, i requires 0 <= i < |order| => if order[i].0 then order[i].1 + 1 else |g| + order[i].1 + 1);
    forall i | 0 <= i < |order| ensures 1 <= codes[i] <= |g| + columns {
      assert order[i] in order;
    }
    forall i, j | 0 <= i < j < |order| ensures codes[i] != codes[j] {
      assert order[i] in order && order[j] in order;
    }
    Pigeonhole(codes, |g| + columns);
  }

  // ----- The array code -----

  /** Mark and enqueue the sources of a candidate that have not been seen. */
  method PushSources(ghost g: Graph, ghost r: nat, list: seq<(nat, nat)>, seen: array<bool>, queue: seq<Node>,
                     ghost order: seq<Node>, ghost cols: set<nat>)
    returns (queue': seq<Node>, ghost order': seq<Node>)
    requires forall k :: 0 <= k < |list| ==> Edge(g, r, list[k].0) && list[k].0 < seen.Length
    requires forall c: nat :: c < seen.Length ==> (seen[c] <==> (c in cols || (false, c) in order))
    requires NoRepeats(order)
    modifies seen
    ensures forall c: nat :: c < seen.Length ==> (seen[c] <==> (c in cols || (false, c) in order'))
    ensures Expanded(g, order, order', (true, r)) && queue' == queue + order'[|order|..]
    ensures forall k :: 0 <= k < |list| ==> (false, list[k].0) in order' || list[k].0 in cols
    ensures forall i :: |order| <= i < |order'| ==> !order'[i].0
  {
    queue', order' := queue, order;
    for k := 0 to |list|
      invariant order <= order' && queue' == queue + order'[|order|..]
      invariant forall c: nat :: c < seen.Length ==> (seen[c] <==> (c in cols || (false, c) in order'))
      invariant NoRepeats(order')
      invariant forall i :: |order| <= i < |order'| ==> !order'[i].0 && Linked(g, (true, r), order'[i])
      invariant forall j :: 0 <= j < k ==> (false, list[j].0) in order' || list[j].0 in cols
    {
      var source := list[k].0;
      assert Edge(g, r, source);
      if !seen[source] {
        seen[source] := true;
        queue' := queue' + [(false, source)];
        order' := order' + [(false, source)];
      }
    }
  }

  /** Mark and enqueue the candidates of a source that have not been seen. */
  method PushCandidates(ghost g: Graph, ghost c: nat, list: seq<nat>, seen: array<bool>, queue: seq<Node>,
                        ghost order: seq<Node>, ghost rows: set<nat>)
    returns (queue': seq<Node>, ghost order': seq<Node>)
    requires forall k :: 0 <= k < |list| ==> Edge(g, list[k], c) && list[k] < seen.Length
    requires forall r: nat :: r < seen.Length ==> (seen[r] <==> (r in rows || (true, r) in order))
    requires NoRepeats(order)
    modifies seen
    ensures forall r: nat :: r < seen.Length ==> (seen[r] <==> (r in rows || (true, r) in order'))
    ensures Expanded(g, order, order', (false, c)) && queue' == queue + order'[|order|..]
    ensures forall k :: 0 <= k < |list| ==> (true, list[k]) in order' || list[k] in rows
    ensures forall i :: |order| <= i < |order'| ==> order'[i].0
  {
    queue', order' := queue, order;
    for k := 0 to |list|
      invariant order <= order' && queue' == queue + order'[|order|..]
      invariant forall r: nat :: r < seen.Length ==> (seen[r] <==> (r in rows || (true, r) in order'))
      invariant NoRepeats(order')
      invariant forall i :: |order| <= i < |order'| ==> order'[i].0 && Linked(g, (false, c), order'[i])
      invariant forall j :: 0 <= j < k ==> (true, list[j]) in order' || list[j] in rows
    {
      var candidate := list[k];
      assert Edge(g, candidate, c);
      if !seen[candidate] {
        seen[candidate] := true;
        queue' := queue' + [(true, candidate)];
        order' := order' + [(true, candidate)];
      }
    }
  }

  /** The list holds, without repeats, the indices of one side among the first `head` nodes. */
  ghost predicate Collects(list: seq<nat>, side: bool, order: seq<Node>, head: nat)
    requires head <= |order|
  {
    && NoRepeats(list)
    && (forall x :: x in list <==> (side, x) in order[..head])
  }

  lemma CollectOne(list: seq<nat>, side: bool, order: seq<Node>, order': seq<Node>, head: nat)
    requires head < |order| && order <= order' && NoRepeats(order) && Collects(list, side, order, head)
    ensures Collects(if order[head].0 == side then list + [order[head].1] else list, side, order', head + 1)
  {
    assert order'[..head + 1] == order[..head] + [order[head]];
    assert order[head] !in order[..head];
  }

  lemma NeighboursListed(g: Graph, columns: nat, edges: seq<seq<(nat, nat)>>, reverse: seq<seq<nat>>, x: Node, y: Node)
    requires Adjacency(g, columns, edges, reverse) && Linked(g, x, y)
    ensures x.0 ==> x.1 < |edges| && exists k :: 0 <= k < |edges[x.1]| && edges[x.1][k].0 == y.1
    ensures !x.0 ==> x.1 < |reverse| && exists k :: 0 <= k < |reverse[x.1]| && reverse[x.1][k] == y.1
  {
  }

  /** One pop of the queue. */
  method ExpandNode(ghost g: Graph, ghost columns: nat, edges: seq<seq<(nat, nat)>>, reverse: seq<seq<nat>>,
                    candidateSeen: array<bool>, sourceSeen: array<bool>, x: Node, queue: seq<Node>,
                    ghost order: seq<Node>, ghost head: nat, ghost start: nat, ghost rows: set<nat>, ghost cols: set<nat>)
    returns (queue': seq<Node>, ghost order': seq<Node>)
    requires Adjacency(g, columns, edges, reverse) && Closed(g, rows, cols)
    requires candidateSeen != sourceSeen && candidateSeen.Length == |g| && sourceSeen.Length == columns
    requires Exploring(g, columns, order, head, start, rows, cols) && head < |order| && order[head] == x
    requires forall r: nat :: r < |g| ==> (candidateSeen[r] <==> (r in rows || (true, r) in order))
    requires forall c: nat :: c < columns ==> (sourceSeen[c] <==> (c in cols || (false, c) in order))
    modifies candidateSeen, sourceSeen
    ensures Exploring(g, columns, order', head + 1, start, rows, cols)
    ensures order <= order' && queue' == queue + order'[|order|..]
    ensures forall r: nat :: r < |g| ==> (candidateSeen[r] <==> (r in rows || (true, r) in order'))
    ensures forall c: nat :: c < columns ==> (sourceSeen[c] <==> (c in cols || (false, c) in order'))
  {
    assert InGraph(g, columns, x) by {
      assert x in order;
    }
    if x.0 {
      queue', order' := PushSources(g, x.1, edges[x.1], sourceSeen, queue, order, cols);
    } else {
      queue', order' := PushCandidates(g, x.1, reverse[x.1], candidateSeen, queue, order, rows);
    }
    forall y | Linked(g, x, y) ensures y in order' || Member(rows, cols, y) {
      NeighboursListed(g, columns, edges, reverse, x, y);
    }
    Expand(g, columns, order, order', head, start, rows, cols);
  }

  /** The nodes of the component: closed under edges, free of earlier nodes, and no larger than any
      closed part holding the start. */
  ghost predicate IsComponent(g: Graph, columns: nat, start: nat, rows: set<nat>, cols: set<nat>) {
    && start in rows
    && (forall r :: r in rows ==> r < |g|) && (forall c :: c in cols ==> c < columns)
    && Closed(g, rows, cols)
    && (forall a, b :: Closed(g, a, b) && start in a ==> rows <= a && cols <= b)
  }

  lemma ExploredIsComponent(g: Graph, columns: nat, order: seq<Node>, start: nat, rows: set<nat>, cols: set<nat>,
                            candidates: seq<nat>, sources: seq<nat>)
    requires Exploring(g, columns, order, |order|, start, rows, cols)
    requires Collects(candidates, true, order, |order|) && Collects(sources, false, order, |order|)
    ensures IsComponent(g, columns, start, Elements(candidates), Elements(sources))
    ensures Elements(candidates) !! rows && Elements(sources) !! cols
    ensures forall r :: r in Elements(candidates) <==> (true, r) in order
    ensures forall c :: c in Elements(sources) <==> (false, c) in order
  {
    assert order[..|order|] == order;
    var mine, theirs := Elements(candidates), Elements(sources);
    forall r: nat, c: nat | Edge(g, r, c) ensures r in mine <==> c in theirs {
      assert Linked(g, (true, r), (false, c)) && Linked(g, (false, c), (true, r));
    }
    forall a, b | Closed(g, a, b) && start in a ensures mine <= a && theirs <= b {
      forall r | r in mine ensures r in a {
        assert Member(a, b, (true, r));
      }
      forall c | c in theirs ensures c in b {
        assert Member(a, b, (false, c));
      }
    }
  }

  /** Breadth-first search from an unseen candidate. */
  method Component(start: nat, edges: seq<seq<(nat, nat)>>, reverse: seq<seq<nat>>,
                   candidateSeen: array<bool>, sourceSeen: array<bool>,
                   ghost g: Graph, ghost columns: nat, ghost rows: set<nat>, ghost cols: set<nat>)
    returns (candidates: seq<nat>, sources: seq<nat>)
    requires Adjacency(g, columns, edges, reverse) && Closed(g, rows, cols)
    requires candidateSeen != sourceSeen && candidateSeen.Length == |g| && sourceSeen.Length == columns
    requires start < |g| && !candidateSeen[start]
    requires forall r: nat :: r < |g| ==> (candidateSeen[r] <==> r in rows)
    requires forall c: nat :: c < columns ==> (sourceSeen[c] <==> c in cols)
    modifies candidateSeen, sourceSeen
    ensures IsComponent(g, columns, start, Elements(candidates), Elements(sources))
    ensures Elements(candidates) !! rows && Elements(sources) !! cols
    ensures NoRepeats(candidates) && NoRepeats(sources)
    ensures forall i, j :: 0 <= i < j < |candidates| ==> candidates[i] <= candidates[j]
    ensures forall i, j :: 0 <= i < j < |sources| ==> sources[i] <= sources[j]
    ensures forall r: nat :: r < |g| ==> (candidateSeen[r] <==> r in rows + Elements(candidates))
    ensures forall c: nat :: c < columns ==> (sourceSeen[c] <==> c in cols + Elements(sources))
  {
    hide *;
    candidates, sources := [], [];
    var queue: seq<Node> := [(true, start)];
    candidateSeen[start] := true;
    ghost var order, head := queue, 0;
    ExploringStarts(g, columns, start, rows, cols);
    while |queue| > 0
      invariant head <= |order| && queue == order[head..]
      invariant Exploring(g, columns, order, head, start, rows, cols)
      invariant Collects(candidates, true, order, head) && Collects(sources, false, order, head)
      invariant forall r: nat :: r < |g| ==> (candidateSeen[r] <==> (r in rows || (true, r) in order))
      invariant forall c: nat :: c < columns ==> (sourceSeen[c] <==> (c in cols || (false, c) in order))
      decreases |g| + columns - head
    {
      var x := queue[0];
      ExploringBound(g, columns, order, head, start, rows, cols);
      ExploringNoRepeats(g, columns, order, head, start, rows, cols);
      queue := queue[1..];
      ghost var before := order;
      queue, order := ExpandNode(g, columns, edges, reverse, candidateSeen, sourceSeen, x, queue, order, head, start, rows, cols);
      CollectOne(candidates, true, before, order, head);
      CollectOne(sources, false, before, order, head);
      if x.0 {
        candidates := candidates + [x.1];
      } else {
        sources := sources + [x.1];
      }
      head := head + 1;
      assert queue == order[head..];
    }
    ExploredIsComponent(g, columns, order, start, rows, cols, candidates, sources);
    AscendingSet(candidates, true, order);
    AscendingSet(sources, false, order);
    candidates, sources := Ascending(candidates), Ascending(sources);
  }

  lemma ExploringStarts(g: Graph, columns: nat, start: nat, rows: set<nat>, cols: set<nat>)
    requires start < |g| && start !in rows
    ensures Exploring(g, columns, [(true, start)], 0, start, rows, cols)
    ensures Collects([], true, [(true, start)], 0) && Collects([], false, [(true, start)], 0)
  {
  }

  lemma ExploringNoRepeats(g: Graph, columns: nat, order: seq<Node>, head: nat, start: nat, rows: set<nat>, cols: set<nat>)
    requires Exploring(g, columns, order, head, start, rows, cols)
    ensures NoRepeats(order)
  {
  }

  lemma AscendingSet(list: seq<nat>, side: bool, order: seq<Node>)
    requires Collects(list, side, order, |order|)
    ensures Elements(Ascending(list)) == Elements(list) && NoRepeats(Ascending(list))
    ensures forall i, j :: 0 <= i < j < |Ascending(list)| ==> Ascending(list)[i] <= Ascending(list)[j]
  {
    AscendingSorted(list);
    ReorderingNoRepeats(list, Ascending(list));
    forall x ensures x in Ascending(list) <==> x in list {
      SameElements(list, Ascending(list), x);
    }
  }
}
