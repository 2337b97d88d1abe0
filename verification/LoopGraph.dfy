/**
  The task graph of a write-review loop (harness/loop-types.ts).

  A loop of `w` writes and `r` reviews has the tasks write-1 .. write-w,
  review-1 .. review-r and report. The string ids of the source are the
  constructors of `TaskId`; the timestamps and titles of a node are dropped.
 */
module LoopGraph {
  import opened Common

  datatype TaskId = Write(index: nat) | Review(index: nat) | Report

  datatype Verdict = Approved | ChangesRequested | Rejected  // "blocked" in the source

  datatype Status = Pending | Running | Done | Blocked

  /** The `result` of a node: the written files, or the verdict of a review. */
  datatype Outcome = NoResult | Files | Judged(verdict: Verdict)

  datatype Node = Node(status: Status, result: Outcome, dependencies: seq<TaskId>, dependents: seq<TaskId>)

  datatype Graph = Graph(nodes: map<TaskId, Node>, order: seq<TaskId>)

  /** The number of writes one review stands for. */
  function StepSize(w: nat, r: nat): (step: nat)
    ensures 1 <= step
  {
    Max(1, w / (if r == 0 then 1 else r))
  }

  function WriteIds(w: nat): set<TaskId> {
    set i: nat | 1 <= i <= w :: Write(i)
  }

  function ReviewIds(r: nat): set<TaskId> {
    set i: nat | 1 <= i <= r :: Review(i)
  }

  function Ids(w: nat, r: nat): set<TaskId> {
    WriteIds(w) + ReviewIds(r) + {Report}
  }

  /** The reviews among the first `wired` ones that review write `j`. */
  function Dependents(j: nat, step: nat, wired: nat): seq<TaskId>
    requires 1 <= step
  {
    if j % step == 0 && 1 <= j / step <= wired then [Review(j / step)] else []
  }

  function Dependencies(i: nat, step: nat, w: nat): seq<TaskId> {
    if i * step <= w then [Write(i * step)] else []
  }

  function InitialNode(w: nat, step: nat, wired: nat, id: TaskId): Node
    requires 1 <= step
  {
    match id
    case Write(j) => Node(Pending, NoResult, [], Dependents(j, step, wired))
    case Review(i) => Node(Pending, NoResult, Dependencies(i, step, w), [])
    case Report => Node(Pending, NoResult, [], [])
  }

  function WriteOrder(w: nat): (order: seq<TaskId>)
    ensures |order| == w
  {
    seq(w, i requires 0 <= i => Write(i + 1))
  }

  function ReviewOrder(r: nat): (order: seq<TaskId>)
    ensures |order| == r
  {
    seq(r, i requires 0 <= i => Review(i + 1))
  }

  function NodesOf(ids: set<TaskId>, w: nat, step: nat, wired: nat): map<TaskId, Node>
    requires 1 <= step
  {
    map id | id in ids :: InitialNode(w, step, wired, id)
  }

  /** The graph the builder promises, task by task. */
  function LoopTaskGraph(w: nat, r: nat): Graph {
    Graph(NodesOf(Ids(w, r), w, StepSize(w, r), r), WriteOrder(w) + ReviewOrder(r) + [Report])
  }

  /** `buildLoopTaskGraph`: the nodes are filled in, and the edges wired, in place. */
  method BuildLoopTaskGraph(w: nat, r: nat) returns (g: Graph)
    ensures g == LoopTaskGraph(w, r)
  {
    var step := Max(1, w / (if r == 0 then 1 else r));
    var nodes, order := WriteTasks(w, step);
    nodes, order := ReviewTasks(w, r, step, nodes, order);
    nodes := nodes[Report := Node(Pending, NoResult, [], [])];
    order := order + [Report];
    g := Graph(nodes, order);
  }

  /** The first loop of the builder. */
  method WriteTasks(w: nat, step: nat) returns (nodes: map<TaskId, Node>, order: seq<TaskId>)
    requires 1 <= step
    ensures nodes == NodesOf(WriteIds(w), w, step, 0)
    ensures order == WriteOrder(w)
  {
    nodes, order := map[], [];
    for i := 1 to w + 1
      invariant order == WriteOrder(i - 1)
      invariant nodes == NodesOf(WriteIds(i - 1), w, step, 0)
    {
      AddingOneWrite(w, step, i);
      nodes := nodes[Write(i) := Node(Pending, NoResult, [], [])];
      order := order + [Write(i)];
    }
  }

  /** The second loop of the builder: a review also wires itself into the write it reviews. */
  method ReviewTasks(w: nat, r: nat, step: nat, writes: map<TaskId, Node>, writeOrder: seq<TaskId>)
    returns (nodes: map<TaskId, Node>, order: seq<TaskId>)
    requires 1 <= step
    requires writes == NodesOf(WriteIds(w), w, step, 0)
    ensures nodes == NodesOf(WriteIds(w) + ReviewIds(r), w, step, r)
    ensures order == writeOrder + ReviewOrder(r)
  {
    nodes, order := writes, writeOrder;
    assert WriteIds(w) == WriteIds(w) + ReviewIds(0);
    for i := 1 to r + 1
      invariant order == writeOrder + ReviewOrder(i - 1)
      invariant nodes == NodesOf(WriteIds(w) + ReviewIds(i - 1), w, step, i - 1)
    {
      ghost var before := nodes;
      var writeIdx := i * step;
      MulMonotone(1, i, step);
      nodes := nodes[Review(i) := Node(Pending, NoResult, if writeIdx <= w then [Write(writeIdx)] else [], [])];
      if writeIdx <= w {
        var write := nodes[Write(writeIdx)];
        nodes := nodes[Write(writeIdx) := write.(dependents := write.dependents + [Review(i)])];
      }
      AddingOneReview(w, step, i, writeIdx, before, nodes);
      order := order + [Review(i)];
    }
  }

  /** Wiring review `i` changes the dependents of write `i * step` and of no other write. */
  lemma WiringOneReview(w: nat, step: nat, i: nat)
    requires 1 <= step && 1 <= i
    ensures 1 <= i * step
    ensures Dependents(i * step, step, i - 1) == [] && Dependents(i * step, step, i) == [Review(i)]
    ensures forall j: nat | 1 <= j <= w && j != i * step :: Dependents(j, step, i) == Dependents(j, step, i - 1)
  {
    MulMonotone(1, i, step);
    QuotientOfMultiple(i, step);
    forall j: nat | 1 <= j <= w && j != i * step
      ensures Dependents(j, step, i) == Dependents(j, step, i - 1)
    {
      assert j == step * (j / step) + j % step;
    }
  }

  lemma AddingOneWrite(w: nat, step: nat, i: nat)
    requires 1 <= step && 1 <= i <= w
    ensures NodesOf(WriteIds(i), w, step, 0) == NodesOf(WriteIds(i - 1), w, step, 0)[Write(i) := Node(Pending, NoResult, [], [])]
  {
    assert WriteIds(i) == WriteIds(i - 1) + {Write(i)};
  }

  lemma AddingOneReview(w: nat, step: nat, i: nat, writeIdx: nat, before: map<TaskId, Node>, after: map<TaskId, Node>)
    requires 1 <= step && 1 <= i && writeIdx == i * step && 1 <= writeIdx
    requires before == NodesOf(WriteIds(w) + ReviewIds(i - 1), w, step, i - 1)
    requires after.Keys == before.Keys + {Review(i)}
    requires after[Review(i)] == Node(Pending, NoResult, if writeIdx <= w then [Write(writeIdx)] else [], [])
    requires writeIdx <= w ==> after[Write(writeIdx)] == before[Write(writeIdx)].(dependents := before[Write(writeIdx)].dependents + [Review(i)])
    requires forall id | id in before && id != Write(writeIdx) :: after[id] == before[id]
    ensures after == NodesOf(WriteIds(w) + ReviewIds(i), w, step, i)
  {
    WiringOneReview(w, step, i);
    var ids := WriteIds(w) + ReviewIds(i);
    assert ids == before.Keys + {Review(i)};
    forall id | id in ids
      ensures after[id] == InitialNode(w, step, i, id)
    {
    }
  }

  lemma QuotientOfMultiple(i: nat, step: nat)
    requires 1 <= step
    ensures (i * step) / step == i && (i * step) % step == 0
  {
    var q, m := (i * step) / step, (i * step) % step;
    assert i * step == q * step + m;
    if q < i {
      MulMonotone(q + 1, i, step);
    } else if i < q {
      MulMonotone(i + 1, q, step);
    }
  }

  lemma IsMultipleIff(n: nat, i: nat, step: nat)
    requires 1 <= step
    ensures n == i * step <==> n % step == 0 && n / step == i
  {
    QuotientOfMultiple(i, step);
    assert n == step * (n / step) + n % step;
  }

  // ---- What the graph means ----

  ghost predicate ListsEveryNodeOnce(g: Graph) {
    && (forall id :: id in g.nodes <==> id in g.order)
    && (forall i, j | 0 <= i < j < |g.order| :: g.order[i] != g.order[j])
  }

  ghost predicate DependenciesFirst(g: Graph)
    requires ListsEveryNodeOnce(g)
  {
    forall j, d | 0 <= j < |g.order| && d in g.nodes[g.order[j]].dependencies :: d in g.order[..j]
  }

  ghost predicate NoRepeats(ids: seq<TaskId>) {
    forall i, j | 0 <= i < j < |ids| :: ids[i] != ids[j]
  }

  /** `dependents` is exactly the inverse relation of `dependencies`, each edge listed once. */
  ghost predicate EdgesAreInverse(g: Graph) {
    && (forall a | a in g.nodes :: NoRepeats(g.nodes[a].dependencies) && NoRepeats(g.nodes[a].dependents))
    && (forall a, b | a in g.nodes && b in g.nodes ::
          a in g.nodes[b].dependencies <==> b in g.nodes[a].dependents)
  }

  lemma OrderListsNodes(w: nat, r: nat)
    ensures ListsEveryNodeOnce(LoopTaskGraph(w, r))
  {
    var g := LoopTaskGraph(w, r);
    forall id
      ensures id in g.nodes <==> id in g.order
    {
      match id
      case Write(i) => if 1 <= i <= w { assert g.order[i - 1] == id; }
      case Review(i) => if 1 <= i <= r { assert g.order[w + i - 1] == id; }
      case Report => assert g.order[w + r] == id;
    }
  }

  /** The order lists every node once, and its dependencies before it. */
  lemma GraphIsOrdered(w: nat, r: nat)
    ensures ListsEveryNodeOnce(LoopTaskGraph(w, r))
    ensures DependenciesFirst(LoopTaskGraph(w, r))
  {
    OrderListsNodes(w, r);
    var g, step := LoopTaskGraph(w, r), StepSize(w, r);
    forall j, d | 0 <= j < |g.order| && d in g.nodes[g.order[j]].dependencies
      ensures d in g.order[..j]
    {
      var i := g.order[j].index;
      MulMonotone(1, i, step);
      assert d == Write(i * step) && g.order[i * step - 1] == d;
      assert g.order[..j][i * step - 1] == d;
    }
  }

  lemma GraphEdgesAreInverse(w: nat, r: nat)
    ensures EdgesAreInverse(LoopTaskGraph(w, r))
  {
    var g := LoopTaskGraph(w, r);
    forall a, b | a in g.nodes && b in g.nodes
      ensures a in g.nodes[b].dependencies <==> b in g.nodes[a].dependents
    {
      EdgeIsInverse(w, r, a, b);
    }
  }

  lemma EdgeIsInverse(w: nat, r: nat, a: TaskId, b: TaskId)
    requires a in Ids(w, r) && b in Ids(w, r)
    ensures a in InitialNode(w, StepSize(w, r), r, b).dependencies <==> b in InitialNode(w, StepSize(w, r), r, a).dependents
  {
    if a.Write? && b.Review? {
      var step := StepSize(w, r);
      IsMultipleIff(a.index, b.index, step);
    }
  }

  /** With at most one review per write, every review reviews exactly one write and no two share it. */
  lemma ReviewsHaveTheirOwnWrite(w: nat, r: nat, i: nat)
    requires 1 <= i <= r <= w
    ensures 1 <= i * StepSize(w, r) <= w
    ensures LoopTaskGraph(w, r).nodes[Review(i)].dependencies == [Write(i * StepSize(w, r))]
    ensures forall j: nat | 1 <= j <= r && j != i ::
              LoopTaskGraph(w, r).nodes[Review(j)].dependencies != LoopTaskGraph(w, r).nodes[Review(i)].dependencies
  {
    var step := StepSize(w, r);
    assert w == r * (w / r) + w % r;
    assert r * step <= w;
    MulMonotone(i, r, step);
    MulMonotone(1, i, step);
    forall j: nat | 1 <= j <= r && j != i
      ensures LoopTaskGraph(w, r).nodes[Review(j)].dependencies != LoopTaskGraph(w, r).nodes[Review(i)].dependencies
    {
      MulMonotone(j, r, step);
      QuotientOfMultiple(i, step);
      QuotientOfMultiple(j, step);
    }
  }

  // ---- The graph, without the builder's own arithmetic ----

  /** `q` is how many writes one review stands for: the whole part of w / r with reviews for the writes, one write with
      more reviews than writes, and all writes without reviews. */
  ghost predicate WritesPerReview(w: nat, r: nat, q: nat) {
    if r == 0 then q == Max(1, w)
    else if w < r then q == 1
    else q * r <= w < (q + 1) * r
  }

  lemma StepIsWritesPerReview(w: nat, r: nat, q: nat)
    requires WritesPerReview(w, r, q)
    ensures StepSize(w, r) == q && 1 <= q
  {
    if r == 0 {
      QuotientIs(w, 1, w);
    } else if w < r {
      QuotientIs(w, r, 0);
    } else {
      QuotientIs(w, r, q);
    }
  }

  lemma WritesPerReviewExists(w: nat, r: nat) returns (q: nat)
    ensures WritesPerReview(w, r, q)
  {
    q := StepSize(w, r);
    if r == 0 {
      QuotientIs(w, 1, w);
    } else if w < r {
      QuotientIs(w, r, 0);
    } else {
      QuotientBounds(w, r);
      if w / r < 1 { MulMonotone(w / r + 1, 1, r); }
    }
  }

  /** The tasks of a graph, in order, and their state: the writes, the reviews, the report, all pending. */
  lemma GraphTasks(w: nat, r: nat)
    ensures var g := LoopTaskGraph(w, r);
            && |g.order| == w + r + 1
            && (forall i: nat | 1 <= i <= w :: g.order[i - 1] == Write(i))
            && (forall i: nat | 1 <= i <= r :: g.order[w + i - 1] == Review(i))
            && g.order[w + r] == Report
            && (forall id | id in g.nodes :: g.nodes[id].status == Pending && g.nodes[id].result == NoResult)
  {
  }

  /** What every task depends on: review i on write i * q alone, if there is that write, and nothing else on anything. */
  lemma ReviewedWrites(w: nat, r: nat, q: nat)
    requires WritesPerReview(w, r, q)
    ensures var nodes := LoopTaskGraph(w, r).nodes;
            && (forall i: nat | 1 <= i <= r ::
                  Review(i) in nodes && nodes[Review(i)].dependencies == if i * q <= w then [Write(i * q)] else [])
            && (forall i: nat | 1 <= i <= w :: Write(i) in nodes && nodes[Write(i)].dependencies == [])
            && Report in nodes && nodes[Report].dependencies == []
    ensures r <= w ==> forall i: nat | 1 <= i <= r :: 1 <= i * q <= w
  {
    StepIsWritesPerReview(w, r, q);
    if 1 <= r <= w {
      forall i: nat | 1 <= i <= r
        ensures 1 <= i * q <= w
      {
        MulMonotone(i, r, q);
        MulMonotone(1, i, q);
      }
    }
  }
}
