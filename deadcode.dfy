/** Dead-code detection (A3/.../dataflow/analysis/DeadCodeDetection.java):
    a statement is dead when no control-flow path the constant facts allow
    reaches it from the entry, or when it is a side-effect-free assignment
    to a variable that is not live after it. */
module DeadCode {
  import opened IR
  import opened ConstProp

  /** The CFG edge kinds the detector tells apart; `Flow` covers every
      other kind (fall-through, goto, return, exceptions). */
  datatype EdgeKind = IfTrue | IfFalse | SwitchCase(caseValue: int32) | SwitchDefault | Flow

  datatype Edge = Edge(kind: EdgeKind, target: nat)

  /** A method's CFG.  Nodes `0 .. |stmts|-1` are the IR statements (a
      node's number is the statement's index), node `|stmts|` is the entry
      and `|stmts| + 1` the exit; `outEdges[n]` lists the out-edges of node
      `n` in the CFG's order. */
  datatype Cfg = Cfg(stmts: seq<Stmt>, outEdges: seq<seq<Edge>>)
  {
    function NodeCount(): nat { |stmts| + 2 }
    function Entry(): nat { |stmts| }

    /** The statement at a node; the entry and exit are no-ops. */
    function StmtAt(n: nat): Stmt
      requires n < NodeCount()
    {
      if n < |stmts| then stmts[n] else Nop
    }

    ghost predicate Wf() {
      && |outEdges| == NodeCount()
      && forall n, k :: 0 <= n < |outEdges| && 0 <= k < |outEdges[n]| ==> outEdges[n][k].target < NodeCount()
    }
  }

  /** The analysis results the detector reads at each node: the live
      variables after it and the constant-propagation OUT fact. */
  datatype Facts = Facts(liveOut: seq<set<Var>>, constOut: seq<FactMap>)

  ghost predicate FactsFit(cfg: Cfg, facts: Facts) {
    |facts.liveOut| == cfg.NodeCount() && |facts.constOut| == cfg.NodeCount()
  }

  /** `hasNoSideEffect`: allocation, casts, field and array accesses and
      integer division or remainder may have an effect (heap change,
      exceptions, class initialisation); every other rhs has none. */
  function HasNoSideEffect(rhs: Exp): (r: bool)
    ensures !r <==> || rhs.NewE? || rhs.Cast? || rhs.FieldE? || rhs.ArrayE?
                    || (rhs.Binary? && rhs.op in {Arith(Div), Arith(Rem)})
  {
    match rhs
    case NewE(_) => false
    case Cast(_, _) => false
    case FieldE(_) => false
    case ArrayE(_, _) => false
    case Binary(Arith(a), _, _) => a != Div && a != Rem
    case _ => true
  }

  /** A reached statement that is a dead assignment: a side-effect-free
      assignment to a variable that is not live after it. */
  predicate DeadAssignment(cfg: Cfg, facts: Facts, n: nat)
    requires cfg.Wf() && FactsFit(cfg, facts) && n < cfg.NodeCount()
  {
    var s := cfg.StmtAt(n);
    s.Assign? && s.lhs.LVar? && s.lhs.v !in facts.liveOut[n] && HasNoSideEffect(s.rhs)
  }

  /** The targets of the edges of one kind, in order. */
  function TargetsOfKind(edges: seq<Edge>, kind: EdgeKind): (r: seq<nat>)
    ensures forall t :: t in r <==> exists e :: e in edges && e.kind == kind && e.target == t
  {
    if edges == [] then []
    else
      var rest := TargetsOfKind(edges[1..], kind);
      assert forall e :: e in edges <==> e == edges[0] || e in edges[1..];
      if edges[0].kind == kind then [edges[0].target] + rest else rest
  }

  /** The target of the first SWITCH_CASE edge for `value`, if any. */
  function FirstCaseTarget(edges: seq<Edge>, value: int32): (r: Option<nat>)
    ensures r.None? <==> forall k :: 0 <= k < |edges| ==> edges[k].kind != SwitchCase(value)
    ensures r.Some? ==> exists k :: 0 <= k < |edges| && edges[k].kind == SwitchCase(value)
                          && r.value == edges[k].target
                          && forall k' :: 0 <= k' < k ==> edges[k'].kind != SwitchCase(value)
  {
    if edges == [] then None
    else if edges[0].kind == SwitchCase(value) then Some(edges[0].target)
    else
      var r := FirstCaseTarget(edges[1..], value);
      if r.Some? then
        ghost var k :| 0 <= k < |edges[1..]| && edges[1..][k].kind == SwitchCase(value)
                       && r.value == edges[1..][k].target
                       && forall k' :: 0 <= k' < k ==> edges[1..][k'].kind != SwitchCase(value);
        assert edges[k + 1].kind == SwitchCase(value) && r.value == edges[k + 1].target;
        assert forall k' :: 0 <= k' < k + 1 ==> edges[k'].kind != SwitchCase(value) by {
          forall k' | 0 <= k' < k + 1 ensures edges[k'].kind != SwitchCase(value) {
            if k' > 0 { assert edges[k'] == edges[1..][k' - 1]; }
          }
        }
        r
      else
        assert forall k :: 1 <= k < |edges| ==> edges[k] == edges[1..][k - 1];
        r
  }

  /** All successors of a node. */
  function AllTargets(edges: seq<Edge>): (r: seq<nat>)
    ensures forall t :: t in r <==> exists e :: e in edges && e.target == t
  {
    if edges == [] then []
    else
      assert forall e :: e in edges <==> e == edges[0] || e in edges[1..];
      [edges[0].target] + AllTargets(edges[1..])
  }

  /** The successors the detector follows from a reached node: an `if`
      whose condition is a constant follows only its true edge (the
      constant is 1) or only its false edge; a `switch` on a constant
      follows the first case edge for that constant, or the default edges
      when no case matches; every other node follows all its successors. */
  function FollowedSuccs(cfg: Cfg, facts: Facts, n: nat): seq<nat>
    requires cfg.Wf() && FactsFit(cfg, facts) && n < cfg.NodeCount()
  {
    var s, edges, fact := cfg.StmtAt(n), cfg.outEdges[n], facts.constOut[n];
    if s.If? && Evaluate(s.cond, fact).Const? then
      TargetsOfKind(edges, if Evaluate(s.cond, fact).c == 1 then IfTrue else IfFalse)
    else if s.Switch? && Get(fact, s.switchVar).Const? then
      var first := FirstCaseTarget(edges, Get(fact, s.switchVar).c);
      if first.Some? then [first.value] else TargetsOfKind(edges, SwitchDefault)
    else AllTargets(edges)
  }

  lemma FollowedSuccsAreNodes(cfg: Cfg, facts: Facts, n: nat)
    requires cfg.Wf() && FactsFit(cfg, facts) && n < cfg.NodeCount()
    ensures forall t :: t in FollowedSuccs(cfg, facts, n) ==> t < cfg.NodeCount()
  {
    var s, edges, fact := cfg.StmtAt(n), cfg.outEdges[n], facts.constOut[n];
    assert forall e :: e in edges ==> e.target < cfg.NodeCount();
    if s.Switch? && Get(fact, s.switchVar).Const? {
      var first := FirstCaseTarget(edges, Get(fact, s.switchVar).c);
      if first.Some? {
        var k :| 0 <= k < |edges| && edges[k].kind == SwitchCase(Get(fact, s.switchVar).c)
                 && first.value == edges[k].target;
      }
    }
  }

  /** A set of nodes that is closed under the followed successors. */
  ghost predicate Closed(cfg: Cfg, facts: Facts, S: set<nat>)
    requires cfg.Wf() && FactsFit(cfg, facts)
  {
    forall n :: n in S && n < cfg.NodeCount() ==> forall t :: t in FollowedSuccs(cfg, facts, n) ==> t in S
  }

  function AllNodes(cfg: Cfg): (r: set<nat>)
    ensures forall n: nat :: n in r <==> n < cfg.NodeCount()
  {
    NatsBelow(cfg.NodeCount())
  }

  /** A closed set holds the followed successors of its nodes. */
  lemma ClosedHoldsSuccs(cfg: Cfg, facts: Facts, S: set<nat>, n: nat)
    requires cfg.Wf() && FactsFit(cfg, facts) && n < cfg.NodeCount()
    requires Closed(cfg, facts, S) && n in S
    ensures Elems(FollowedSuccs(cfg, facts, n)) <= S
  {
  }

  /** Every successor of a reached node is reached or waiting. */
  ghost predicate Frontier(cfg: Cfg, facts: Facts, reached: set<nat>, queue: seq<nat>)
    requires cfg.Wf() && FactsFit(cfg, facts)
  {
    forall n, t :: n in reached && n < cfg.NodeCount() && t in FollowedSuccs(cfg, facts, n) ==>
      t in reached || t in queue
  }
  /** Popping a reached node keeps the frontier. */
  lemma FrontierPopReached(cfg: Cfg, facts: Facts, reached: set<nat>, n: nat, queue: seq<nat>)
    requires cfg.Wf() && FactsFit(cfg, facts)
    requires n in reached && Frontier(cfg, facts, reached, [n] + queue)
    ensures Frontier(cfg, facts, reached, queue)
  {
  }

  /** Reaching a node and queueing every successor not yet reached keeps
      the frontier. */
  lemma FrontierReach(cfg: Cfg, facts: Facts, reached: set<nat>, n: nat, queue: seq<nat>, added: seq<nat>)
    requires cfg.Wf() && FactsFit(cfg, facts) && n < cfg.NodeCount()
    requires Frontier(cfg, facts, reached, [n] + queue)
    requires forall t :: t in FollowedSuccs(cfg, facts, n) ==> t in reached || t in added
    ensures Frontier(cfg, facts, reached + {n}, queue + added)
  {
  }

  /** The statements not in `reached`, and the dead assignments in it, in
      increasing index order. */
  method CollectDead(cfg: Cfg, facts: Facts, reached: set<nat>) returns (dead: seq<nat>)
    requires cfg.Wf() && FactsFit(cfg, facts)
    ensures forall i, j :: 0 <= i < j < |dead| ==> dead[i] < dead[j]
    ensures forall i: nat :: i in dead <==>
              i < |cfg.stmts| && (i !in reached || DeadAssignment(cfg, facts, i))
  {
    dead := [];
    for i := 0 to |cfg.stmts|
      invariant forall a, b :: 0 <= a < b < |dead| ==> dead[a] < dead[b]
      invariant forall k :: k in dead ==> k < i
      invariant forall k: nat :: k in dead <==> k < i && (k !in reached || DeadAssignment(cfg, facts, k))
    {
      if i !in reached || DeadAssignment(cfg, facts, i) {
        assert forall a :: 0 <= a < |dead| ==> dead[a] in dead;
        dead := dead + [i];
      }
    }
  }

  /** The nodes queued after reaching `n`: all followed successors of a
      constant `if` or `switch`, and the not yet reached successors of
      any other node. */
  method Successors(cfg: Cfg, facts: Facts, n: nat, reached: set<nat>) returns (added: seq<nat>)
    requires cfg.Wf() && FactsFit(cfg, facts) && n < cfg.NodeCount()
    ensures forall t :: t in added ==> t in FollowedSuccs(cfg, facts, n) && t < cfg.NodeCount()
    ensures forall t :: t in FollowedSuccs(cfg, facts, n) ==> t in reached || t in added
  {
    FollowedSuccsAreNodes(cfg, facts, n);
    var succs := FollowedSuccs(cfg, facts, n);
    var s := cfg.StmtAt(n);
    if (s.If? && Evaluate(s.cond, facts.constOut[n]).Const?)
       || (s.Switch? && Get(facts.constOut[n], s.switchVar).Const?) {
      added := succs;
    } else {
      added := Unreached(succs, reached);
    }
  }

  /** What the exploration keeps between two dequeues. */
  ghost predicate Explored(cfg: Cfg, facts: Facts, S: set<nat>, reached: set<nat>, queue: seq<nat>)
    requires cfg.Wf() && FactsFit(cfg, facts)
  {
    && reached <= AllNodes(cfg)
    && (forall q :: q in queue ==> q < cfg.NodeCount())
    && (cfg.Entry() in reached || cfg.Entry() in queue)
    && Frontier(cfg, facts, reached, queue)
    && (cfg.Entry() in S && Closed(cfg, facts, S) ==> reached + Elems(queue) <= S)
  }

  /** Dequeuing a node reached before keeps the exploration state. */
  lemma ExploredPop(cfg: Cfg, facts: Facts, S: set<nat>, reached: set<nat>, n: nat, queue: seq<nat>)
    requires cfg.Wf() && FactsFit(cfg, facts)
    requires Explored(cfg, facts, S, reached, [n] + queue) && n in reached
    ensures Explored(cfg, facts, S, reached, queue)
  {
    FrontierPopReached(cfg, facts, reached, n, queue);
    assert forall q :: q in queue ==> q in [n] + queue;
  }

  /** Reaching a dequeued node and queueing `added` keeps the exploration
      state. */
  lemma ExploredReach(cfg: Cfg, facts: Facts, S: set<nat>, reached: set<nat>, n: nat, queue: seq<nat>,
                      added: seq<nat>)
    requires cfg.Wf() && FactsFit(cfg, facts) && n < cfg.NodeCount()
    requires Explored(cfg, facts, S, reached, [n] + queue)
    requires forall t :: t in added ==> t in FollowedSuccs(cfg, facts, n) && t < cfg.NodeCount()
    requires forall t :: t in FollowedSuccs(cfg, facts, n) ==> t in reached || t in added
    ensures Explored(cfg, facts, S, reached + {n}, queue + added)
  {
    assert forall t :: t in queue + added ==> t in queue || t in added;
    assert forall q :: q in queue ==> q in [n] + queue;
    FrontierReach(cfg, facts, reached, n, queue, added);
    if cfg.Entry() in S && Closed(cfg, facts, S) {
      ClosedHoldsSuccs(cfg, facts, S, n);
    }
  }

  /** One iteration of the exploration: dequeue a node; unless it was
      reached before, reach it and queue its successors. */
  method ExploreStep(cfg: Cfg, facts: Facts, ghost S: set<nat>, reached: set<nat>, queue: seq<nat>)
    returns (reached': set<nat>, queue': seq<nat>)
    requires cfg.Wf() && FactsFit(cfg, facts) && queue != []
    requires Explored(cfg, facts, S, reached, queue)
    ensures Explored(cfg, facts, S, reached', queue')
    ensures reached <= reached'
    ensures |AllNodes(cfg) - reached'| < |AllNodes(cfg) - reached|
            || (reached' == reached && |queue'| < |queue|)
  {
    var n := queue[0];
    assert queue == [n] + queue[1..];
    queue' := queue[1..];
    if n in reached {
      ExploredPop(cfg, facts, S, reached, n, queue');
      reached' := reached;
      return;
    }
    Shrinks(AllNodes(cfg), reached, n);
    var added := Successors(cfg, facts, n, reached);
    ExploredReach(cfg, facts, S, reached, n, queue', added);
    reached' := reached + {n};
    queue' := queue' + added;
  }

  /** `analyze`: explores the CFG from the entry along the followed
      successors, then reports the unreached statements and the reached
      dead assignments, sorted by index.  `reached` is the least set that
      holds the entry and is closed under the followed successors: it lies
      inside every such set `S`. */
  method Analyze(cfg: Cfg, facts: Facts, ghost S: set<nat>) returns (reached: set<nat>, dead: seq<nat>)
    requires cfg.Wf() && FactsFit(cfg, facts)
    ensures cfg.Entry() in reached && reached <= AllNodes(cfg)
    ensures Closed(cfg, facts, reached)
    ensures cfg.Entry() in S && Closed(cfg, facts, S) ==> reached <= S
    ensures forall i, j :: 0 <= i < j < |dead| ==> dead[i] < dead[j]
    ensures forall i: nat :: i in dead <==>
              i < |cfg.stmts| && (i !in reached || DeadAssignment(cfg, facts, i))
  {
    reached := {};
    var queue: seq<nat> := [cfg.Entry()];
    assert Elems(queue) == {cfg.Entry()};
    while queue != []
      invariant Explored(cfg, facts, S, reached, queue)
      decreases |AllNodes(cfg) - reached|, |queue|
    {
      reached, queue := ExploreStep(cfg, facts, S, reached, queue);
    }
    ExploredDone(cfg, facts, S, reached, queue);
    dead := CollectDead(cfg, facts, reached);
  }

  /** With an empty queue, the reached set holds the entry, is closed, and
      lies inside every closed set that holds the entry. */
  lemma ExploredDone(cfg: Cfg, facts: Facts, S: set<nat>, reached: set<nat>, queue: seq<nat>)
    requires cfg.Wf() && FactsFit(cfg, facts)
    requires Explored(cfg, facts, S, reached, queue) && queue == []
    ensures cfg.Entry() in reached && reached <= AllNodes(cfg)
    ensures Closed(cfg, facts, reached)
    ensures cfg.Entry() in S && Closed(cfg, facts, S) ==> reached <= S
  {
    assert Elems(queue) == {};
  }

  /** The elements of `succs` not yet reached, in order. */
  function Unreached(succs: seq<nat>, reached: set<nat>): (r: seq<nat>)
    ensures forall t :: t in r <==> t in succs && t !in reached
  {
    if succs == [] then []
    else
      assert forall t :: t in succs <==> t == succs[0] || t in succs[1..];
      (if succs[0] in reached then [] else [succs[0]]) + Unreached(succs[1..], reached)
  }
}
