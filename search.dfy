/** The solver's searches: the depth-limited breadth-first worker and the
    iterative-deepening driver that splits the search into work items. */
module Search {
  import opened Wrappers
  import opened Puzzle

  /** A queued (state, path, depth) triple. */
  datatype Entry = Entry(state: State, path: seq<Move>, depth: int)

  /** A (state, path, max_depth) triple handed to the worker. */
  datatype WorkItem = WorkItem(state: State, path: seq<Move>, maxDepth: int)

  /** A solved state together with the moves that lead to it. */
  datatype Found = Found(state: State, path: seq<Move>)

  const FirstMaxDepth := 8
  const DepthIncrement := 5
  /** Rounds run while max_depth is at most this. */
  const DepthCeiling := 50
  /** The max_depth of the last round: the largest 8 + 5k not above 50. */
  const DeepestRound := 48
  /** Depth of the breadth-first prefix that produces the work items. */
  const PrefixDepth := 3
  const CpuCap := 24
  const ItemsPerCpu := 4

  // ---------------------------------------------------------------------------
  // Replaying a path
  // ---------------------------------------------------------------------------

  /** The state reached by applying the moves in order, each legal where it is
      applied; None as soon as one is not. */
  function Replay(s: State, ms: seq<Move>): (r: Option<State>)
    decreases ms
  {
    if ms == [] then Some(s)
    else if Legal(s, ms[0]) then Replay(ApplyMove(s, ms[0]), ms[1..])
    else None
  }

  lemma {:induction false} ReplayAppend(s: State, a: seq<Move>, b: seq<Move>)
    ensures Replay(s, a + b) == if Replay(s, a).Some? then Replay(Replay(s, a).value, b) else None
    decreases a
  {
    if a != [] {
      assert (a + b)[0] == a[0];
      assert (a + b)[1..] == a[1..] + b;
      if Legal(s, a[0]) {
        ReplayAppend(ApplyMove(s, a[0]), a[1..], b);
      }
    } else {
      assert a + b == b;
    }
  }

  lemma ReplayStep(s: State, ms: seq<Move>, x: State, m: Move)
    requires Replay(s, ms) == Some(x) && Legal(x, m)
    ensures Replay(s, ms + [m]) == Some(ApplyMove(x, m))
  {
    ReplayAppend(s, ms, [m]);
    assert [m][1..] == [];
  }

  /** A replayed path keeps the tube count, every colour's ball count and the
      capacity bound. */
  lemma {:induction false} ReplayConserves(s: State, ms: seq<Move>)
    requires Replay(s, ms).Some?
    ensures |Replay(s, ms).value.tubes| == |s.tubes|
    ensures Balls(Replay(s, ms).value.tubes) == Balls(s.tubes)
    ensures Bounded(s) ==> Bounded(Replay(s, ms).value)
    decreases ms
  {
    if ms != [] {
      ApplyMoveConserves(s, ms[0]);
      if Bounded(s) {
        ApplyMoveBounded(s, ms[0]);
      }
      ReplayConserves(ApplyMove(s, ms[0]), ms[1..]);
    }
  }

  // ---------------------------------------------------------------------------
  // What the searches promise
  // ---------------------------------------------------------------------------

  /** The moves a search may still add below the given depth limit. */
  function Remaining(depth: int, limit: int): (k: nat)
  {
    if depth >= limit then 0 else limit - depth
  }

  /** f is a solved state reached from s by extending the path p with at most
      limit legal moves. */
  predicate Extends(s: State, p: seq<Move>, limit: int, f: Found)
  {
    && Solved(f.state)
    && |p| <= |f.path| <= |p| + Remaining(0, limit)
    && f.path[..|p|] == p
    && Replay(s, f.path[|p|..]) == Some(f.state)
  }

  /** A queued entry of a search started from s with path p: its path is p
      followed by depth legal moves leading from s to its state. */
  predicate EntryOk(s: State, p: seq<Move>, limit: int, e: Entry)
  {
    && |e.state.tubes| == |s.tubes|
    && 0 <= e.depth <= Remaining(0, limit)
    && |e.path| == |p| + e.depth
    && e.path[..|p|] == p
    && Replay(s, e.path[|p|..]) == Some(e.state)
  }

  /** Extending a queued entry by a legal move gives a queued entry one level
      deeper, and a result the search may return if its state is solved. */
  lemma EntryStep(s: State, p: seq<Move>, limit: int, e: Entry, m: Move)
    requires EntryOk(s, p, limit, e) && e.depth < limit && Legal(e.state, m)
    ensures var child := Entry(ApplyMove(e.state, m), e.path + [m], e.depth + 1);
            && EntryOk(s, p, limit, child)
            && (Solved(child.state) ==> Extends(s, p, limit, Found(child.state, child.path)))
            && |p| < |child.path|
  {
    var path := e.path + [m];
    assert path[..|p|] == p;
    assert path[|p|..] == e.path[|p|..] + [m];
    ReplayStep(s, e.path[|p|..], e.state, m);
  }

  // ---------------------------------------------------------------------------
  // The termination measure of the queue loops
  // ---------------------------------------------------------------------------

  /** b to the power k. */
  function Pow(b: nat, k: nat): (r: nat)
    ensures b >= 1 ==> r >= 1
  {
    if k == 0 then 1 else Times(b, Pow(b, k - 1))
  }

  /** Each entry weighs base^(moves it may still add): expanding an entry
      replaces it by at most n * n lighter ones (n tubes), so base = n * n + 1
      makes the total fall. */
  function Weight(q: seq<Entry>, limit: int, base: nat): (w: nat)
  {
    if q == [] then 0 else Pow(base, Remaining(q[0].depth, limit)) + Weight(q[1..], limit, base)
  }

  lemma {:induction false} WeightAppend(q: seq<Entry>, e: Entry, limit: int, base: nat)
    ensures Weight(q + [e], limit, base) == Weight(q, limit, base) + Pow(base, Remaining(e.depth, limit))
  {
    if q != [] {
      assert (q + [e])[1..] == q[1..] + [e];
      WeightAppend(q[1..], e, limit, base);
    } else {
      assert q + [e] == [e];
    }
  }

  lemma {:induction false} TimesMonotone(a: nat, b: nat, step: nat)
    requires a <= b
    ensures Times(a, step) <= Times(b, step)
  {
    if a < b {
      TimesMonotone(a, b - 1, step);
    }
  }

  /** At most bound children of weight (bound + 1)^(k-1) weigh less than
      their parent's (bound + 1)^k. */
  lemma ExpansionShrinks(count: nat, bound: nat, k: nat)
    requires count <= bound && k >= 1
    ensures Times(count, Pow(bound + 1, k - 1)) < Pow(bound + 1, k)
  {
    TimesMonotone(count, bound, Pow(bound + 1, k - 1));
  }

  /** Every entry of the queue is a queued entry of the search from s with path p. */
  predicate QueueOk(s: State, p: seq<Move>, limit: int, queue: seq<Entry>)
  {
    forall k :: 0 <= k < |queue| ==> EntryOk(s, p, limit, queue[k])
  }

  /** Queueing a well-formed entry keeps the queue well formed and adds the
      entry's weight. */
  lemma QueuePush(s: State, p: seq<Move>, limit: int, queue: seq<Entry>, e: Entry, base: nat)
    requires QueueOk(s, p, limit, queue) && EntryOk(s, p, limit, e)
    ensures QueueOk(s, p, limit, queue + [e])
    ensures Weight(queue + [e], limit, base) == Weight(queue, limit, base) + Pow(base, Remaining(e.depth, limit))
  {
    WeightAppend(queue, e, limit, base);
  }

  // ---------------------------------------------------------------------------
  // The searches
  // ---------------------------------------------------------------------------

  /** The "for move in state.moves" loop that both searches run on a dequeued
      entry e: each move's result whose tubes, in their stored order, are not
      in visited is marked visited; it is returned at once if solved, and
      queued one level deeper otherwise. The queue stays well formed, and
      without a result it weighs less than it did with e still on it. */
  method Expand(ghost s: State, ghost p: seq<Move>, limit: int, e: Entry,
                queue: seq<Entry>, visited: set<seq<Tube>>)
    returns (found: Option<Found>, queue': seq<Entry>, visited': set<seq<Tube>>)
    requires EntryOk(s, p, limit, e) && e.depth < limit
    requires QueueOk(s, p, limit, queue)
    ensures QueueOk(s, p, limit, queue')
    ensures found.Some? ==> Extends(s, p, limit, found.value) && |p| < |found.value.path|
    ensures var base := Times(|s.tubes|, |s.tubes|) + 1;
            found.None? ==> Weight(queue', limit, base) < Weight(queue, limit, base) + Pow(base, Remaining(e.depth, limit))
  {
    ghost var n := |s.tubes|;
    ghost var base := Times(n, n) + 1;
    ghost var step := Pow(base, Remaining(e.depth + 1, limit));
    queue', visited' := queue, visited;
    var ms := Moves(e.state);
    for i := 0 to |ms|
      invariant QueueOk(s, p, limit, queue')
      invariant Weight(queue', limit, base) <= Weight(queue, limit, base) + Times(i, step)
    {
      var next := ApplyMove(e.state, ms[i]);
      var key := next.tubes;
      if key in visited' {
        continue;
      }
      visited' := visited' + {key};
      var path := e.path + [ms[i]];
      var entry := Entry(next, path, e.depth + 1);
      EntryStep(s, p, limit, e, ms[i]);
      var solved := IsSolved(next);
      if solved {
        return Some(Found(next, path)), queue', visited';
      }
      QueuePush(s, p, limit, queue', entry, base);
      queue' := queue' + [entry];
    }
    ExpansionShrinks(|ms|, Times(n, n), Remaining(e.depth, limit));
    found := None;
  }

  /** _worker_solve: breadth-first search from s, carrying the path p, that
      expands no entry at depth limit or beyond and skips every state whose
      tubes, in their stored order, were already seen. */
  method WorkerSolve(s: State, p: seq<Move>, limit: int) returns (r: Option<Found>)
    ensures Solved(s) ==> r == Some(Found(s, p))
    ensures r.Some? ==> Extends(s, p, limit, r.value)
    ensures r.Some? && !Solved(s) ==> |p| < |r.value.path|
  {
    var done := IsSolved(s);
    if done {
      assert p[..|p|] == p && p[|p|..] == [];
      return Some(Found(s, p));
    }
    ghost var base := Times(|s.tubes|, |s.tubes|) + 1;
    var queue := [Entry(s, p, 0)];
    var visited := {s.tubes};
    assert p[..|p|] == p && p[|p|..] == [];
    while queue != []
      invariant QueueOk(s, p, limit, queue)
      decreases Weight(queue, limit, base)
    {
      var e := queue[0];
      queue := queue[1..];
      if e.depth >= limit {
        continue;
      }
      var found;
      found, queue, visited := Expand(s, p, limit, e, queue, visited);
      if found.Some? {
        return found;
      }
    }
    return None;
  }

  /** A work item produced in a round with the given max_depth: its path leads
      from the initial state to its state in PrefixDepth legal moves, and it
      may search what remains of max_depth. */
  predicate WorkItemOk(initial: State, maxDepth: int, w: WorkItem)
  {
    && Replay(initial, w.path) == Some(w.state)
    && |w.path| == PrefixDepth
    && w.maxDepth == maxDepth - PrefixDepth
  }

  /** A prefix entry that reached PrefixDepth becomes a well-formed work item. */
  lemma PrefixWorkItem(initial: State, maxDepth: int, e: Entry)
    requires EntryOk(initial, [], PrefixDepth, e) && e.depth >= PrefixDepth
    ensures WorkItemOk(initial, maxDepth, WorkItem(e.state, e.path, maxDepth - e.depth))
  {
    assert e.path[0..] == e.path;
  }

  /** A solution found by the prefix search replays from the initial state. */
  lemma PrefixResult(initial: State, f: Found)
    requires Extends(initial, [], PrefixDepth, f)
    ensures Solved(f.state) && Replay(initial, f.path) == Some(f.state) && |f.path| <= PrefixDepth
  {
    assert f.path[0..] == f.path;
  }

  /** A worker's solution on a work item, prefixed by the item's path, replays
      from the initial state within the round's max_depth. */
  lemma WorkerResult(initial: State, maxDepth: int, w: WorkItem, f: Found)
    requires WorkItemOk(initial, maxDepth, w) && maxDepth >= PrefixDepth
    requires Extends(w.state, w.path, w.maxDepth, f)
    ensures Solved(f.state) && Replay(initial, f.path) == Some(f.state) && |f.path| <= maxDepth
  {
    var tail := f.path[|w.path|..];
    assert f.path == w.path + tail;
    ReplayAppend(initial, w.path, tail);
  }

  /** solve: iterative deepening with max_depth = 8, 13, ..., 48. Each round
      runs a breadth-first prefix search to depth PrefixDepth, returning at
      once if it meets a solved state, and collects the entries that reach
      PrefixDepth (while fewer than cpus * 4) as work items; the workers'
      results, in work-item order, give the first solution. With no work item
      or after the last round, the search gives up. */
  method Solve(initial: State, cpuCount: int) returns (final: State, path: Option<seq<Move>>)
    requires cpuCount >= 1
    ensures Solved(initial) ==> final == initial && path == Some([])
    ensures path.None? ==> final == initial
    ensures path.Some? ==> Solved(final) && Replay(initial, path.value) == Some(final)
    ensures path.Some? ==> |path.value| <= DeepestRound
  {
    var done := IsSolved(initial);
    if done {
      return initial, Some([]);
    }
    var maxDepth := FirstMaxDepth;
    var cpus := if cpuCount < CpuCap then cpuCount else CpuCap;
    ghost var base := Times(|initial.tubes|, |initial.tubes|) + 1;
    while maxDepth <= DepthCeiling
      invariant FirstMaxDepth <= maxDepth <= DepthCeiling + DepthIncrement
      invariant (maxDepth - FirstMaxDepth) % DepthIncrement == 0
      decreases DepthCeiling + DepthIncrement - maxDepth
    {
      assert maxDepth <= DeepestRound;
      var workItems: seq<WorkItem> := [];
      var queue := [Entry(initial, [], 0)];
      var visited := {initial.tubes};
      var targetItems := cpus * ItemsPerCpu;
      while queue != [] && |workItems| < targetItems
        invariant QueueOk(initial, [], PrefixDepth, queue)
        invariant forall k :: 0 <= k < |workItems| ==> WorkItemOk(initial, maxDepth, workItems[k])
        decreases Weight(queue, PrefixDepth, base)
      {
        var e := queue[0];
        queue := queue[1..];
        if e.depth >= PrefixDepth {
          PrefixWorkItem(initial, maxDepth, e);
          workItems := workItems + [WorkItem(e.state, e.path, maxDepth - e.depth)];
          continue;
        }
        var found;
        found, queue, visited := Expand(initial, [], PrefixDepth, e, queue, visited);
        if found.Some? {
          PrefixResult(initial, found.value);
          return found.value.state, Some(found.value.path);
        }
      }
      if workItems == [] {
        break;
      }

      // pool.map(_worker_solve, work_items), run one item after another
      var results: seq<Option<Found>> := [];
      for i := 0 to |workItems|
        invariant |results| == i
        invariant forall k :: 0 <= k < i ==> results[k].Some? ==>
                    Extends(workItems[k].state, workItems[k].path, workItems[k].maxDepth, results[k].value)
      {
        var r := WorkerSolve(workItems[i].state, workItems[i].path, workItems[i].maxDepth);
        results := results + [r];
      }

      for i := 0 to |results| {
        if results[i].Some? {
          WorkerResult(initial, maxDepth, workItems[i], results[i].value);
          return results[i].value.state, Some(results[i].value.path);
        }
      }
      maxDepth := maxDepth + DepthIncrement;
    }
    return initial, None;
  }
}
