/**
 * Grid A* over the world's tiles: 8-connected moves costing 10 (cardinal)
 * and 14 (diagonal), a 10-times-Chebyshev heuristic, no corner cutting,
 * a node re-queued only when a strictly cheaper cost reaches it, and at
 * most 2000 polls. The path is rebuilt backwards from the parent map and
 * runs from the first step after the start up to and including the goal.
 */
module Pathfinding {

  import opened Common
  import opened Worlds

  /** Most nodes polled before the search gives up. */
  const SEARCH_LIMIT: nat := 2000
  const CARDINAL_COST: int := 10
  const DIAGONAL_COST: int := 14

  /** A grid coordinate, the waypoint type of a path. */
  datatype Pos = Pos(x: int, y: int)

  /** An entry of the open set: a position with its cost so far and heuristic estimate. */
  datatype Node = Node(x: int, y: int, cost: int, heuristic: int)
  {
    function Total(): int { cost + heuristic }
    function At(): Pos { Pos(x, y) }
  }

  /** The eight directions, in the order the search tries them. */
  const Dirs: seq<(int, int)> := [(1, 0), (-1, 0), (0, 1), (0, -1), (1, 1), (-1, 1), (1, -1), (-1, -1)]

  /** Each direction is a move to one of the eight neighbours. */
  lemma DirsAreMoves(k: int)
    requires 0 <= k < |Dirs|
    ensures -1 <= Dirs[k].0 <= 1 && -1 <= Dirs[k].1 <= 1 && (Dirs[k].0 != 0 || Dirs[k].1 != 0)
  {
  }

  function Abs(n: int): int { if n < 0 then -n else n }

  function MaxInt(a: int, b: int): int { if a >= b then a else b }

  /** Ten times the Chebyshev distance from (x, y) to the goal. */
  function Heuristic(x: int, y: int, gx: int, gy: int): (h: int)
    ensures h >= 0
    ensures h == 0 <==> x == gx && y == gy
    ensures h % 10 == 0
  {
    10 * MaxInt(Abs(x - gx), Abs(y - gy))
  }

  /** Cost of one move by (dx, dy). */
  function MoveCost(dx: int, dy: int): int
  {
    if dx != 0 && dy != 0 then DIAGONAL_COST else CARDINAL_COST
  }

  /**
   * The heuristic never overestimates a single move: it drops by at most
   * the move's cost, so it is consistent and, summed along any path,
   * admissible.
   */
  lemma HeuristicConsistent(x: int, y: int, dx: int, dy: int, gx: int, gy: int)
    requires -1 <= dx <= 1 && -1 <= dy <= 1 && (dx != 0 || dy != 0)
    ensures Heuristic(x, y, gx, gy) <= MoveCost(dx, dy) + Heuristic(x + dx, y + dy, gx, gy)
    ensures Heuristic(x + dx, y + dy, gx, gy) <= MoveCost(dx, dy) + Heuristic(x, y, gx, gy)
  {
  }

  const TWO_32: int := 0x1_0000_0000
  const MIN_INT32: int := -0x8000_0000
  const MAX_INT32: int := 0x7FFF_FFFF

  predicate IsInt32(n: int) { MIN_INT32 <= n <= MAX_INT32 }

  /**
   * The 64-bit map key of (x, y): x in the high word, the low 32 bits of
   * y in the low word. As a mathematical integer this is x * 2^32 plus y
   * taken modulo 2^32.
   */
  function Key(x: int, y: int): (k: int)
    requires IsInt32(x) && IsInt32(y)
    ensures -0x8000_0000_0000_0000 <= k < 0x8000_0000_0000_0000
  {
    x * TWO_32 + (if y < 0 then y + TWO_32 else y)
  }

  /** Distinct 32-bit coordinate pairs get distinct keys, so keying by Key is keying by position. */
  lemma KeyInjective(x1: int, y1: int, x2: int, y2: int)
    requires IsInt32(x1) && IsInt32(y1) && IsInt32(x2) && IsInt32(y2)
    ensures Key(x1, y1) == Key(x2, y2) <==> x1 == x2 && y1 == y2
  {
    var r1 := if y1 < 0 then y1 + TWO_32 else y1;
    var r2 := if y2 < 0 then y2 + TWO_32 else y2;
    if x1 < x2 {
      assert x1 * TWO_32 + TWO_32 <= x2 * TWO_32;
    } else if x2 < x1 {
      assert x2 * TWO_32 + TWO_32 <= x1 * TWO_32;
    }
  }

  /**
   * A legal move from p to q: to one of the eight neighbours, and a
   * diagonal move only when both orthogonal corner tiles are passable.
   */
  predicate Step(world: World, p: Pos, q: Pos)
    requires world.Valid()
  {
    var dx := q.x - p.x;
    var dy := q.y - p.y;
    && -1 <= dx <= 1 && -1 <= dy <= 1 && (dx != 0 || dy != 0)
    && (dx != 0 && dy != 0 ==> world.IsPassable(p.x + dx, p.y) && world.IsPassable(p.x, p.y + dy))
  }

  /**
   * A path from start to goal as the search returns it: every waypoint
   * passable, each waypoint one legal move from the one before (the first
   * from the start), ending at the goal and never visiting the start.
   */
  predicate ValidPath(world: World, start: Pos, goal: Pos, path: seq<Pos>)
    requires world.Valid()
  {
    && path != []
    && path[|path| - 1] == goal
    && start !in path
    && (forall i :: 0 <= i < |path| ==> world.IsPassable(path[i].x, path[i].y))
    && Step(world, start, path[0])
    && (forall i :: 0 < i < |path| ==> Step(world, path[i - 1], path[i]))
  }

  /** Every recorded parent has a strictly smaller non-negative rank than its child. */
  predicate RankedParents(cameFrom: map<Pos, Pos>, rank: map<Pos, int>)
  {
    forall p :: p in cameFrom ==>
      p in rank && cameFrom[p] in rank && 0 <= rank[cameFrom[p]] < rank[p]
  }

  /** Each waypoint's recorded parent is the one before it, the first one's is the start. */
  predicate Linked(cameFrom: map<Pos, Pos>, start: Pos, path: seq<Pos>)
  {
    && (path != [] ==> path[0] in cameFrom && cameFrom[path[0]] == start)
    && (forall i :: 0 < i < |path| ==> path[i] in cameFrom && cameFrom[path[i]] == path[i - 1])
  }

  function RankOf(rank: map<Pos, int>, p: Pos): nat
  {
    if p in rank && rank[p] >= 0 then rank[p] + 1 else 0
  }

  /**
   * The chain of parents from cur back to start, start excluded and cur
   * last; None when some position on the way has no parent.
   */
  function ParentChain(cameFrom: map<Pos, Pos>, rank: map<Pos, int>, cur: Pos, start: Pos): (r: Option<seq<Pos>>)
    requires RankedParents(cameFrom, rank)
    ensures cur == start ==> r == Some([])
    ensures r.Some? && cur != start ==> r.value != [] && r.value[|r.value| - 1] == cur
    ensures r.Some? ==> start !in r.value && Linked(cameFrom, start, r.value)
    ensures r.Some? ==> forall p :: p in r.value ==> p in cameFrom
    decreases RankOf(rank, cur)
  {
    if cur == start then Some([])
    else if cur !in cameFrom then None
    else
      match ParentChain(cameFrom, rank, cameFrom[cur], start)
      case None => None
      case Some(p) => Some(p + [cur])
  }

  /** When every parent is the start or has a parent itself, the chain from any recorded position reaches the start. */
  lemma {:induction false} ParentChainComplete(cameFrom: map<Pos, Pos>, rank: map<Pos, int>, cur: Pos, start: Pos)
    requires RankedParents(cameFrom, rank)
    requires forall p :: p in cameFrom ==> cameFrom[p] == start || cameFrom[p] in cameFrom
    requires cur == start || cur in cameFrom
    ensures ParentChain(cameFrom, rank, cur, start).Some?
    decreases RankOf(rank, cur)
  {
    if cur != start {
      ParentChainComplete(cameFrom, rank, cameFrom[cur], start);
    }
  }

  /**
   * Walks the parent map back from the goal, inserting each position at
   * the front, until the start; a position without a parent makes the
   * whole result empty. The rank only witnesses that the walk ends.
   */
  method ReconstructPath(cameFrom: map<Pos, Pos>, goal: Pos, start: Pos, ghost rank: map<Pos, int>)
    returns (path: seq<Pos>)
    requires RankedParents(cameFrom, rank)
    ensures ParentChain(cameFrom, rank, goal, start).Some? ==> path == ParentChain(cameFrom, rank, goal, start).value
    ensures ParentChain(cameFrom, rank, goal, start).None? ==> path == []
  {
    path := [];
    var cur := goal;
    match ParentChain(cameFrom, rank, goal, start) {
      case None =>
      case Some(p) => assert p + path == p;
    }
    while cur != start
      invariant ParentChain(cameFrom, rank, goal, start) ==
        match ParentChain(cameFrom, rank, cur, start)
        case None => None
        case Some(p) => Some(p + path)
      decreases RankOf(rank, cur)
    {
      path := [cur] + path;
      if cur !in cameFrom {
        return [];
      }
      assert ParentChain(cameFrom, rank, cur, start) ==
        match ParentChain(cameFrom, rank, cameFrom[cur], start)
        case None => None
        case Some(p) => Some(p + [cur]);
      cur := cameFrom[cur];
      match ParentChain(cameFrom, rank, cur, start)
      case None =>
      case Some(p) =>
        assert p + [path[0]] + path[1..] == p + path;
    }
  }

  /**
   * The search state: the start has cost 0 and no parent; costs are
   * non-negative; every other position with a cost has a parent, which
   * is one legal move away, has a cost itself and a strictly smaller one;
   * every recorded position is passable; every open node is at a
   * position with a cost no greater than the node's.
   */
  ghost predicate SearchInv(world: World, start: Pos, visited: map<Pos, int>, cameFrom: map<Pos, Pos>,
                            open: seq<Node>)
    requires world.Valid()
  {
    && start in visited && visited[start] == 0 && start !in cameFrom
    && (forall p :: p in visited ==> visited[p] >= 0 && (p == start || p in cameFrom))
    && (forall p :: p in cameFrom ==>
          && p in visited && cameFrom[p] in visited && visited[cameFrom[p]] < visited[p]
          && world.IsPassable(p.x, p.y) && Step(world, cameFrom[p], p))
    && (forall n :: n in open ==> n.At() in visited && visited[n.At()] <= n.cost)
  }

  /** Index of the first open node of least total, the one a poll takes. */
  function MinTotalIndex(open: seq<Node>): (i: nat)
    requires open != []
    ensures i < |open|
    ensures forall j :: 0 <= j < |open| ==> open[i].Total() <= open[j].Total()
    ensures forall j :: 0 <= j < i ==> open[i].Total() < open[j].Total()
  {
    if |open| == 1 then 0
    else
      var k := MinTotalIndex(open[1..]) + 1;
      if open[0].Total() <= open[k].Total() then 0 else k
  }

  /**
   * How an expansion of cur relates the state after to the state before:
   * recorded costs only fall; a position whose cost is new or lower has
   * cur as its parent, is one legal move from it and costs cur's cost
   * plus the move; the open set only grows, and each appended node is
   * such a position, queued with its new cost and its heuristic.
   */
  ghost predicate Relaxed(world: World, goal: Pos, cur: Node,
                          visited: map<Pos, int>, cameFrom: map<Pos, Pos>, open: seq<Node>,
                          visited': map<Pos, int>, cameFrom': map<Pos, Pos>, open': seq<Node>)
    requires world.Valid()
  {
    && (forall p :: p in visited ==> p in visited' && visited'[p] <= visited[p])
    && (forall p :: p in visited' && (p !in visited || visited'[p] < visited[p]) ==>
          p in cameFrom' && cameFrom'[p] == cur.At() && Step(world, cur.At(), p)
          && visited'[p] == cur.cost + MoveCost(p.x - cur.x, p.y - cur.y))
    && |open| <= |open'| && open'[..|open|] == open
    && (forall k :: |open| <= k < |open'| ==>
          && (open'[k].At() !in visited || open'[k].cost < visited[open'[k].At()])
          && Step(world, cur.At(), open'[k].At())
          && open'[k].cost == cur.cost + MoveCost(open'[k].x - cur.x, open'[k].y - cur.y)
          && open'[k].heuristic == Heuristic(open'[k].x, open'[k].y, goal.x, goal.y))
  }

  /** Recording one strictly cheaper neighbour extends an expansion. */
  lemma RelaxedStep(world: World, goal: Pos, cur: Node,
                    visited: map<Pos, int>, cameFrom: map<Pos, Pos>, open: seq<Node>,
                    visited': map<Pos, int>, cameFrom': map<Pos, Pos>, open': seq<Node>, np: Pos, newCost: int)
    requires world.Valid()
    requires Relaxed(world, goal, cur, visited, cameFrom, open, visited', cameFrom', open')
    requires Step(world, cur.At(), np) && newCost == cur.cost + MoveCost(np.x - cur.x, np.y - cur.y)
    requires !(np in visited' && visited'[np] <= newCost)
    ensures Relaxed(world, goal, cur, visited, cameFrom, open,
                    visited'[np := newCost], cameFrom'[np := cur.At()],
                    open' + [Node(np.x, np.y, newCost, Heuristic(np.x, np.y, goal.x, goal.y))])
  {
    var o2 := open' + [Node(np.x, np.y, newCost, Heuristic(np.x, np.y, goal.x, goal.y))];
    assert o2[..|open|] == open' [..|open|];
  }

  /**
   * Expands cur: for each of the eight directions, a passable neighbour
   * reached without cutting a corner is recorded with cur as its parent
   * and queued, but only when its new cost is strictly below the cost
   * recorded so far.
   */
  method Expand(world: World, start: Pos, goal: Pos, cur: Node,
                visited: map<Pos, int>, cameFrom: map<Pos, Pos>, open: seq<Node>)
    returns (visited': map<Pos, int>, cameFrom': map<Pos, Pos>, open': seq<Node>)
    requires world.Valid()
    requires SearchInv(world, start, visited, cameFrom, open)
    requires cur.At() in visited && visited[cur.At()] <= cur.cost
    ensures SearchInv(world, start, visited', cameFrom', open')
    ensures Relaxed(world, goal, cur, visited, cameFrom, open, visited', cameFrom', open')
  {
    visited', cameFrom', open' := visited, cameFrom, open;
    assert open'[..|open|] == open;
    for k := 0 to |Dirs|
      invariant SearchInv(world, start, visited', cameFrom', open')
      invariant cur.At() in visited' && visited'[cur.At()] <= cur.cost
      invariant Relaxed(world, goal, cur, visited, cameFrom, open, visited', cameFrom', open')
    {
      var (dx, dy) := Dirs[k];
      DirsAreMoves(k);
      var nx, ny := cur.x + dx, cur.y + dy;
      if !world.IsPassable(nx, ny) {
        continue;
      }
      if dx != 0 && dy != 0 {
        if !world.IsPassable(cur.x + dx, cur.y) {
          continue;
        }
        if !world.IsPassable(cur.x, cur.y + dy) {
          continue;
        }
      }
      var newCost := cur.cost + MoveCost(dx, dy);
      var np := Pos(nx, ny);
      if np in visited' && visited'[np] <= newCost {
        continue;
      }
      var node := Node(nx, ny, newCost, Heuristic(nx, ny, goal.x, goal.y));
      assert np.x - cur.x == dx && np.y - cur.y == dy;
      assert Step(world, cur.At(), np);
      RelaxKeepsInv(world, start, cur, np, node, visited', cameFrom', open');
      RelaxedStep(world, goal, cur, visited, cameFrom, open, visited', cameFrom', open', np, newCost);
      visited' := visited'[np := newCost];
      cameFrom' := cameFrom'[np := cur.At()];
      open' := open' + [node];
    }
  }

  /** Recording a strictly cheaper cost for a legal neighbour of cur keeps the search state. */
  lemma RelaxKeepsInv(world: World, start: Pos, cur: Node, np: Pos, node: Node,
                      visited: map<Pos, int>, cameFrom: map<Pos, Pos>, open: seq<Node>)
    requires world.Valid()
    requires SearchInv(world, start, visited, cameFrom, open)
    requires cur.At() in visited && visited[cur.At()] <= cur.cost
    requires world.IsPassable(np.x, np.y) && Step(world, cur.At(), np)
    requires node.At() == np && node.cost == cur.cost + MoveCost(np.x - cur.x, np.y - cur.y)
    requires !(np in visited && visited[np] <= node.cost)
    ensures np != start && np != cur.At()
    ensures SearchInv(world, start, visited[np := node.cost], cameFrom[np := cur.At()], open + [node])
  {
    var v', c', o' := visited[np := node.cost], cameFrom[np := cur.At()], open + [node];
    assert node.cost > cur.cost >= visited[cur.At()] >= 0;
    forall p | p in v' ensures v'[p] >= 0 && (p == start || p in c') {
    }
    forall p | p in c'
      ensures p in v' && c'[p] in v' && v'[c'[p]] < v'[p]
      ensures world.IsPassable(p.x, p.y) && Step(world, c'[p], p)
    {
      if p != np {
        assert p in cameFrom && cameFrom[p] in visited;
      }
    }
    forall n | n in o' ensures n.At() in v' && v'[n.At()] <= n.cost {
      if n !in open {
        assert n == node;
      }
    }
  }

  /**
   * Searches from start to goal. The result is empty when the goal is
   * impassable, when start and goal coincide, when the open set runs dry
   * and when 2000 nodes have been polled without reaching the goal;
   * otherwise it is a valid path to the goal. reached says whether the
   * goal was polled, and then the path is never empty.
   */
  method FindPath(world: World, start: Pos, goal: Pos) returns (path: seq<Pos>, ghost polled: nat, ghost reached: bool)
    requires world.Valid()
    ensures !world.IsPassable(goal.x, goal.y) ==> path == [] && !reached
    ensures start == goal ==> path == [] && !reached
    ensures polled <= SEARCH_LIMIT
    ensures path != [] <==> reached
    ensures path != [] ==> ValidPath(world, start, goal, path)
  {
    polled, reached := 0, false;
    if !world.IsPassable(goal.x, goal.y) {
      return [], polled, reached;
    }
    if start == goal {
      return [], polled, reached;
    }
    var open := [Node(start.x, start.y, 0, Heuristic(start.x, start.y, goal.x, goal.y))];
    var visited := map[start := 0];
    var cameFrom: map<Pos, Pos> := map[];
    var searched := 0;
    while open != [] && searched < SEARCH_LIMIT
      invariant SearchInv(world, start, visited, cameFrom, open)
      invariant 0 <= searched <= SEARCH_LIMIT
      decreases SEARCH_LIMIT - searched
    {
      searched := searched + 1;
      var i := MinTotalIndex(open);
      var cur := open[i];
      open := open[..i] + open[i + 1..];
      if cur.x == goal.x && cur.y == goal.y {
        path := ReconstructPath(cameFrom, goal, start, visited);
        FoundPathValid(world, start, goal, visited, cameFrom, open, path);
        return path, searched, true;
      }
      visited, cameFrom, open := Expand(world, start, goal, cur, visited, cameFrom, open);
    }
    return [], searched, reached;
  }

  /** Rebuilding the path to a goal that has a cost yields a valid, non-empty path. */
  lemma FoundPathValid(world: World, start: Pos, goal: Pos, visited: map<Pos, int>, cameFrom: map<Pos, Pos>,
                       open: seq<Node>, path: seq<Pos>)
    requires world.Valid()
    requires SearchInv(world, start, visited, cameFrom, open)
    requires goal in visited && goal != start
    requires RankedParents(cameFrom, visited)
    requires ParentChain(cameFrom, visited, goal, start).Some? ==> path == ParentChain(cameFrom, visited, goal, start).value
    requires ParentChain(cameFrom, visited, goal, start).None? ==> path == []
    ensures ParentChain(cameFrom, visited, goal, start).Some?
    ensures ValidPath(world, start, goal, path)
  {
    ParentChainComplete(cameFrom, visited, goal, start);
  }
}
