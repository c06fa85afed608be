/**
  The breadth-first search of `Dsa/snake.py` for the least number of dice throws
  that takes a token from cell 0 to cell `n - 1`. A throw `d` (1 to 6) from cell `c`
  lands on `c + d` when that is on the board; a snake or ladder there (`board[t] != -1`)
  moves the token on to `board[t]`. Throws that would leave the board are not moves.

  The deque is modelled as the sequence of every entry ever appended plus the index
  of its front, so a `popleft` advances the index.
*/
module SnakesAndLadders {
  import opened Options
  import opened Sets

  /** Every snake or ladder leads to a cell of the board. */
  predicate ValidBoard(board: seq<int>) {
    forall t :: 0 <= t < |board| ==> board[t] == -1 || 0 <= board[t] < |board|
  }

  /** Where a token that lands on `t` ends up. */
  function Dest(board: seq<int>, t: int): (r: int)
    requires 0 <= t < |board|
    ensures ValidBoard(board) ==> 0 <= r < |board|
    ensures board[t] == -1 ==> r == t
  {
    if board[t] != -1 then board[t] else t
  }

  /** The move rule: throw `d` from cell `c`. */
  function Step(board: seq<int>, c: int, d: int): (r: Option<int>)
    ensures r.Some? <==> 1 <= d <= 6 && 0 <= c + d < |board|
    ensures r.Some? ==> r.value == Dest(board, c + d)
  {
    if d < 1 || d > 6 || c + d < 0 || c + d >= |board| then None
    else Some(Dest(board, c + d))
  }

  /**
    The entries that throws `1 .. k` from entry `(cell, dist)` append, in die order:
    one per throw that lands on an unmarked cell of the board, holding the cell the
    token ends up on and `dist + 1`.
  */
  function Appended(board: seq<int>, visited: seq<bool>, cell: int, dist: nat, k: int): seq<(int, nat)>
    requires |visited| == |board|
    decreases k
  {
    if k <= 0 then []
    else
      var t := cell + k;
      Appended(board, visited, cell, dist, k - 1)
      + if 0 <= t < |board| && !visited[t] then [(Dest(board, t), dist + 1)] else []
  }

  /** `visited` once throws `1 .. k` from `cell` have marked the cells they land on. */
  function MarkedAfter(visited: seq<bool>, cell: int, k: int): (r: seq<bool>)
    ensures |r| == |visited|
    decreases k
  {
    if k <= 0 then visited
    else
      var t := cell + k;
      var v := MarkedAfter(visited, cell, k - 1);
      if 0 <= t < |visited| then v[t := true] else v
  }

  /** The throws `1 .. k` append at most `k` entries, each one throw further on. */
  lemma {:induction false} AppendedShape(board: seq<int>, visited: seq<bool>, cell: int, dist: nat, k: int)
    requires |visited| == |board|
    ensures var r := Appended(board, visited, cell, dist, k);
            |r| <= (if k < 0 then 0 else k) && forall j :: 0 <= j < |r| ==> r[j].1 == dist + 1
    decreases k
  {
    if k > 0 {
      AppendedShape(board, visited, cell, dist, k - 1);
    }
  }

  /** After throws `1 .. k` a cell is marked iff it was marked before or lies in `cell+1 .. cell+k`. */
  lemma {:induction false} MarkedAfterAt(visited: seq<bool>, cell: int, k: int, t: int)
    requires 0 <= t < |visited|
    ensures MarkedAfter(visited, cell, k)[t] == (visited[t] || cell < t <= cell + k)
    decreases k
  {
    if k > 0 {
      MarkedAfterAt(visited, cell, k - 1, t);
    }
  }

  /**
    Throw `dice` lands on an unmarked cell exactly when it lands on a cell the earlier
    throws did not mark: it then appends one entry and marks one cell, otherwise nothing.
  */
  lemma ThrowStep(board: seq<int>, before: seq<bool>, cell: int, dist: nat, dice: int)
    requires |before| == |board| && 0 <= cell && 1 <= dice <= 6
    ensures var v := MarkedAfter(before, cell, dice - 1);
            var t := cell + dice;
            if t < |board| && !v[t] then
              MarkedAfter(before, cell, dice) == v[t := true]
              && Appended(board, before, cell, dist, dice) == Appended(board, before, cell, dist, dice - 1) + [(Dest(board, t), dist + 1)]
            else
              MarkedAfter(before, cell, dice) == v
              && Appended(board, before, cell, dist, dice) == Appended(board, before, cell, dist, dice - 1)
  {
    var v := MarkedAfter(before, cell, dice - 1);
    var t := cell + dice;
    if t < |board| {
      MarkedAfterAt(before, cell, dice - 1, t);
      assert v[t] == before[t];
      if v[t] {
        assert v[t := true] == v;
      }
    }
  }

  /** Where a sequence of throws from cell 0 leads, if every throw is a move. */
  function Walk(board: seq<int>, throws: seq<int>): Option<int> {
    if throws == [] then Some(0)
    else match Walk(board, throws[..|throws| - 1])
      case None => None
      case Some(p) => Step(board, p, throws[|throws| - 1])
  }

  /** Cell `c` can be reached with exactly `k` throws. */
  ghost predicate ReachableIn(board: seq<int>, c: int, k: nat) {
    exists throws: seq<int> :: |throws| == k && Walk(board, throws) == Some(c)
  }

  /** The last cell can be reached with exactly `k` throws. */
  ghost predicate FinishIn(board: seq<int>, k: nat) {
    |board| >= 1 && ReachableIn(board, |board| - 1, k)
  }

  /** A walk on a valid board stays on the board. */
  lemma {:induction false} WalkStaysOnBoard(board: seq<int>, throws: seq<int>)
    requires ValidBoard(board) && |board| >= 1
    ensures Walk(board, throws).Some? ==> 0 <= Walk(board, throws).value < |board|
  {
    if throws != [] {
      WalkStaysOnBoard(board, throws[..|throws| - 1]);
    }
  }

  /** One more throw extends a walk. */
  lemma WalkExtend(board: seq<int>, throws: seq<int>, p: int, d: int)
    requires Walk(board, throws) == Some(p)
    ensures Walk(board, throws + [d]) == Step(board, p, d)
  {
    assert (throws + [d])[..|throws|] == throws;
  }

  /** The pending state the search keeps between throws. */

  /** Every queued cell is on the board. */
  predicate OnBoard(n: int, queue: seq<(int, nat)>) {
    forall j :: 0 <= j < |queue| ==> 0 <= queue[j].0 < n
  }

  /** Each queued entry `(c, k)` is witnessed by a walk of `k` throws ending at `c`. */
  ghost predicate Witnessed(board: seq<int>, queue: seq<(int, nat)>, paths: seq<seq<int>>) {
    |paths| == |queue|
    && forall j :: 0 <= j < |queue| ==> |paths[j]| == queue[j].1 && Walk(board, paths[j]) == Some(queue[j].0)
  }

  /** Distances never decrease along the queue: breadth-first order. */
  predicate Monotone(queue: seq<(int, nat)>) {
    forall i, j :: 0 <= i <= j < |queue| ==> queue[i].1 <= queue[j].1
  }

  /** Entries not yet taken are at most one throw further than the last entry taken. */
  predicate Spread(queue: seq<(int, nat)>, head: int) {
    0 < head <= |queue| ==> forall j :: head <= j < |queue| ==> queue[j].1 <= queue[head - 1].1 + 1
  }

  /**
    `via` maps every marked landing cell other than 0 to the queue entry it produced;
    `visited` is exactly cell 0 and those cells.
  */
  ghost predicate Marked(n: int, visited: seq<bool>, via: map<int, nat>) {
    |visited| == n && n >= 1 && visited[0]
    && (forall t :: 0 < t < n ==> (visited[t] <==> t in via))
    && (forall t :: t in via ==> 0 < t < n)
  }

  /** The entry produced by landing on `t` holds the cell the token ends up on. */
  ghost predicate Landing(board: seq<int>, queue: seq<(int, nat)>, via: map<int, nat>) {
    forall t :: t in via ==> 0 <= t < |board| && via[t] < |queue| && queue[via[t]].0 == Dest(board, t)
  }

  /** Throw `d` from entry `i` has been explored: its cell is queued no further than one throw on. */
  ghost predicate Covered(board: seq<int>, queue: seq<(int, nat)>, via: map<int, nat>, i: int, d: int) {
    0 <= i < |queue| && 0 <= queue[i].0 ==>
      var t := queue[i].0 + d;
      t < |board| ==> t in via && via[t] < |queue| && queue[via[t]].1 <= queue[i].1 + 1
  }

  /** The throws `1 .. dice-1` from entry `i` have been explored. */
  ghost predicate ExploredBelow(board: seq<int>, queue: seq<(int, nat)>, via: map<int, nat>, i: int, dice: int) {
    forall d :: 1 <= d < dice ==> Covered(board, queue, via, i, d)
  }

  /** Every throw from the entries before `h` has been explored. */
  ghost predicate Closed(board: seq<int>, queue: seq<(int, nat)>, via: map<int, nat>, h: int) {
    forall i, d :: 0 <= i < h && 1 <= d <= 6 ==> Covered(board, queue, via, i, d)
  }

  /** The search invariant at the top of the outer loop. */
  ghost predicate Searching(board: seq<int>, visited: seq<bool>, queue: seq<(int, nat)>, head: int,
                            paths: seq<seq<int>>, via: map<int, nat>)
  {
    var n := |board|;
    ValidBoard(board) && Marked(n, visited, via)
    && |queue| >= 1 && queue[0] == (0, 0) && 0 <= head <= |queue| && (head == 0 ==> |queue| == 1)
    && |queue| == 1 + |via.Keys|
    && OnBoard(n, queue) && Witnessed(board, queue, paths) && Monotone(queue) && Spread(queue, head)
    && Landing(board, queue, via) && Closed(board, queue, via, head)
    && (forall j :: 0 <= j < head ==> queue[j].0 != n - 1)
  }

  /** Marked cells are a subset of `1 .. n-1`, so at most `n` entries are ever queued. */
  lemma QueueBound(n: int, visited: seq<bool>, via: map<int, nat>)
    requires Marked(n, visited, via)
    ensures |via.Keys| <= n - 1
  {
    assert via.Keys <= Between(1, n);
    SubsetSize(via.Keys, Between(1, n));
  }

  /**
    Completeness of the queue: once every entry closer than `|throws|` has been explored,
    the end of any walk is queued at a distance no greater than the walk's length.
  */
  lemma {:induction false} QueuedWithin(board: seq<int>, queue: seq<(int, nat)>, h: int, via: map<int, nat>,
                                        throws: seq<int>, c: int)
    requires |queue| >= 1 && queue[0] == (0, 0) && h <= |queue|
    requires OnBoard(|board|, queue)
    requires Landing(board, queue, via) && Closed(board, queue, via, h)
    requires forall j :: 0 <= j < |queue| && queue[j].1 < |throws| ==> j < h
    requires Walk(board, throws) == Some(c)
    ensures exists j :: 0 <= j < |queue| && queue[j].0 == c && queue[j].1 <= |throws|
  {
    if throws == [] {
      assert queue[0].0 == c;
    } else {
      var pre := throws[..|throws| - 1];
      var d := throws[|throws| - 1];
      var p := Walk(board, pre).value;
      QueuedWithin(board, queue, h, via, pre, p);
      var j :| 0 <= j < |queue| && queue[j].0 == p && queue[j].1 <= |pre|;
      assert Covered(board, queue, via, j, d);
      assert queue[via[p + d]].0 == c;
    }
  }

  /** Appending an entry for a newly marked cell keeps every explored throw explored. */
  lemma AppendKeepsClosed(board: seq<int>, queue: seq<(int, nat)>, via: map<int, nat>, h: int,
                          e: (int, nat), t: int)
    requires t !in via && 0 <= h <= |queue|
    requires Closed(board, queue, via, h)
    ensures Closed(board, queue + [e], via[t := |queue|], h)
  {
    var q := queue + [e];
    var v := via[t := |queue|];
    forall i, d | 0 <= i < h && 1 <= d <= 6
      ensures Covered(board, q, v, i, d)
    {
      assert Covered(board, queue, via, i, d);
      if 0 <= queue[i].0 && queue[i].0 + d < |board| {
        var s := queue[i].0 + d;
        assert s in via && s != t;
        assert q[v[s]] == queue[via[s]];
      }
    }
  }

  /** The same for the throws already explored from the entry being expanded. */
  lemma AppendKeepsCovered(board: seq<int>, queue: seq<(int, nat)>, via: map<int, nat>, i: int, dice: int,
                           e: (int, nat), t: int)
    requires t !in via && 0 <= i < |queue|
    requires ExploredBelow(board, queue, via, i, dice)
    ensures ExploredBelow(board, queue + [e], via[t := |queue|], i, dice)
  {
    var q := queue + [e];
    var v := via[t := |queue|];
    forall d | 1 <= d < dice
      ensures Covered(board, q, v, i, d)
    {
      assert Covered(board, queue, via, i, d);
      if 0 <= queue[i].0 && queue[i].0 + d < |board| {
        var s := queue[i].0 + d;
        assert q[v[s]] == queue[via[s]];
      }
    }
  }

  /**
    `min_dice_throws`: the least number of throws that reaches cell `n - 1`, or -1
    when no sequence of throws reaches it.
  */
  method MinDiceThrows(board: seq<int>, n: int) returns (throws: int)
    requires n >= 1 && |board| == n
    requires ValidBoard(board)
    ensures throws >= -1
    ensures throws >= 0 ==> FinishIn(board, throws)
    ensures throws >= 0 ==> forall k: nat :: k < throws ==> !FinishIn(board, k)
    ensures throws == -1 ==> forall k: nat :: !FinishIn(board, k)
  {
    var visited := new bool[n](_ => false);
    visited[0] := true;
    var queue: seq<(int, nat)> := [(0, 0)];
    var head := 0;
    ghost var paths: seq<seq<int>> := [[]];
    ghost var via: map<int, nat> := map[];
    while head < |queue|
      invariant Searching(board, visited[..], queue, head, paths, via)
      decreases n - head
    {
      QueueBound(n, visited[..], via);
      var cell := queue[head].0;
      var dist := queue[head].1;
      if cell == n - 1 {
        Found(board, visited[..], queue, head, paths, via);
        return dist;
      }
      head := head + 1;
      StartExpanding(board, visited[..], queue, head, paths, via);
      queue, paths, via := ThrowDice(board, visited, queue, head, paths, via);
    }
    NotFound(board, visited[..], queue, head, paths, via);
    return -1;
  }

  /**
    The `for dice in range(1, 7)` loop of `min_dice_throws` for the entry just taken
    from the front: each throw that lands on an unmarked cell marks it and queues
    where the token ends up, one throw further on.
  */
  method ThrowDice(board: seq<int>, visited: array<bool>, queue: seq<(int, nat)>, head: int,
                   ghost paths: seq<seq<int>>, ghost via: map<int, nat>)
    returns (queue': seq<(int, nat)>, ghost paths': seq<seq<int>>, ghost via': map<int, nat>)
    requires Expanding(board, visited[..], queue, head, paths, via, 1)
    modifies visited
    ensures queue' == queue + Appended(board, old(visited[..]), queue[head - 1].0, queue[head - 1].1, 6)
    ensures visited[..] == MarkedAfter(old(visited[..]), queue[head - 1].0, 6)
    ensures Searching(board, visited[..], queue', head, paths', via')
  {
    var cell := queue[head - 1].0;
    var dist := queue[head - 1].1;
    ghost var before := visited[..];
    queue', paths', via' := queue, paths, via;
    assert queue + Appended(board, before, cell, dist, 0) == queue;
    var dice := 1;
    while dice <= 6
      invariant Expanding(board, visited[..], queue', head, paths', via', dice)
      invariant 1 <= dice <= 7 && queue'[head - 1] == (cell, dist)
      invariant queue' == queue + Appended(board, before, cell, dist, dice - 1)
      invariant visited[..] == MarkedAfter(before, cell, dice - 1)
    {
      queue', paths', via' := Throw(board, visited, queue', head, paths', via', dice, before, queue);
      assert queue'[head - 1] == queue[head - 1];
      dice := dice + 1;
    }
    FinishExpanding(board, visited[..], queue', head, paths', via');
  }

  /**
    The body of the `for dice` loop: throw `dice` from the entry being expanded appends
    and marks what `Appended` and `MarkedAfter` say for one more throw.
  */
  method Throw(board: seq<int>, visited: array<bool>, queue: seq<(int, nat)>, head: int,
               ghost paths: seq<seq<int>>, ghost via: map<int, nat>, dice: int,
               ghost before: seq<bool>, ghost base: seq<(int, nat)>)
    returns (queue': seq<(int, nat)>, ghost paths': seq<seq<int>>, ghost via': map<int, nat>)
    requires 1 <= dice <= 6 && Expanding(board, visited[..], queue, head, paths, via, dice)
    requires |before| == |board| && visited[..] == MarkedAfter(before, queue[head - 1].0, dice - 1)
    requires queue == base + Appended(board, before, queue[head - 1].0, queue[head - 1].1, dice - 1)
    modifies visited
    ensures queue' == base + Appended(board, before, queue[head - 1].0, queue[head - 1].1, dice)
    ensures visited[..] == MarkedAfter(before, queue[head - 1].0, dice)
    ensures Expanding(board, visited[..], queue', head, paths', via', dice + 1)
  {
    var cell := queue[head - 1].0;
    var dist := queue[head - 1].1;
    var next := cell + dice;
    ghost var marks := visited[..];
    ghost var earlier := Appended(board, before, cell, dist, dice - 1);
    ThrowStep(board, before, cell, dist, dice);
    if next < |board| && !visited[next] {
      queue', paths', via' := Land(board, visited, queue, head, paths, via, dice);
      ghost var entry := (Dest(board, next), dist + 1);
      assert queue' == (base + earlier) + [entry];
      assert base + Appended(board, before, cell, dist, dice) == base + (earlier + [entry]);
      assert visited[..] == marks[next := true];
    } else {
      queue', paths', via' := queue, paths, via;
      ExpandSeen(board, visited[..], queue, head, paths, via, dice);
    }
  }

  /**
    The body of the `for dice` loop when throw `dice` lands on an unmarked cell: the cell
    is marked and the cell the token ends up on is queued one throw further on.
  */
  method Land(board: seq<int>, visited: array<bool>, queue: seq<(int, nat)>, head: int,
              ghost paths: seq<seq<int>>, ghost via: map<int, nat>, dice: int)
    returns (queue': seq<(int, nat)>, ghost paths': seq<seq<int>>, ghost via': map<int, nat>)
    requires 1 <= dice <= 6 && Expanding(board, visited[..], queue, head, paths, via, dice)
    requires queue[head - 1].0 + dice < |board| && !visited[queue[head - 1].0 + dice]
    modifies visited
    ensures queue' == queue + [(Dest(board, queue[head - 1].0 + dice), queue[head - 1].1 + 1)]
    ensures visited[..] == old(visited[..])[queue[head - 1].0 + dice := true]
    ensures Expanding(board, visited[..], queue', head, paths', via', dice + 1)
  {
    var next := queue[head - 1].0 + dice;
    ghost var before := visited[..];
    visited[next] := true;
    var entry: (int, nat) := if board[next] != -1 then (board[next], queue[head - 1].1 + 1) else (next, queue[head - 1].1 + 1);
    assert visited[..] == before[next := true];
    ExpandNew(board, before, queue, head, paths, via, dice, entry);
    paths' := paths + [paths[head - 1] + [dice]];
    via' := via[next := |queue|];
    queue' := queue + [entry];
  }

  /** The invariant while the throws `1 .. dice-1` of entry `head - 1` have been explored. */
  ghost predicate Expanding(board: seq<int>, visited: seq<bool>, queue: seq<(int, nat)>, head: int,
                            paths: seq<seq<int>>, via: map<int, nat>, dice: int)
  {
    var n := |board|;
    ValidBoard(board) && Marked(n, visited, via)
    && |queue| >= 1 && queue[0] == (0, 0) && 1 <= head <= |queue|
    && |queue| == 1 + |via.Keys|
    && OnBoard(n, queue) && Witnessed(board, queue, paths) && Monotone(queue) && Spread(queue, head)
    && Landing(board, queue, via) && Closed(board, queue, via, head - 1)
    && ExploredBelow(board, queue, via, head - 1, dice)
    && (forall j :: 0 <= j < head ==> queue[j].0 != n - 1)
  }

  /** Taking the front entry, which is not the last cell, starts its expansion. */
  lemma StartExpanding(board: seq<int>, visited: seq<bool>, queue: seq<(int, nat)>, head: int,
                       paths: seq<seq<int>>, via: map<int, nat>)
    requires 1 <= head <= |queue| && queue[head - 1].0 != |board| - 1
    requires Searching(board, visited, queue, head - 1, paths, via)
    ensures Expanding(board, visited, queue, head, paths, via, 1)
  {
    forall j | head <= j < |queue|
      ensures queue[j].1 <= queue[head - 1].1 + 1
    {
      if head >= 2 {
        assert queue[head - 2].1 <= queue[head - 1].1;
      }
    }
  }

  /** Throw `dice` lands on an unmarked cell: it is marked and its destination queued one throw on. */
  lemma ExpandNew(board: seq<int>, visited: seq<bool>, queue: seq<(int, nat)>, head: int,
                  paths: seq<seq<int>>, via: map<int, nat>, dice: int, entry: (int, nat))
    requires 1 <= dice <= 6 && Expanding(board, visited, queue, head, paths, via, dice)
    requires queue[head - 1].0 + dice < |board| && !visited[queue[head - 1].0 + dice]
    requires entry == (Dest(board, queue[head - 1].0 + dice), queue[head - 1].1 + 1)
    ensures var next := queue[head - 1].0 + dice;
            Expanding(board, visited[next := true], queue + [entry], head,
                      paths + [paths[head - 1] + [dice]], via[next := |queue|], dice + 1)
  {
    var (cell, dist) := queue[head - 1];
    var next := cell + dice;
    var q := queue + [entry];
    var v := via[next := |queue|];
    var p := paths + [paths[head - 1] + [dice]];
    ExpandNewMarks(board, visited, queue, via, next);
    ExpandNewWitnessed(board, queue, head, paths, dice, entry);
    ExpandNewOrder(queue, head, entry);
    ExpandNewLanding(board, queue, via, next, entry);
    AppendKeepsClosed(board, queue, via, head - 1, entry, next);
    ExpandNewExplored(board, queue, via, head - 1, dice, entry, next);
    assert forall j :: 0 <= j < head ==> q[j].0 != |board| - 1;
  }

  /** The throw just explored joins the explored throws of the entry being expanded. */
  lemma ExpandNewExplored(board: seq<int>, queue: seq<(int, nat)>, via: map<int, nat>, i: int, dice: int,
                          e: (int, nat), t: int)
    requires t !in via && 0 <= i < |queue| && 0 <= queue[i].0 && t == queue[i].0 + dice < |board|
    requires e.1 == queue[i].1 + 1
    requires ExploredBelow(board, queue, via, i, dice)
    ensures ExploredBelow(board, queue + [e], via[t := |queue|], i, dice + 1)
  {
    AppendKeepsCovered(board, queue, via, i, dice, e, t);
    assert Covered(board, queue + [e], via[t := |queue|], i, dice);
  }

  lemma ExpandNewMarks(board: seq<int>, visited: seq<bool>, queue: seq<(int, nat)>, via: map<int, nat>, next: int)
    requires Marked(|board|, visited, via) && |queue| == 1 + |via.Keys|
    requires 0 < next < |board| && !visited[next]
    ensures Marked(|board|, visited[next := true], via[next := |queue|])
    ensures |via[next := |queue|].Keys| == |via.Keys| + 1
  {
    assert via[next := |queue|].Keys == via.Keys + {next};
  }

  lemma ExpandNewWitnessed(board: seq<int>, queue: seq<(int, nat)>, head: int, paths: seq<seq<int>>,
                           dice: int, entry: (int, nat))
    requires 1 <= head <= |queue| && 1 <= dice <= 6 && Witnessed(board, queue, paths)
    requires 0 <= queue[head - 1].0 && queue[head - 1].0 + dice < |board|
    requires entry == (Dest(board, queue[head - 1].0 + dice), queue[head - 1].1 + 1)
    ensures Witnessed(board, queue + [entry], paths + [paths[head - 1] + [dice]])
  {
    WalkExtend(board, paths[head - 1], queue[head - 1].0, dice);
  }

  lemma ExpandNewOrder(queue: seq<(int, nat)>, head: int, entry: (int, nat))
    requires 1 <= head <= |queue| && Monotone(queue) && Spread(queue, head)
    requires entry.1 == queue[head - 1].1 + 1
    ensures Monotone(queue + [entry]) && Spread(queue + [entry], head)
  {
    var q := queue + [entry];
    forall i, j | 0 <= i <= j < |q|
      ensures q[i].1 <= q[j].1
    {
      if j == |queue| && head <= i < |queue| {
        assert queue[i].1 <= entry.1;
      } else if j == |queue| && i < head {
        assert queue[i].1 <= queue[head - 1].1;
      }
    }
  }

  lemma ExpandNewLanding(board: seq<int>, queue: seq<(int, nat)>, via: map<int, nat>, next: int, entry: (int, nat))
    requires Landing(board, queue, via) && 0 <= next < |board| && entry.0 == Dest(board, next)
    ensures Landing(board, queue + [entry], via[next := |queue|])
  {
    var q := queue + [entry];
    forall t | t in via[next := |queue|]
      ensures via[next := |queue|][t] < |q| && q[via[next := |queue|][t]].0 == Dest(board, t)
    {
      if t != next {
        assert q[via[t]] == queue[via[t]];
      }
    }
  }

  /** Throw `dice` leaves the board or lands on a marked cell: nothing is queued. */
  lemma ExpandSeen(board: seq<int>, visited: seq<bool>, queue: seq<(int, nat)>, head: int,
                   paths: seq<seq<int>>, via: map<int, nat>, dice: int)
    requires 1 <= dice <= 6 && Expanding(board, visited, queue, head, paths, via, dice)
    requires queue[head - 1].0 + dice < |board| ==> visited[queue[head - 1].0 + dice]
    ensures Expanding(board, visited, queue, head, paths, via, dice + 1)
  {
    var next := queue[head - 1].0 + dice;
    if next < |board| {
      assert next in via;
      if via[next] < head {
        assert queue[via[next]].1 <= queue[head - 1].1;
      }
    }
    assert Covered(board, queue, via, head - 1, dice);
  }

  /** All six throws explored: the entry joins the explored part of the queue. */
  lemma FinishExpanding(board: seq<int>, visited: seq<bool>, queue: seq<(int, nat)>, head: int,
                        paths: seq<seq<int>>, via: map<int, nat>)
    requires Expanding(board, visited, queue, head, paths, via, 7)
    ensures Searching(board, visited, queue, head, paths, via)
  {
    forall i, d | 0 <= i < head && 1 <= d <= 6
      ensures Covered(board, queue, via, i, d)
    {
      if i < head - 1 {
        assert Closed(board, queue, via, head - 1);
      }
    }
  }

  /** The cell at the front is the last cell: its distance is the least number of throws. */
  lemma Found(board: seq<int>, visited: seq<bool>, queue: seq<(int, nat)>, head: int, paths: seq<seq<int>>,
               via: map<int, nat>)
    requires Searching(board, visited, queue, head, paths, via)
    requires head < |queue| && queue[head].0 == |board| - 1
    ensures FinishIn(board, queue[head].1)
    ensures forall k: nat :: k < queue[head].1 ==> !FinishIn(board, k)
  {
    assert |paths[head]| == queue[head].1 && Walk(board, paths[head]) == Some(queue[head].0);
    forall k: nat | k < queue[head].1
      ensures !FinishIn(board, k)
    {
      if FinishIn(board, k) {
        var throws: seq<int> :| |throws| == k && Walk(board, throws) == Some(|board| - 1);
        assert forall j :: 0 <= j < |queue| && queue[j].1 < k ==> j < head by {
          forall j | 0 <= j < |queue| && queue[j].1 < k
            ensures j < head
          {
            assert queue[j].1 < queue[head].1;
          }
        }
        QueuedWithin(board, queue, head, via, throws, |board| - 1);
      }
    }
  }

  /** The queue ran dry without taking the last cell: no walk reaches it. */
  lemma NotFound(board: seq<int>, visited: seq<bool>, queue: seq<(int, nat)>, head: int, paths: seq<seq<int>>,
                  via: map<int, nat>)
    requires Searching(board, visited, queue, head, paths, via)
    requires head >= |queue|
    ensures forall k: nat :: !FinishIn(board, k)
  {
    forall k: nat
      ensures !FinishIn(board, k)
    {
      if FinishIn(board, k) {
        var throws: seq<int> :| |throws| == k && Walk(board, throws) == Some(|board| - 1);
        QueuedWithin(board, queue, head, via, throws, |board| - 1);
      }
    }
  }

  /**
    On a one-cell board the token starts on the last cell, so the only result that
    `MinDiceThrows` can return is 0.
  */
  lemma OneCellBoard(board: seq<int>)
    requires |board| == 1
    ensures FinishIn(board, 0)
  {
    assert Walk(board, []) == Some(0);
  }
}
