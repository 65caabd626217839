/** Reachability by presses, and the level-order search argument: a frontier
    that is ordered by move count and closed under successors up to the
    current index holds, at its first solved entry, a shortest solution. */
module Search {
  import opened Buttons

  datatype Option<T> = None | Some(value: T)

  /** Apply the presses `ps` in order, each to a button that is on at that
      moment; None when some press hits a button that is off or missing. */
  function Run(s: State, ps: seq<nat>): (r: Option<State>)
    ensures r.Some? ==> SameLayout(r.value.board, s.board)
    ensures r.Some? ==> |r.value.history| == |s.history| + |ps|
    decreases |ps|
  {
    if ps == [] then Some(s)
    else
      var last := ps[|ps| - 1];
      match Run(s, ps[..|ps| - 1])
      case None => None
      case Some(t) => if Pushable(t.board, last) then Some(Press(t, last)) else None
  }

  /** The presses `ps` solve the puzzle `s`. */
  ghost predicate Solves(s: State, ps: seq<nat>) {
    Run(s, ps).Some? && IsSolved(Run(s, ps).value.board)
  }

  /** Extending a run by one press of a button that is on. */
  lemma RunSnoc(s: State, ps: seq<nat>, j: nat)
    requires Run(s, ps).Some? && Pushable(Run(s, ps).value.board, j)
    ensures Run(s, ps + [j]) == Some(Press(Run(s, ps).value, j))
  {
    assert (ps + [j])[..|ps|] == ps;
  }

  /** A run's history is the start history followed by the colour and shape
      of each pressed button, in press order. */
  lemma {:induction false} RunRecordsPresses(s: State, ps: seq<nat>)
    requires Run(s, ps).Some?
    ensures Run(s, ps).value.history[..|s.history|] == s.history
    ensures forall k :: 0 <= k < |ps| ==>
              ps[k] < |s.board| && Run(s, ps).value.history[|s.history| + k] == MoveOf(s.board[ps[k]])
    decreases |ps|
  {
    if ps != [] {
      var prefix := ps[..|ps| - 1];
      var last := ps[|ps| - 1];
      RunRecordsPresses(s, prefix);
      var t := Run(s, prefix).value;
      var h := Run(s, ps).value.history;
      assert Pushable(t.board, last);
      assert h == t.history + [MoveOf(t.board[last])];
      assert MoveOf(t.board[last]) == MoveOf(s.board[last]);
      forall k | 0 <= k < |ps|
        ensures ps[k] < |s.board| && h[|s.history| + k] == MoveOf(s.board[ps[k]])
      {
        if k < |prefix| {
          assert prefix[k] == ps[k];
          assert h[|s.history| + k] == t.history[|s.history| + k];
        } else {
          assert ps[k] == last && |s.history| + k == |t.history|;
        }
      }
    }
  }

  /** Move counts do not decrease along the frontier. */
  ghost predicate Ordered(states: seq<State>) {
    forall k, l :: 0 <= k < l < |states| ==> |states[k].history| <= |states[l].history|
  }

  /** From index i on, no entry is more than one move deeper than entry i. */
  ghost predicate Banded(states: seq<State>, i: nat) {
    forall k :: i <= k < |states| ==> |states[k].history| <= |states[i].history| + 1
  }

  /** The frontier holds board `b` at a move count of at most `depth`. */
  ghost predicate HasBoard(states: seq<State>, b: Board, depth: nat) {
    exists l :: 0 <= l < |states| && states[l].board == b && |states[l].history| <= depth
  }

  /** The search branches from board `b` on button `j`: the button is
      pushable. Quantifiers over successors are triggered on this term only,
      so that the successors they produce do not re-trigger them. */
  ghost predicate Branch(b: Board, j: int) {
    Pushable(b, j)
  }

  /** Every successor of every entry before index i is in the frontier, at
      most one move deeper than that entry. */
  ghost predicate Closed(states: seq<State>, i: nat) {
    forall k, j {:trigger Branch(states[k].board, j)} :: 0 <= k < i && k < |states| && Branch(states[k].board, j) ==>
      HasBoard(states, PushBoard(states[k].board, j), |states[k].history| + 1)
  }

  /** Entry k of the frontier is reached from s0 by the presses paths[k]. */
  ghost predicate Reaches(s0: State, states: seq<State>, paths: seq<seq<nat>>) {
    |states| == |paths| && forall k :: 0 <= k < |states| ==> Run(s0, paths[k]) == Some(states[k])
  }

  /** No entry before index i is solved. */
  ghost predicate NoneSolvedBefore(states: seq<State>, i: nat) {
    forall k :: 0 <= k < i && k < |states| ==> !IsSolved(states[k].board)
  }

  /** Every state reachable from s0 is held by the frontier at a move count no
      larger than its own, or is at least as deep as the entry the scan has reached. */
  lemma {:induction false} Covered(s0: State, states: seq<State>, i: nat, ps: seq<nat>)
    requires 0 < |states| && states[0] == s0 && i <= |states|
    requires Ordered(states) && Closed(states, i)
    requires Run(s0, ps).Some?
    ensures HasBoard(states, Run(s0, ps).value.board, |Run(s0, ps).value.history|) ||
            (i < |states| && |states[i].history| <= |Run(s0, ps).value.history|)
    decreases |ps|
  {
    if ps == [] {
      assert states[0].board == Run(s0, ps).value.board;
    } else {
      var prefix := ps[..|ps| - 1];
      var j := ps[|ps| - 1];
      Covered(s0, states, i, prefix);
      var t' := Run(s0, prefix).value;
      var t := Run(s0, ps).value;
      assert Pushable(t'.board, j) && t == Press(t', j);
      if HasBoard(states, t'.board, |t'.history|) {
        var l' :| 0 <= l' < |states| && states[l'].board == t'.board && |states[l'].history| <= |t'.history|;
        if l' < i {
          assert Branch(states[l'].board, j);
          assert HasBoard(states, PushBoard(states[l'].board, j), |states[l'].history| + 1);
          var l :| 0 <= l < |states| && states[l].board == PushBoard(states[l'].board, j) &&
                   |states[l].history| <= |states[l'].history| + 1;
          assert states[l].board == t.board;
        } else {
          assert |states[i].history| <= |states[l'].history|;
        }
      }
    }
  }

  /** The first solved entry reached by the scan has the smallest move count
      of any solution. */
  lemma FirstSolvedIsMinimal(s0: State, states: seq<State>, i: nat)
    requires 0 < |states| && states[0] == s0 && i < |states|
    requires Ordered(states) && Closed(states, i) && NoneSolvedBefore(states, i)
    requires IsSolved(states[i].board)
    ensures forall ps :: Solves(s0, ps) ==> |states[i].history| <= |Run(s0, ps).value.history|
  {
    forall ps | Solves(s0, ps)
      ensures |states[i].history| <= |Run(s0, ps).value.history|
    {
      Covered(s0, states, i, ps);
      var t := Run(s0, ps).value;
      if HasBoard(states, t.board, |t.history|) {
        var l :| 0 <= l < |states| && states[l].board == t.board && |states[l].history| <= |t.history|;
        assert IsSolved(states[l].board);
        assert i <= l;
        assert |states[i].history| <= |states[l].history|;
      }
    }
  }

  /** When the scan has passed every entry without finding a solved one, no
      sequence of presses solves the puzzle. */
  lemma ExhaustedIsUnsolvable(s0: State, states: seq<State>)
    requires 0 < |states| && states[0] == s0
    requires Ordered(states) && Closed(states, |states|) && NoneSolvedBefore(states, |states|)
    ensures forall ps :: !Solves(s0, ps)
  {
    forall ps | Run(s0, ps).Some?
      ensures !IsSolved(Run(s0, ps).value.board)
    {
      Covered(s0, states, |states|, ps);
      var t := Run(s0, ps).value;
      var l :| 0 <= l < |states| && states[l].board == t.board && |states[l].history| <= |t.history|;
      assert !IsSolved(states[l].board);
    }
  }

  /** Skipping entry i, whose board the earlier entry k already has, keeps the
      scan's invariant at index i + 1. */
  lemma SkipStep(states: seq<State>, i: nat, k: nat)
    requires i < |states| && Ordered(states) && Banded(states, i) && Closed(states, i) && NoneSolvedBefore(states, i)
    requires k < i && states[k].board == states[i].board
    ensures Banded(states, i + 1) && Closed(states, i + 1) && NoneSolvedBefore(states, i + 1)
  {
    assert |states[k].history| <= |states[i].history|;
    forall k', j | 0 <= k' < i + 1 && k' < |states| && Branch(states[k'].board, j)
      ensures HasBoard(states, PushBoard(states[k'].board, j), |states[k'].history| + 1)
    {
      if k' == i {
        assert Branch(states[k].board, j);
        assert HasBoard(states, PushBoard(states[k].board, j), |states[k].history| + 1);
        var l :| 0 <= l < |states| && states[l].board == PushBoard(states[k].board, j) &&
                 |states[l].history| <= |states[k].history| + 1;
      }
    }
    if i + 1 < |states| {
      assert |states[i].history| <= |states[i + 1].history|;
    }
    assert !IsSolved(states[k].board);
  }

  /** The states that `pressed` produces from `s`; the ensures only unfold
      the comprehension for callers. */
  function Successors(s: State, pressed: seq<nat>): (r: seq<State>)
    ensures |r| == |pressed|
    ensures forall m :: 0 <= m < |pressed| ==> r[m] == Press(s, pressed[m])
  {
    seq(|pressed|, m requires 0 <= m < |pressed| => Press(s, pressed[m]))
  }

  /** The paths that extend `path` by each index of `pressed`; the ensures
      only unfold the comprehension for callers. */
  function Extend(path: seq<nat>, pressed: seq<nat>): (r: seq<seq<nat>>)
    ensures |r| == |pressed|
    ensures forall m :: 0 <= m < |pressed| ==> r[m] == path + [pressed[m]]
  {
    seq(|pressed|, m requires 0 <= m < |pressed| => path + [pressed[m]])
  }

  /** Appending entries one move deeper than entry i keeps the frontier
      ordered and banded at index i + 1. */
  lemma ExpandOrder(states: seq<State>, i: nat, ext: seq<State>)
    requires i < |states| && Ordered(states) && Banded(states, i)
    requires forall m :: 0 <= m < |ext| ==> |ext[m].history| == |states[i].history| + 1
    ensures Ordered(states + ext) && Banded(states + ext, i + 1)
  {
    var states' := states + ext;
    var n := |states|;
    forall k, l | 0 <= k < l < |states'|
      ensures |states'[k].history| <= |states'[l].history|
    {
      if l >= n && k < n {
        assert k <= i ==> |states[k].history| <= |states[i].history|;
      }
    }
    if i + 1 < |states'| {
      assert |states[i].history| <= |states'[i + 1].history|;
    }
  }

  /** A board held by the frontier stays held when entries are appended. */
  lemma HasBoardAppend(states: seq<State>, ext: seq<State>, b: Board, depth: nat)
    requires HasBoard(states, b, depth)
    ensures HasBoard(states + ext, b, depth)
  {
    var l :| 0 <= l < |states| && states[l].board == b && |states[l].history| <= depth;
    assert (states + ext)[l] == states[l];
  }

  /** Appending entries that hold every successor of entry i, one move deeper,
      keeps the frontier closed up to index i + 1. */
  lemma ExpandClosed(states: seq<State>, i: nat, ext: seq<State>)
    requires i < |states| && Closed(states, i)
    requires forall j {:trigger Branch(states[i].board, j)} :: Branch(states[i].board, j) ==>
               HasBoard(ext, PushBoard(states[i].board, j), |states[i].history| + 1)
    ensures Closed(states + ext, i + 1)
  {
    var s := states[i];
    var states' := states + ext;
    forall k, j | 0 <= k < i + 1 && k < |states'| && Branch(states'[k].board, j)
      ensures HasBoard(states', PushBoard(states'[k].board, j), |states'[k].history| + 1)
    {
      assert states'[k] == states[k];
      if k < i {
        HasBoardAppend(states, ext, PushBoard(states[k].board, j), |states[k].history| + 1);
      } else {
        var b := PushBoard(s.board, j);
        var l :| 0 <= l < |ext| && ext[l].board == b && |ext[l].history| <= |s.history| + 1;
        assert states'[|states| + l] == ext[l];
      }
    }
  }

  /** The appended successors are reached by the extended paths. */
  lemma ExpandReaches(s0: State, states: seq<State>, paths: seq<seq<nat>>, i: nat, pressed: seq<nat>)
    requires Reaches(s0, states, paths) && i < |states|
    requires forall m :: 0 <= m < |pressed| ==> Pushable(states[i].board, pressed[m])
    ensures Reaches(s0, states + Successors(states[i], pressed), paths + Extend(paths[i], pressed))
  {
    var states' := states + Successors(states[i], pressed);
    var paths' := paths + Extend(paths[i], pressed);
    var n := |states|;
    forall k | 0 <= k < |states'|
      ensures Run(s0, paths'[k]) == Some(states'[k])
    {
      if k >= n {
        RunSnoc(s0, paths[i], pressed[k - n]);
      } else {
        assert paths'[k] == paths[k] && states'[k] == states[k];
      }
    }
  }
  /** The scan's invariant at index i: the frontier starts at s0, every entry
      is reached from s0, move counts are ordered and banded, the entries
      before i are closed under successors and none of them is solved. */
  ghost predicate Frontier(s0: State, states: seq<State>, paths: seq<seq<nat>>, i: nat) {
    && 0 < |states| && states[0] == s0 && i <= |states|
    && Reaches(s0, states, paths) && Ordered(states) && Banded(states, i)
    && Closed(states, i) && NoneSolvedBefore(states, i)
  }

  /** The boards of the first i entries of the frontier. */
  ghost function Expanded(states: seq<State>, i: nat): set<Board>
    requires i <= |states|
  {
    if i == 0 then {} else Expanded(states, i - 1) + {states[i - 1].board}
  }

  lemma {:induction false} ExpandedMembers(states: seq<State>, i: nat, b: Board)
    requires i <= |states|
    ensures b in Expanded(states, i) <==> exists k :: 0 <= k < i && states[k].board == b
  {
    if i > 0 {
      ExpandedMembers(states, i - 1, b);
    }
  }

  lemma {:induction false} ExpandedAppend(states: seq<State>, ext: seq<State>, i: nat)
    requires i <= |states|
    ensures Expanded(states + ext, i) == Expanded(states, i)
  {
    if i > 0 {
      ExpandedAppend(states, ext, i - 1);
      assert (states + ext)[i - 1] == states[i - 1];
    }
  }

  /** The frontier of the initial puzzle alone. */
  lemma FrontierStart(s0: State)
    ensures Frontier(s0, [s0], [[]], 0)
  {
    assert Run(s0, []) == Some(s0);
  }

  /** Skipping entry i, whose board was expanded before. */
  lemma SkipFrontier(s0: State, states: seq<State>, paths: seq<seq<nat>>, i: nat)
    requires Frontier(s0, states, paths, i) && i < |states|
    requires states[i].board in Expanded(states, i)
    ensures Frontier(s0, states, paths, i + 1)
    ensures Expanded(states, i + 1) == Expanded(states, i)
  {
    ExpandedMembers(states, i, states[i].board);
    var k :| 0 <= k < i && states[k].board == states[i].board;
    SkipStep(states, i, k);
  }

  /** Appending the successors of the unsolved entry i, which hold every
      board one push away, keeps the frontier ordered, banded, closed and
      unsolved up to index i + 1. */
  lemma ExpandShape(states: seq<State>, i: nat, pressed: seq<nat>)
    requires i < |states| && Ordered(states) && Banded(states, i) && Closed(states, i) && NoneSolvedBefore(states, i)
    requires !IsSolved(states[i].board)
    requires forall m :: 0 <= m < |pressed| ==> Pushable(states[i].board, pressed[m])
    requires forall j {:trigger Branch(states[i].board, j)} :: Branch(states[i].board, j) ==>
               HasBoard(Successors(states[i], pressed), PushBoard(states[i].board, j), |states[i].history| + 1)
    ensures Ordered(states + Successors(states[i], pressed))
    ensures Banded(states + Successors(states[i], pressed), i + 1)
    ensures Closed(states + Successors(states[i], pressed), i + 1)
    ensures NoneSolvedBefore(states + Successors(states[i], pressed), i + 1)
  {
    var ext := Successors(states[i], pressed);
    forall m | 0 <= m < |ext|
      ensures |ext[m].history| == |states[i].history| + 1
    {
      assert Pushable(states[i].board, pressed[m]);
    }
    ExpandOrder(states, i, ext);
    ExpandClosed(states, i, ext);
    assert (states + ext)[i] == states[i];
  }

  /** Expanding the unsolved entry i: its successors are appended with the
      extended paths. */
  lemma {:induction false} ExpandFrontier(s0: State, states: seq<State>, paths: seq<seq<nat>>, i: nat, pressed: seq<nat>)
    requires Frontier(s0, states, paths, i) && i < |states|
    requires !IsSolved(states[i].board)
    requires forall m :: 0 <= m < |pressed| ==> Pushable(states[i].board, pressed[m])
    requires forall j {:trigger Branch(states[i].board, j)} :: Branch(states[i].board, j) ==>
               HasBoard(Successors(states[i], pressed), PushBoard(states[i].board, j), |states[i].history| + 1)
    ensures Frontier(s0, states + Successors(states[i], pressed), paths + Extend(paths[i], pressed), i + 1)
    ensures Expanded(states + Successors(states[i], pressed), i + 1) == Expanded(states, i) + {states[i].board}
  {
    ExpandShape(states, i, pressed);
    ExpandReaches(s0, states, paths, i, pressed);
    ExpandedAppend(states, Successors(states[i], pressed), i);
    assert (states + Successors(states[i], pressed))[i] == states[i];
  }
}
