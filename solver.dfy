/** The breadth-first solver over puzzle objects: a frontier scanned by a
    growing index while successors are appended to it, and a list of the
    puzzles already expanded. */
module Solver {
  import opened Buttons
  import opened Puzzles
  import opened Search

  /** A solution: its move count and the text of its moves. */
  datatype Result = Result(num: nat, moveSet: string)

  /** What the solver returns: a result, or Unsolvable once every reachable
      board has been expanded without reaching a solved one. */
  datatype Outcome = Solved(result: Result) | Unsolvable

  /** The result reported for a solved puzzle. */
  function ResultOf(t: State): Result {
    Result(|t.history|, RenderMoves(t.history))
  }

  /** Whether some puzzle of `list` has the board of `p`, by a linear scan
      with board equality. */
  method IsPuzzleSeen(p: Puzzle, list: seq<Puzzle>) returns (seen: bool)
    ensures seen <==> exists m :: 0 <= m < |list| && list[m].buttons[..] == p.buttons[..]
  {
    var k := 0;
    while k < |list|
      invariant 0 <= k <= |list|
      invariant forall m :: 0 <= m < k ==> list[m].buttons[..] != p.buttons[..]
    {
      var same := list[k].Equals(p);
      if same {
        return true;
      }
      k := k + 1;
    }
    return false;
  }

  /** A puzzle is solved when no button is on. */
  method IsPuzzleSolved(p: Puzzle) returns (solved: bool)
    ensures solved <==> IsSolved(p.buttons[..])
  {
    var buttons := p.buttons;
    var i := 0;
    while i < buttons.Length
      invariant 0 <= i <= buttons.Length
      invariant forall k :: 0 <= k < i ==> !buttons[k].on
    {
      if buttons[i].on {
        return false;
      }
      i := i + 1;
    }
    return true;
  }

  /** Add `p` to the seen list unless a puzzle with its board is there already. */
  method AddPuzzleToSeen(p: Puzzle, viewed: seq<Puzzle>) returns (r: seq<Puzzle>)
    ensures (exists m :: 0 <= m < |viewed| && viewed[m].buttons[..] == p.buttons[..]) ==> r == viewed
    ensures (forall m :: 0 <= m < |viewed| ==> viewed[m].buttons[..] != p.buttons[..]) ==> r == viewed + [p]
    ensures exists m :: 0 <= m < |r| && r[m].buttons[..] == p.buttons[..]
    ensures (forall m1, m2 :: 0 <= m1 < m2 < |viewed| ==> viewed[m1].buttons[..] != viewed[m2].buttons[..]) ==>
            (forall m1, m2 :: 0 <= m1 < m2 < |r| ==> r[m1].buttons[..] != r[m2].buttons[..])
  {
    var seen := IsPuzzleSeen(p, viewed);
    if !seen {
      r := viewed + [p];
      assert r[|viewed|] == p;
    } else {
      r := viewed;
    }
  }

  /** A copy of a board in a fresh array, button by button. */
  method CloneList(inList: array<Button>) returns (out: array<Button>)
    ensures fresh(out) && out[..] == inList[..]
  {
    out := new Button[inList.Length];
    var i := 0;
    while i < inList.Length
      modifies out
      invariant 0 <= i <= inList.Length
      invariant out[..i] == inList[..i]
    {
      out[i] := inList[i];
      i := i + 1;
    }
  }

  /** A fresh puzzle with a copy of the board and history of `p`, and button
      `i` pushed on it. */
  method PushedCopy(p: Puzzle, i: nat) returns (temp: Puzzle)
    requires Pushable(p.buttons[..], i)
    ensures fresh(temp) && fresh(temp.buttons)
    ensures temp.buttons[..] == PushBoard(p.buttons[..], i)
    ensures temp.buttonsPressed == p.buttonsPressed + [MoveOf(p.buttons[i])]
  {
    var board := CloneList(p.buttons);
    // the history is a value, so handing it over copies it
    temp := new Puzzle.WithHistory(board, p.buttonsPressed);
    temp.PushButton(i);
  }

  /** A puzzle over the board of `p` with no history. The board array is
      shared with `p`, not copied (compare CloneList). */
  method CloneFreshPuzzle(p: Puzzle) returns (q: Puzzle)
    ensures fresh(q) && q.buttons == p.buttons && q.buttonsPressed == []
  {
    q := new Puzzle.FromButtons(p.buttons);
  }

  /** Because the board is shared, pushing a button of the puzzle returned by
      CloneFreshPuzzle toggles the buttons of `p` as well, while the history
      of `p` stays as it was. */
  method PushFreshClone(p: Puzzle, i: nat) returns (q: Puzzle)
    requires Pushable(p.buttons[..], i)
    modifies p.buttons
    ensures q.buttons == p.buttons && q.Model() == State(PushBoard(old(p.buttons[..]), i), [MoveOf(old(p.buttons[i]))])
    ensures p.Model() == State(PushBoard(old(p.buttons[..]), i), old(p.buttonsPressed))
  {
    q := CloneFreshPuzzle(p);
    q.PushButton(i);
  }

  /** Adding the same puzzle twice leaves the seen list as adding it once. */
  method AddPuzzleToSeenTwice(p: Puzzle, viewed: seq<Puzzle>) returns (once: seq<Puzzle>, twice: seq<Puzzle>)
    ensures twice == once
    ensures once == viewed || once == viewed + [p]
  {
    once := AddPuzzleToSeen(p, viewed);
    twice := AddPuzzleToSeen(p, once);
  }

  /** Whether the board of pushing `j` is already among those of the kept
      presses `ks`. */
  ghost predicate Dup(b: Board, ks: seq<nat>, j: nat)
    requires j < |b|
  {
    exists m :: 0 <= m < |ks| && ks[m] < |b| && PushBoard(b, ks[m]) == PushBoard(b, j)
  }

  /** The presses whose successors a set of puzzles keeps after looking at
      buttons 0 .. i-1 of `b`: each pushable one, unless it leads to a board
      already kept. */
  ghost function Kept(b: Board, i: nat): seq<nat>
    requires i <= |b|
  {
    if i == 0 then []
    else
      var ks := Kept(b, i - 1);
      if b[i - 1].on && !Dup(b, ks, i - 1) then ks + [i - 1] else ks
  }

  /** The kept presses are pushable buttons below `i`, in increasing order. */
  lemma {:induction false} KeptPushable(b: Board, i: nat)
    requires i <= |b|
    ensures |Kept(b, i)| <= i
    ensures forall k :: 0 <= k < |Kept(b, i)| ==> Kept(b, i)[k] < i && Pushable(b, Kept(b, i)[k])
    ensures forall k1, k2 :: 0 <= k1 < k2 < |Kept(b, i)| ==> Kept(b, i)[k1] < Kept(b, i)[k2]
  {
    if i > 0 {
      KeptPushable(b, i - 1);
    }
  }

  /** A board found among the presses `ks` is still found once more presses
      are appended to them. */
  lemma DupGrows(b: Board, ks: seq<nat>, kn: seq<nat>, j: nat)
    requires j < |b| && |ks| <= |kn| && kn[..|ks|] == ks
    requires Dup(b, ks, j)
    ensures Dup(b, kn, j)
  {
    var m :| 0 <= m < |ks| && ks[m] < |b| && PushBoard(b, ks[m]) == PushBoard(b, j);
    assert kn[m] == kn[..|ks|][m];
  }

  /** Every pushable button below `i` leads to the board of some kept press. */
  lemma {:induction false} KeptComplete(b: Board, i: nat)
    requires i <= |b|
    ensures forall j {:trigger Branch(b, j)} :: 0 <= j < i && Branch(b, j) ==> Dup(b, Kept(b, i), j)
  {
    if i > 0 {
      KeptComplete(b, i - 1);
      var ks := Kept(b, i - 1);
      var kn := Kept(b, i);
      assert kn[..|ks|] == ks by {
        assert kn == ks || kn == ks + [i - 1];
      }
      forall j | 0 <= j < i && Branch(b, j)
        ensures Dup(b, kn, j)
      {
        if Dup(b, ks, j) {
          DupGrows(b, ks, kn, j);
        } else {
          assert kn == ks + [j] && kn[|ks|] == j;
        }
      }
    }
  }

  /** No two kept presses lead to the same board. */
  lemma {:induction false} KeptDistinct(b: Board, i: nat)
    requires i <= |b|
    ensures forall k :: 0 <= k < |Kept(b, i)| ==> Kept(b, i)[k] < |b|
    ensures forall k1, k2 :: 0 <= k1 < k2 < |Kept(b, i)| ==>
              PushBoard(b, Kept(b, i)[k1]) != PushBoard(b, Kept(b, i)[k2])
  {
    KeptPushable(b, i);
    if i > 0 {
      KeptDistinct(b, i - 1);
      KeptPushable(b, i - 1);
    }
  }

  /** Each puzzle of `ps` is, as a value, the state at the same index of `ss`. */
  ghost predicate Mirrors(ps: seq<Puzzle>, ss: seq<State>)
    reads set k | 0 <= k < |ps| :: ps[k], set k | 0 <= k < |ps| :: ps[k].buttons
  {
    |ps| == |ss| && forall k :: 0 <= k < |ps| ==> ps[k].Model() == ss[k]
  }

  /** Appending mirrored puzzles keeps the frontier mirrored. */
  lemma MirrorAppend(ps: seq<Puzzle>, ss: seq<State>, qs: seq<Puzzle>, ts: seq<State>)
    requires Mirrors(ps, ss) && Mirrors(qs, ts)
    ensures Mirrors(ps + qs, ss + ts)
  {
    forall k | 0 <= k < |ps + qs|
      ensures (ps + qs)[k].Model() == (ss + ts)[k]
    {
      if k < |ps| {
        assert (ps + qs)[k] == ps[k] && (ss + ts)[k] == ss[k];
      } else {
        assert (ps + qs)[k] == qs[k - |ps|] && (ss + ts)[k] == ts[k - |ps|];
      }
    }
  }

  /** Appending one press to the kept presses appends its successor. */
  lemma SuccessorsSnoc(s: State, pressed: seq<nat>, j: nat)
    ensures Successors(s, pressed + [j]) == Successors(s, pressed) + [Press(s, j)]
  {
    assert forall m :: 0 <= m < |pressed| ==> (pressed + [j])[m] == pressed[m];
  }

  /** The successors built from the kept presses of a whole board: at most
      one per button, each from a pushable button in increasing index order,
      and each one press deeper. */
  lemma KeptSuccessors(s: State)
    ensures |Kept(s.board, |s.board|)| <= |s.board|
    ensures forall k :: 0 <= k < |Kept(s.board, |s.board|)| ==> Pushable(s.board, Kept(s.board, |s.board|)[k])
    ensures forall k1, k2 :: 0 <= k1 < k2 < |Kept(s.board, |s.board|)| ==>
              Kept(s.board, |s.board|)[k1] < Kept(s.board, |s.board|)[k2]
    ensures forall k :: 0 <= k < |Kept(s.board, |s.board|)| ==>
              |Successors(s, Kept(s.board, |s.board|))[k].history| == |s.history| + 1
  {
    var ks := Kept(s.board, |s.board|);
    KeptPushable(s.board, |s.board|);
    forall k | 0 <= k < |ks|
      ensures |Successors(s, ks)[k].history| == |s.history| + 1
    {
      assert Pushable(s.board, ks[k]);
    }
  }

  /** Every board one push away from `s` is among the successors built from
      the kept presses, one press deeper. */
  lemma KeptSuccessorsComplete(s: State)
    ensures forall j {:trigger Branch(s.board, j)} :: Branch(s.board, j) ==>
              HasBoard(Successors(s, Kept(s.board, |s.board|)), PushBoard(s.board, j), |s.history| + 1)
  {
    var b := s.board;
    var ks := Kept(b, |b|);
    var succ := Successors(s, ks);
    KeptPushable(b, |b|);
    KeptComplete(b, |b|);
    forall j | Branch(b, j)
      ensures HasBoard(succ, PushBoard(b, j), |s.history| + 1)
    {
      var k :| 0 <= k < |ks| && ks[k] < |b| && PushBoard(b, ks[k]) == PushBoard(b, j);
      assert Pushable(b, ks[k]);
      assert succ[k] == Press(s, ks[k]);
    }
  }

  /** The successors built from the kept presses have pairwise different
      boards, and there are none exactly when the board is solved. */
  lemma KeptSuccessorsDistinct(s: State)
    ensures forall k1, k2 :: 0 <= k1 < k2 < |Kept(s.board, |s.board|)| ==>
              Successors(s, Kept(s.board, |s.board|))[k1].board != Successors(s, Kept(s.board, |s.board|))[k2].board
    ensures Kept(s.board, |s.board|) == [] <==> IsSolved(s.board)
  {
    var b := s.board;
    var ks := Kept(b, |b|);
    var succ := Successors(s, ks);
    KeptPushable(b, |b|);
    KeptComplete(b, |b|);
    KeptDistinct(b, |b|);
    forall k1, k2 | 0 <= k1 < k2 < |ks|
      ensures succ[k1].board != succ[k2].board
    {
      assert Pushable(b, ks[k1]) && Pushable(b, ks[k2]);
    }
    if !IsSolved(b) {
      var j :| 0 <= j < |b| && b[j].on;
      assert Branch(b, j);
    }
    if ks != [] {
      assert Pushable(b, ks[0]);
    }
  }

  /** A successor with the board of pushing `i` is among `perms` exactly when
      that board is among those of the kept presses. */
  lemma SeenIffDup(perms: seq<Puzzle>, pressed: seq<nat>, s: State, temp: Puzzle, i: nat)
    requires i < |s.board| && Mirrors(perms, Successors(s, pressed))
    requires forall k :: 0 <= k < |pressed| ==> Pushable(s.board, pressed[k])
    requires temp.buttons[..] == PushBoard(s.board, i)
    ensures (exists m :: 0 <= m < |perms| && perms[m].buttons[..] == temp.buttons[..]) <==> Dup(s.board, pressed, i)
  {
    var succ := Successors(s, pressed);
    forall m | 0 <= m < |perms|
      ensures perms[m].buttons[..] == PushBoard(s.board, pressed[m])
    {
      assert perms[m].Model() == succ[m];
      assert Pushable(s.board, pressed[m]);
      assert succ[m] == Press(s, pressed[m]);
    }
    if Dup(s.board, pressed, i) {
      var m :| 0 <= m < |pressed| && pressed[m] < |s.board| && PushBoard(s.board, pressed[m]) == PushBoard(s.board, i);
      assert perms[m].buttons[..] == temp.buttons[..];
    }
  }

  /** What the kept successors say about the puzzles that mirror them: at
      most one per button, none exactly when solved, each one move deeper,
      no two with equal boards. */
  lemma MirroredSuccessors(perms: seq<Puzzle>, s: State, pressed: seq<nat>)
    requires pressed == Kept(s.board, |s.board|) && Mirrors(perms, Successors(s, pressed))
    ensures |perms| <= |s.board| && (perms == [] <==> IsSolved(s.board))
    ensures forall m :: 0 <= m < |perms| ==> |perms[m].Model().history| == |s.history| + 1
    ensures forall m1, m2 :: 0 <= m1 < m2 < |perms| ==> perms[m1].Model().board != perms[m2].Model().board
  {
    KeptSuccessors(s);
    KeptSuccessorsDistinct(s);
  }

  /** One round of PuzzlePermutations: push a copy of `p` at button `i` when
      it is pushable, and keep it unless its board is already there. */
  method AddPermutation(p: Puzzle, i: nat, perms: seq<Puzzle>, ghost pressed: seq<nat>)
    returns (perms': seq<Puzzle>, ghost pressed': seq<nat>)
    requires i < p.buttons.Length
    requires pressed == Kept(p.buttons[..], i) && Mirrors(perms, Successors(p.Model(), pressed))
    ensures pressed' == Kept(p.buttons[..], i + 1) && Mirrors(perms', Successors(p.Model(), pressed'))
    ensures perms' == perms || exists q: Puzzle :: perms' == perms + [q] && fresh(q) && fresh(q.buttons)
  {
    perms', pressed' := perms, pressed;
    if p.IsButtonPushable(i) {
      ghost var s := p.Model();
      var temp := PushedCopy(p, i);
      assert temp.Model() == Press(s, i);
      // a set of puzzles keeps the first of several with equal boards
      var dup := IsPuzzleSeen(temp, perms);
      KeptPushable(s.board, i);
      SeenIffDup(perms, pressed, s, temp, i);
      if !dup {
        perms' := perms + [temp];
        assert fresh(temp) && fresh(temp.buttons);
        pressed' := pressed + [i];
        SuccessorsSnoc(s, pressed, i);
        MirrorAppend(perms, Successors(s, pressed), [temp], [Press(s, i)]);
      }
    }
  }

  /** The successors of `p`: for each pushable button in index order, a copy
      of `p` with that button pushed, kept unless a successor with the same
      board is already there. `pressed` names the button behind each one
      (KeptSuccessors, KeptSuccessorsComplete and KeptSuccessorsDistinct
      say what they are). There is at most one successor per button and
      none exactly when `p` is solved; each is one move deeper than `p`, and
      no two have equal boards.
      Nothing that exists before the call is modified, `p` included. */
  method PuzzlePermutations(p: Puzzle) returns (perms: seq<Puzzle>, ghost pressed: seq<nat>)
    ensures pressed == Kept(p.buttons[..], p.buttons.Length)
    ensures Mirrors(perms, Successors(p.Model(), pressed))
    ensures |perms| <= |p.Model().board| && (perms == [] <==> IsSolved(p.Model().board))
    ensures forall m :: 0 <= m < |perms| ==> |perms[m].Model().history| == |p.Model().history| + 1
    ensures forall m1, m2 :: 0 <= m1 < m2 < |perms| ==> perms[m1].Model().board != perms[m2].Model().board
    ensures forall m :: 0 <= m < |perms| ==> fresh(perms[m]) && fresh(perms[m].buttons)
  {
    perms, pressed := [], [];
    var i := 0;
    while i < p.buttons.Length
      invariant 0 <= i <= p.buttons.Length
      invariant pressed == Kept(p.buttons[..], i) && Mirrors(perms, Successors(p.Model(), pressed))
      invariant forall m :: 0 <= m < |perms| ==> fresh(perms[m]) && fresh(perms[m].buttons)
    {
      ghost var before := perms;
      perms, pressed := AddPermutation(p, i, perms, pressed);
      if perms != before {
        var q: Puzzle :| perms == before + [q] && fresh(q) && fresh(q.buttons);
        assert forall m :: 0 <= m < |before| ==> perms[m] == before[m];
      }
      i := i + 1;
    }
    assert p.Model().board == p.buttons[..];
    MirroredSuccessors(perms, p.Model(), pressed);
  }

  /** Each puzzle of `viewed` has the board at the same index of `vb`. */
  ghost predicate BoardsMirror(viewed: seq<Puzzle>, vb: seq<Board>)
    reads set m | 0 <= m < |viewed| :: viewed[m], set m | 0 <= m < |viewed| :: viewed[m].buttons
  {
    |viewed| == |vb| && forall m :: 0 <= m < |viewed| ==> viewed[m].Model().board == vb[m]
  }

  /** The seen list answers for the expanded boards: a puzzle with the board
      `x` is in it exactly when `x` was expanded. */
  lemma SeenIffExpanded(viewed: seq<Puzzle>, vb: seq<Board>, seen: set<Board>, q: Puzzle, x: Board)
    requires BoardsMirror(viewed, vb)
    requires forall y :: y in seen <==> y in vb
    requires q.Model().board == x
    ensures (exists m :: 0 <= m < |viewed| && viewed[m].buttons[..] == q.buttons[..]) <==> x in seen
  {
    if x in vb {
      var m :| 0 <= m < |vb| && vb[m] == x;
      assert viewed[m].Model().board == x;
    }
    if exists m :: 0 <= m < |viewed| && viewed[m].buttons[..] == q.buttons[..] {
      var m :| 0 <= m < |viewed| && viewed[m].buttons[..] == q.buttons[..];
      assert viewed[m].Model().board == vb[m];
    }
  }

  /** Appending a puzzle and its board keeps the seen list mirrored. */
  lemma ViewedAppend(viewed: seq<Puzzle>, vb: seq<Board>, q: Puzzle, x: Board)
    requires BoardsMirror(viewed, vb)
    requires q.Model().board == x
    ensures BoardsMirror(viewed + [q], vb + [x])
  {
    forall m | 0 <= m < |viewed + [q]|
      ensures (viewed + [q])[m].Model().board == (vb + [x])[m]
    {
      if m < |viewed| {
        assert (viewed + [q])[m] == viewed[m] && (vb + [x])[m] == vb[m];
      }
    }
  }

  /** At the first solved entry the search reports a solution that is reached
      from s0, and no solution has fewer presses. */
  lemma SolvedAt(s0: State, states: seq<State>, paths: seq<seq<nat>>, i: nat)
    requires Frontier(s0, states, paths, i) && i < |states|
    requires IsSolved(states[i].board)
    ensures Solves(s0, paths[i]) && Run(s0, paths[i]).value == states[i]
    ensures forall ps :: Solves(s0, ps) ==> |states[i].history| <= |s0.history| + |ps|
  {
    FirstSolvedIsMinimal(s0, states, i);
  }

  /** A board reached from s0 is one of the boards with s0's layout. */
  lemma ReachedInLayouts(s0: State, states: seq<State>, paths: seq<seq<nat>>, k: nat)
    requires Reaches(s0, states, paths) && k < |states|
    ensures states[k].board in Layouts(s0.board)
  {
    assert Run(s0, paths[k]) == Some(states[k]);
    LayoutsComplete(s0.board, states[k].board);
  }

  /** A subset of a finite set is no larger. */
  lemma SubsetCard<T>(a: set<T>, b: set<T>)
    requires a <= b
    ensures |a| <= |b|
  {
    assert b == a + (b - a) && a * (b - a) == {};
  }

  /** Adding a new board with s0's layout to the expanded ones keeps their
      number within the 2^n boards of that layout. */
  lemma SeenBound(s0: State, states: seq<State>, paths: seq<seq<nat>>, i: nat)
    requires Reaches(s0, states, paths) && i < |states|
    ensures |Expanded(states, i) + {states[i].board}| <= Pow2(|s0.board|)
  {
    var e := Expanded(states, i) + {states[i].board};
    forall x | x in e
      ensures x in Layouts(s0.board)
    {
      ExpandedMembers(states, i, x);
      if x == states[i].board {
        ReachedInLayouts(s0, states, paths, i);
      } else {
        var k :| 0 <= k < i && states[k].board == x;
        ReachedInLayouts(s0, states, paths, k);
      }
    }
    LayoutsCount(s0.board);
    SubsetCard(e, Layouts(s0.board));
  }

  /** The solver's loop invariant at index i: the frontier of puzzles mirrors
      a frontier of states reached from s0; the seen list holds, by board,
      exactly the boards of the entries before i, all of s0's layout. */
  ghost predicate Searching(s0: State, puzzles: seq<Puzzle>, viewed: seq<Puzzle>, states: seq<State>,
                            paths: seq<seq<nat>>, vb: seq<Board>, seen: set<Board>, i: nat)
    reads set k | 0 <= k < |puzzles| :: puzzles[k], set k | 0 <= k < |puzzles| :: puzzles[k].buttons
    reads set m | 0 <= m < |viewed| :: viewed[m], set m | 0 <= m < |viewed| :: viewed[m].buttons
  {
    && Frontier(s0, states, paths, i) && Mirrors(puzzles, states)
    && seen == Expanded(states, i)
    && BoardsMirror(viewed, vb) && (forall x :: x in seen <==> x in vb)
    && (forall m1, m2 :: 0 <= m1 < m2 < |vb| ==> vb[m1] != vb[m2])
  }

  lemma SearchStart(p: Puzzle)
    ensures Searching(p.Model(), [p], [], [p.Model()], [[]], [], {}, 0)
  {
    FrontierStart(p.Model());
  }

  /** Skipping entry i, whose board the seen list already holds. */
  lemma SkipSearching(s0: State, puzzles: seq<Puzzle>, viewed: seq<Puzzle>, states: seq<State>,
                      paths: seq<seq<nat>>, vb: seq<Board>, seen: set<Board>, i: nat)
    requires Searching(s0, puzzles, viewed, states, paths, vb, seen, i) && i < |states|
    requires states[i].board in seen
    ensures Searching(s0, puzzles, viewed, states, paths, vb, seen, i + 1)
  {
    SkipFrontier(s0, states, paths, i);
  }

  /** Appending the successors of the unseen, unsolved entry i to the frontier
      and its puzzle to the seen list keeps the invariant at index i + 1. */
  lemma ExpandSearching(s0: State, puzzles: seq<Puzzle>, viewed: seq<Puzzle>, states: seq<State>,
                        paths: seq<seq<nat>>, vb: seq<Board>, seen: set<Board>, i: nat,
                        perms: seq<Puzzle>, pressed: seq<nat>)
    requires Searching(s0, puzzles, viewed, states, paths, vb, seen, i) && i < |states|
    requires states[i].board !in seen && !IsSolved(states[i].board)
    requires pressed == Kept(states[i].board, |states[i].board|) && Mirrors(perms, Successors(states[i], pressed))
    ensures Searching(s0, puzzles + perms, viewed + [puzzles[i]], states + Successors(states[i], pressed),
                      paths + Extend(paths[i], pressed), vb + [states[i].board], seen + {states[i].board}, i + 1)
    ensures |seen + {states[i].board}| <= Pow2(|s0.board|)
  {
    var t := states[i];
    assert puzzles[i].Model() == t;
    KeptSuccessors(t);
    KeptSuccessorsComplete(t);
    ExpandFrontier(s0, states, paths, i, pressed);
    SeenBound(s0, states, paths, i);
    MirrorAppend(puzzles, states, perms, Successors(t, pressed));
    ViewedAppend(viewed, vb, puzzles[i], t.board);
  }

  /** One expansion of the search: the unseen, unsolved puzzle at index i has
      its successors appended to the frontier and is added to the seen list. */
  method ExpandStep(puzzles: seq<Puzzle>, viewed: seq<Puzzle>, i: nat, ghost s0: State, ghost states: seq<State>,
                    ghost paths: seq<seq<nat>>, ghost vb: seq<Board>, ghost seen: set<Board>)
    returns (puzzles': seq<Puzzle>, viewed': seq<Puzzle>, ghost states': seq<State>,
             ghost paths': seq<seq<nat>>, ghost vb': seq<Board>, ghost seen': set<Board>)
    requires Searching(s0, puzzles, viewed, states, paths, vb, seen, i) && i < |states|
    requires states[i].board !in seen && !IsSolved(states[i].board)
    ensures Searching(s0, puzzles', viewed', states', paths', vb', seen', i + 1)
    ensures seen' == seen + {states[i].board} && |seen'| <= Pow2(|s0.board|)
    ensures |puzzles| <= |puzzles'| && puzzles'[..|puzzles|] == puzzles
    ensures states' == states + Successors(states[i], Kept(states[i].board, |states[i].board|))
  {
    var pT := puzzles[i];
    ghost var t := states[i];
    assert pT.Model() == t;
    var permutations, pressed := PuzzlePermutations(pT);
    SeenIffExpanded(viewed, vb, seen, pT, t.board);
    viewed' := AddPuzzleToSeen(pT, viewed);
    assert viewed' == viewed + [pT];
    ExpandSearching(s0, puzzles, viewed, states, paths, vb, seen, i, permutations, pressed);
    puzzles' := puzzles + permutations;
    vb', seen' := vb + [t.board], seen + {t.board};
    states', paths' := states + Successors(t, pressed), paths + Extend(paths[i], pressed);
  }

  /** The turn for an unseen puzzle at index i: report it when it is solved;
      otherwise expand it, which adds its board to the seen ones. */
  method VisitUnseen(puzzles: seq<Puzzle>, viewed: seq<Puzzle>, i: nat, ghost s0: State, ghost states: seq<State>,
                     ghost paths: seq<seq<nat>>, ghost vb: seq<Board>, ghost seen: set<Board>)
    returns (found: Option<Result>, puzzles': seq<Puzzle>, viewed': seq<Puzzle>, ghost states': seq<State>,
             ghost paths': seq<seq<nat>>, ghost vb': seq<Board>, ghost seen': set<Board>)
    requires Searching(s0, puzzles, viewed, states, paths, vb, seen, i) && i < |states|
    requires states[i].board !in seen
    ensures found.Some? ==> Solves(s0, paths[i]) && found.value == ResultOf(Run(s0, paths[i]).value)
    ensures found.Some? ==> forall ps :: Solves(s0, ps) ==> found.value.num <= |s0.history| + |ps|
    ensures found.None? ==> Searching(s0, puzzles', viewed', states', paths', vb', seen', i + 1)
    ensures found.None? ==> |puzzles| <= |puzzles'| && puzzles'[..|puzzles|] == puzzles
    ensures found.None? ==> |seen| < |seen'| <= Pow2(|s0.board|)
  {
    var pT := puzzles[i];
    assert pT.Model() == states[i];
    var solved := IsPuzzleSolved(pT);
    if solved {
      SolvedAt(s0, states, paths, i);
      var moveList := pT.GetMoveList();
      found := Some(Result(pT.GetMoveNum(), moveList));
      puzzles', viewed', states', paths', vb', seen' := puzzles, viewed, states, paths, vb, seen;
    } else {
      puzzles', viewed', states', paths', vb', seen' := ExpandStep(puzzles, viewed, i, s0, states, paths, vb, seen);
      found := None;
    }
  }

  /** One turn of the search loop at index i: skip the puzzle when its board
      was seen; otherwise hand it to VisitUnseen. */
  method Visit(puzzles: seq<Puzzle>, viewed: seq<Puzzle>, i: nat, ghost s0: State, ghost states: seq<State>,
               ghost paths: seq<seq<nat>>, ghost vb: seq<Board>, ghost seen: set<Board>)
    returns (found: Option<Result>, puzzles': seq<Puzzle>, viewed': seq<Puzzle>, ghost states': seq<State>,
             ghost paths': seq<seq<nat>>, ghost vb': seq<Board>, ghost seen': set<Board>)
    requires Searching(s0, puzzles, viewed, states, paths, vb, seen, i) && i < |states|
    ensures found.Some? ==> Solves(s0, paths[i]) && found.value == ResultOf(Run(s0, paths[i]).value)
    ensures found.Some? ==> forall ps :: Solves(s0, ps) ==> found.value.num <= |s0.history| + |ps|
    ensures found.None? ==> Searching(s0, puzzles', viewed', states', paths', vb', seen', i + 1)
    ensures found.None? ==> |puzzles| <= |puzzles'| && puzzles'[..|puzzles|] == puzzles
    ensures found.None? ==>
              || (seen' == seen && |puzzles'| == |puzzles|)
              || (|seen| < |seen'| <= Pow2(|s0.board|))
  {
    var pT := puzzles[i];
    assert pT.Model() == states[i];
    var isSeen := IsPuzzleSeen(pT, viewed);
    SeenIffExpanded(viewed, vb, seen, pT, states[i].board);
    if !isSeen {
      found, puzzles', viewed', states', paths', vb', seen' := VisitUnseen(puzzles, viewed, i, s0, states, paths, vb, seen);
    } else {
      SkipSearching(s0, puzzles, viewed, states, paths, vb, seen, i);
      found := None;
      puzzles', viewed', states', paths', vb', seen' := puzzles, viewed, states, paths, vb, seen;
    }
  }

  /** Breadth-first search from `p`: scan the frontier by index; skip a
      puzzle whose board was expanded before; return the first solved one;
      otherwise append its successors and record it as expanded. The result
      is reached from `p` by pushable presses, and no solution is shorter. */
  method SolvePuzzle(p: Puzzle) returns (out: Outcome)
    ensures out.Solved? ==> exists ps :: Solves(p.Model(), ps) && out.result == ResultOf(Run(p.Model(), ps).value)
    ensures out.Solved? ==> forall ps :: Solves(p.Model(), ps) ==> out.result.num <= |p.buttonsPressed| + |ps|
    ensures out.Unsolvable? <==> forall ps :: !Solves(p.Model(), ps)
  {
    ghost var s0 := p.Model();
    var puzzlesToCheck := [p];
    var viewedPuzzles: seq<Puzzle> := [];
    ghost var states, paths := [s0], [[]];
    ghost var vb: seq<Board> := [];
    ghost var seen: set<Board> := {};
    SearchStart(p);
    var i := 0;
    while i < |puzzlesToCheck|
      invariant p.Model() == s0
      invariant Searching(s0, puzzlesToCheck, viewedPuzzles, states, paths, vb, seen, i)
      invariant |seen| <= Pow2(|s0.board|)
      decreases Pow2(|s0.board|) - |seen|, |puzzlesToCheck| - i
    {
      ghost var paths0 := paths;
      var found;
      found, puzzlesToCheck, viewedPuzzles, states, paths, vb, seen :=
        Visit(puzzlesToCheck, viewedPuzzles, i, s0, states, paths, vb, seen);
      if found.Some? {
        out := Solved(found.value);
        assert Solves(p.Model(), paths0[i]);
        return;
      }
      i := i + 1;
    }
    ExhaustedIsUnsolvable(s0, states);
    out := Unsolvable;
  }
}
