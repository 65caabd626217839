/** The value side of the toggle puzzle: buttons, boards, the toggle rule, the
    board equality and hash used for deduplication, and the finite space of
    boards that share one layout of colours and shapes. */
module Buttons {

  /** A button is the triple {colour, shape, state}; the state is "true" (on,
      pushable) or "false" (off). */
  datatype Button = Button(colour: string, shape: string, on: bool)

  /** One entry of the move history: the colour and shape of a pressed button. */
  datatype Move = Move(colour: string, shape: string)

  /** A board is the ordered button list of one puzzle. */
  type Board = seq<Button>

  /** A puzzle as a value: its board and the presses that produced it. */
  datatype State = State(board: Board, history: seq<Move>)

  function MoveOf(b: Button): Move {
    Move(b.colour, b.shape)
  }

  /** Two buttons match when they share their colour or their shape; the
      state plays no part, and equal colour and shape always match. */
  function ButtonMatches(button: Button, b: Button): (r: bool)
    ensures r <==> b.colour == button.colour || b.shape == button.shape
    ensures MoveOf(button) == MoveOf(b) ==> r
  {
    button.colour == b.colour || button.shape == b.shape
  }

  /** Matching is reflexive and symmetric: a pressed button always toggles itself. */
  lemma ButtonMatchesReflexiveSymmetric(a: Button, b: Button)
    ensures ButtonMatches(a, a)
    ensures ButtonMatches(a, b) == ButtonMatches(b, a)
  {
  }

  /** The opposite state: on becomes off and off becomes on. */
  function ToggleState(state: bool): (r: bool)
    ensures r != state
  {
    !state
  }

  lemma ToggleStateInvolution(state: bool)
    ensures ToggleState(ToggleState(state)) == state
  {
  }

  /** The same button with its state flipped. */
  function Toggled(x: Button): (r: Button)
    ensures r.colour == x.colour && r.shape == x.shape && r.on != x.on
  {
    x.(on := ToggleState(x.on))
  }

  /** Flip every button of `b` that matches `key`. */
  function ToggleMatching(b: Board, key: Button): (r: Board)
    ensures |r| == |b|
    ensures forall j :: 0 <= j < |b| ==>
              r[j] == if ButtonMatches(b[j], key) then Toggled(b[j]) else b[j]
  {
    if b == [] then []
    else [if ButtonMatches(b[0], key) then Toggled(b[0]) else b[0]] + ToggleMatching(b[1..], key)
  }

  /** Two boards have the same layout when they have the same length and the
      same colour and shape at every index; only the states may differ. */
  ghost predicate SameLayout(a: Board, b: Board) {
    |a| == |b| &&
    forall j :: 0 <= j < |a| ==> a[j].colour == b[j].colour && a[j].shape == b[j].shape
  }

  /** Flipping the same key twice restores the board. */
  lemma ToggleMatchingInvolution(b: Board, key: Button)
    ensures ToggleMatching(ToggleMatching(b, key), key) == b
  {
    var once := ToggleMatching(b, key);
    var twice := ToggleMatching(once, key);
    forall j | 0 <= j < |b|
      ensures twice[j] == b[j]
    {
      assert ButtonMatches(once[j], key) == ButtonMatches(b[j], key);
    }
  }

  /** Presses commute: the final board does not depend on the order of two flips. */
  lemma ToggleMatchingCommutes(b: Board, k1: Button, k2: Button)
    ensures ToggleMatching(ToggleMatching(b, k1), k2) == ToggleMatching(ToggleMatching(b, k2), k1)
  {
    var a := ToggleMatching(ToggleMatching(b, k1), k2);
    var c := ToggleMatching(ToggleMatching(b, k2), k1);
    forall j | 0 <= j < |b|
      ensures a[j] == c[j]
    {
      assert ToggleMatching(b, k1)[j].colour == b[j].colour && ToggleMatching(b, k1)[j].shape == b[j].shape;
      assert ToggleMatching(b, k2)[j].colour == b[j].colour && ToggleMatching(b, k2)[j].shape == b[j].shape;
    }
  }

  /** A button can be pushed when it exists and is on. */
  predicate Pushable(b: Board, i: int) {
    0 <= i < |b| && b[i].on
  }

  /** The board after pushing button `i` (the gate on its state is in Press). */
  function PushBoard(b: Board, i: nat): (r: Board)
    requires i < |b|
    ensures SameLayout(r, b)
    ensures forall j :: 0 <= j < |b| ==> (r[j].on != b[j].on <==> ButtonMatches(b[j], b[i]))
  {
    ToggleMatching(b, b[i])
  }

  /** Pressing button `i` of a puzzle: a no-op when the button does not exist
      or is off; otherwise one history entry and the toggle of every button
      that shares a colour or a shape with button `i`. */
  function Press(s: State, i: nat): (r: State)
    ensures !Pushable(s.board, i) ==> r == s
    ensures SameLayout(r.board, s.board)
    ensures Pushable(s.board, i) ==>
              && r.history == s.history + [MoveOf(s.board[i])]
              && (forall j :: 0 <= j < |s.board| ==>
                    (r.board[j].on != s.board[j].on <==> ButtonMatches(s.board[j], s.board[i])))
              && !Pushable(r.board, i)
  {
    if Pushable(s.board, i) then State(PushBoard(s.board, i), s.history + [MoveOf(s.board[i])])
    else s
  }

  /** Pushing changes a puzzle exactly when the button exists and is on. */
  lemma PushableIffChanges(s: State, i: nat)
    ensures Pushable(s.board, i) <==> Press(s, i) != s
  {
    if Pushable(s.board, i) {
      assert |Press(s, i).history| == |s.history| + 1;
    }
  }

  /** A pushed button is off afterwards, so pressing it again changes nothing. */
  lemma PressTwice(s: State, i: nat)
    ensures Press(Press(s, i), i) == Press(s, i)
  {
  }

  /** Pressing with the same key twice flips the states back, even though the
      history keeps both entries. */
  lemma PushBoardUndone(b: Board, i: nat)
    requires i < |b|
    ensures ToggleMatching(PushBoard(b, i), b[i]) == b
  {
    ToggleMatchingInvolution(b, b[i]);
  }

  /** A board is solved when no button is on; an empty board is solved. */
  predicate IsSolved(b: Board) {
    forall j :: 0 <= j < |b| ==> !b[j].on
  }

  lemma SolvedIffNothingPushable(b: Board)
    ensures IsSolved(b) <==> forall j :: !Pushable(b, j)
    ensures IsSolved([])
  {
    if !IsSolved(b) {
      var j :| 0 <= j < |b| && b[j].on;
      assert Pushable(b, j);
    }
  }

  /** Button equality compares all three fields. */
  function AreButtonsEqual(a: Button, b: Button): (r: bool)
    ensures r <==> a == b
  {
    a.colour == b.colour && a.shape == b.shape && a.on == b.on
  }

  /** Board equality: same length and equal buttons index by index. */
  function BoardsEqual(a: Board, b: Board): (r: bool)
    ensures r <==> a == b
  {
    |a| == |b| && forall i :: 0 <= i < |a| ==> AreButtonsEqual(a[i], b[i])
  }

  /** Board equality is an equivalence relation. */
  lemma BoardsEqualIsEquivalence(a: Board, b: Board, c: Board)
    ensures BoardsEqual(a, a)
    ensures BoardsEqual(a, b) ==> BoardsEqual(b, a)
    ensures BoardsEqual(a, b) && BoardsEqual(b, c) ==> BoardsEqual(a, c)
  {
  }

  /** The text of a state, whose string hash enters the board hash. */
  function StateText(on: bool): string {
    if on then "true" else "false"
  }

  /** The hash of one button, for a given string hash `sh`. */
  function ButtonHash(sh: string -> int, x: Button): int {
    sh(x.colour) + 23 * sh(x.shape) + 29 * sh(StateText(x.on))
  }

  /** The board hash: start at 57 and fold each button in with factor 17. */
  function BoardHash(sh: string -> int, b: Board): int {
    if b == [] then 57 else 17 * BoardHash(sh, b[..|b| - 1]) + ButtonHash(sh, b[|b| - 1])
  }

  /** Equal boards hash equal, whatever the string hash. */
  lemma EqualBoardsHashEqual(sh: string -> int, a: Board, b: Board)
    requires BoardsEqual(a, b)
    ensures BoardHash(sh, a) == BoardHash(sh, b)
  {
  }

  /** The text of a move history: "[colour shape] " per move, in press order. */
  function RenderMoves(h: seq<Move>): string {
    if h == [] then ""
    else RenderMoves(h[..|h| - 1]) + "[" + h[|h| - 1].colour + " " + h[|h| - 1].shape + "] "
  }

  /** Rendering distributes over concatenation of histories. */
  lemma {:induction false} RenderMovesAppend(a: seq<Move>, b: seq<Move>)
    ensures RenderMoves(a + b) == RenderMoves(a) + RenderMoves(b)
    decreases |b|
  {
    if b == [] {
      assert a + b == a;
    } else {
      var b' := b[..|b| - 1];
      assert (a + b)[..|a + b| - 1] == a + b';
      assert (a + b)[|a + b| - 1] == b[|b| - 1];
      RenderMovesAppend(a, b');
    }
  }

  /** Every board with the layout of `t`: one choice of state per button. */
  ghost function Layouts(t: Board): set<Board>
    decreases |t|
  {
    if t == [] then {[]}
    else
      var rest := Layouts(t[1..]);
      (set r | r in rest :: [Button(t[0].colour, t[0].shape, true)] + r) +
      (set r | r in rest :: [Button(t[0].colour, t[0].shape, false)] + r)
  }

  /** Layouts(t) holds every board with t's layout. */
  lemma {:induction false} LayoutsComplete(t: Board, b: Board)
    requires SameLayout(b, t)
    ensures b in Layouts(t)
    decreases |t|
  {
    if t != [] {
      assert SameLayout(b[1..], t[1..]) by {
        forall j | 0 <= j < |b[1..]|
          ensures b[1..][j].colour == t[1..][j].colour && b[1..][j].shape == t[1..][j].shape
        {
          assert b[1..][j] == b[j + 1] && t[1..][j] == t[j + 1];
        }
      }
      LayoutsComplete(t[1..], b[1..]);
      assert b == [Button(t[0].colour, t[0].shape, b[0].on)] + b[1..];
    }
  }

  function Pow2(n: nat): nat {
    if n == 0 then 1 else 2 * Pow2(n - 1)
  }

  /** Prefixing a fixed button is injective, so it keeps the size of a set. */
  lemma {:induction false} PrefixImageSize(x: Button, s: set<Board>)
    ensures |set r | r in s :: [x] + r| == |s|
    decreases |s|
  {
    if s != {} {
      var e :| e in s;
      var s' := s - {e};
      PrefixImageSize(x, s');
      var image := set r | r in s :: [x] + r;
      var image' := set r | r in s' :: [x] + r;
      assert image == image' + {[x] + e};
      assert [x] + e !in image' by {
        forall r | r in s'
          ensures [x] + r != [x] + e
        {
          assert ([x] + r)[1..] == r && ([x] + e)[1..] == e;
        }
      }
    }
  }

  /** A layout of n buttons has exactly 2^n boards. */
  lemma {:induction false} LayoutsCount(t: Board)
    ensures |Layouts(t)| == Pow2(|t|)
    decreases |t|
  {
    if t != [] {
      var rest := Layouts(t[1..]);
      var onX := Button(t[0].colour, t[0].shape, true);
      var offX := Button(t[0].colour, t[0].shape, false);
      var ons := set r | r in rest :: [onX] + r;
      var offs := set r | r in rest :: [offX] + r;
      LayoutsCount(t[1..]);
      PrefixImageSize(onX, rest);
      PrefixImageSize(offX, rest);
      assert ons * offs == {} by {
        forall b | b in ons
          ensures b !in offs
        {
          assert b[0] == onX;
        }
      }
      assert Layouts(t) == ons + offs;
    }
  }
}
