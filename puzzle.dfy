/** One puzzle object: a button array that presses update in place, and the
    list of presses made so far. */
module Puzzles {
  import opened Buttons

  class Puzzle {
    /** The board; several puzzles may share one array, as the source's lists do. */
    var buttons: array<Button>
    /** The move history, in press order. */
    var buttonsPressed: seq<Move>

    /** The puzzle as a value. */
    ghost function Model(): State
      reads this, buttons
    {
      State(buttons[..], buttonsPressed)
    }

    /** A blank puzzle: no buttons, no history. */
    constructor Blank()
      ensures fresh(buttons) && Model() == State([], [])
    {
      buttons := new Button[0];
      buttonsPressed := [];
    }

    /** A puzzle over the given board (shared, not copied) with no history. */
    constructor FromButtons(arr: array<Button>)
      ensures buttons == arr && buttonsPressed == []
    {
      buttons := arr;
      buttonsPressed := [];
    }

    /** A puzzle over the given board and history (both shared, not copied). */
    constructor WithHistory(arr: array<Button>, pressedList: seq<Move>)
      ensures buttons == arr && buttonsPressed == pressedList
    {
      buttons := arr;
      buttonsPressed := pressedList;
    }

    /** A puzzle that shares the board of `p`. */
    constructor Copy(p: Puzzle)
      ensures buttons == p.buttons && buttonsPressed == p.buttonsPressed
    {
      buttons := p.buttons;
      buttonsPressed := p.buttonsPressed;
    }

    /** Append a button; the list grows into a new array. */
    method AddButton(b: Button)
      modifies this
      ensures fresh(buttons)
      ensures buttons[..] == old(buttons[..]) + [b] && buttonsPressed == old(buttonsPressed)
    {
      var n := buttons.Length;
      var grown := new Button[n + 1];
      var k := 0;
      while k < n
        modifies grown
        invariant 0 <= k <= n
        invariant grown[..k] == buttons[..k]
      {
        grown[k] := buttons[k];
        k := k + 1;
      }
      grown[n] := b;
      assert grown[..] == grown[..n] + [b];
      buttons := grown;
    }

    /** A button is pushable when it is on (see PushableIffChanges: pushing
        exactly these changes the puzzle). */
    function IsButtonPushable(i: nat): (r: bool)
      reads this, buttons
      requires i < buttons.Length
      ensures r <==> Pushable(Model().board, i)
    {
      buttons[i].on
    }

    /** Push button `i`: nothing happens when it does not exist or is off;
        otherwise it is recorded in the history and every button sharing its
        colour or its shape is toggled in place. */
    method PushButton(i: nat)
      modifies this, buttons
      ensures buttons == old(buttons)
      ensures Model() == Press(old(Model()), i)
      ensures GetMoveNum() == old(GetMoveNum()) + (if Pushable(old(buttons[..]), i) then 1 else 0)
    {
      if i >= buttons.Length {
        // the source reports "Button does not exist" on the console
        return;
      }
      ghost var original := buttons[..];
      var b := buttons[i];
      if IsButtonPushable(i) {
        buttonsPressed := buttonsPressed + [MoveOf(b)];
        var j := 0;
        while j < buttons.Length
          modifies buttons
          invariant 0 <= j <= buttons.Length
          invariant forall k :: 0 <= k < j ==>
                      buttons[k] == if ButtonMatches(original[k], b) then Toggled(original[k]) else original[k]
          invariant forall k :: j <= k < buttons.Length ==> buttons[k] == original[k]
        {
          var bT := buttons[j];
          if ButtonMatches(bT, b) {
            buttons[j] := bT.(on := ToggleState(bT.on));
          }
          j := j + 1;
        }
        assert buttons[..] == ToggleMatching(original, b);
      }
    }

    /** The number of presses made so far. */
    function GetMoveNum(): (n: nat)
      reads this, buttons
      ensures n == |Model().history|
    {
      |buttonsPressed|
    }

    /** The history as text, one "[colour shape] " per press. */
    method GetMoveList() returns (out: string)
      ensures out == RenderMoves(buttonsPressed)
    {
      out := "";
      var k := 0;
      while k < |buttonsPressed|
        invariant 0 <= k <= |buttonsPressed|
        invariant out == RenderMoves(buttonsPressed[..k])
      {
        var b := buttonsPressed[k];
        assert buttonsPressed[..k + 1][..k] == buttonsPressed[..k];
        out := out + "[" + b.colour + " " + b.shape + "] ";
        k := k + 1;
      }
      assert buttonsPressed[..k] == buttonsPressed;
    }

    /** The board hash, for the string hash `sh`; the history does not enter it. */
    method HashCode(sh: string -> int) returns (hash: int)
      ensures hash == BoardHash(sh, buttons[..])
    {
      var prime, prime2, prime3 := 17, 23, 29;
      hash := 57;
      var k := 0;
      while k < buttons.Length
        invariant 0 <= k <= buttons.Length
        invariant hash == BoardHash(sh, buttons[..k])
      {
        var arr := buttons[k];
        assert buttons[..k + 1][..k] == buttons[..k];
        hash := prime * hash + sh(arr.colour) + prime2 * sh(arr.shape) + prime3 * sh(StateText(arr.on));
        k := k + 1;
      }
      assert buttons[..k] == buttons[..];
    }

    /** Puzzles are equal when their boards are; histories are ignored. */
    method Equals(obj: Puzzle) returns (r: bool)
      ensures r <==> BoardsEqual(obj.buttons[..], buttons[..])
    {
      r := AreArraysEqual(obj.buttons);
    }

    /** Compare a board with this one: same length and equal buttons index by index. */
    method AreArraysEqual(a: array<Button>) returns (r: bool)
      ensures r <==> |a[..]| == |buttons[..]| && forall k :: 0 <= k < a.Length ==> a[k] == buttons[k]
    {
      if a.Length == buttons.Length {
        var i := 0;
        while i < a.Length
          invariant 0 <= i <= a.Length
          invariant forall k :: 0 <= k < i ==> a[k] == buttons[k]
        {
          if !AreButtonsEqual(a[i], buttons[i]) {
            return false;
          }
          i := i + 1;
        }
        return true;
      } else {
        return false;
      }
    }
  }
}
