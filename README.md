# Button-pushing puzzle and its breadth-first solver

A puzzle is an ordered list of buttons. Each button has a colour, a shape and
a state, on or off. Pushing a button that is on does two things:
- it records the button's colour and shape in the puzzle's move history;
- it toggles every button that shares the pushed button's colour or its
  shape, the pushed button included.

A button that is off cannot be pushed. A puzzle is solved when every button
is off. The solver runs a level-order search. Its frontier is an append-only
list of puzzle objects, scanned with a growing index. A puzzle whose board
is already in the seen list is skipped. The first unseen puzzle that is
solved is returned as its move count and move list. Any other unseen puzzle
has its successors appended to the frontier and is added to the seen list.
Each successor is a copy of the puzzle with one pushable button pushed.

The project has four modules:
- `Buttons` (buttons.dfy) holds the values:
  - buttons, boards and the toggle rule (`Press`);
  - board equality and the board hash;
  - the rendering of a move history;
  - the finite set of boards that share one layout of colours and shapes.
- `Puzzles` (puzzle.dfy) holds the class `Puzzle`:
  - its board is an `array<Button>` that `PushButton` toggles in place;
  - its history is a sequence of moves;
  - `Model()` reads a puzzle as a value.
- `Search` (search.dfy) holds the search argument on values:
  - `Run` applies a press sequence, defining reachability;
  - the frontier predicates: ordered by move count, banded, closed under
    successors, every entry reached from the start;
  - the lemmas that a frontier with these predicates yields a shortest
    solution at its first solved entry, and no solution once it is
    exhausted.
- `Solver` (solver.dfy) holds the imperative solver over `Puzzle` objects.
  Ghost sequences mirror the frontier and the seen list as values, and the
  loop invariant `Searching` connects the objects to the `Search`
  predicates.

A solution is reported as a `Result` (Solver.java:233-240), a datatype holding the two fields of the source's class: the move count and the move text. `ResultOf` builds it from a solved state.

`SolvePuzzle` makes three promises:
- each reported result is the move count and move list of a press sequence
  that solves the input;
- no solving sequence is shorter;
- it reports `Unsolvable` exactly when no press sequence solves the input.

Termination is proved from the finite board space: a layout of n buttons has
2^n boards, and each expansion adds a new board to the seen ones.

## Behaviour of the code worth knowing

- Pushing the same button twice in a row does not restore the board. The pushed button is off afterwards, so the second push is a no-op (`PressTwice`). A toggle with the pushed button's colour and shape restores the board (`PushBoardUndone`); pushing a different button can restore it too.
- `PushButton` toggles the board array in place (Puzzle.java:104-109). `CloneFreshPuzzle` is documented as cloning a puzzle (Solver.java:224), but it shares the board array with its argument (Solver.java:229). Pushing a button of its result therefore toggles the original's board too (`PushFreshClone`). `PuzzlePermutations` alone copies the board before pushing (`PushedCopy`, Solver.java:172), and every successor it returns has fresh storage.
- The model departs from the code when no solution exists. There, `SolvePuzzle` in the source never returns: once the scan at Solver.java:87 passes the end of the frontier, the `while(true)` at Solver.java:86 restarts it, every entry is then seen (Solver.java:89), nothing is appended, and the scan repeats forever. The model returns `Unsolvable` at the end of the frontier instead (see "## Left out").

## Model

| member | source | states |
|---|---|---|
| Buttons.ButtonMatches | Puzzle.java:120-122 | two buttons match exactly when they share their colour or their shape; the state plays no part |
| Buttons.ButtonMatchesReflexiveSymmetric | Puzzle.java:120-122 | matching is reflexive and symmetric, so a pushed button always toggles itself |
| Buttons.ToggleState | Puzzle.java:129-135 | the toggled state differs from the input state |
| Buttons.ToggleStateInvolution | Puzzle.java:129-135 | toggling twice restores the state |
| Buttons.Toggled | Puzzle.java:107 | toggling a button keeps its colour and shape and flips its state |
| Buttons.ToggleMatching | Puzzle.java:104-109 | same length; a button is toggled exactly when it matches the key, all others are kept |
| Buttons.ToggleMatchingInvolution | Puzzle.java:104-109 | toggling with the same key twice restores the board |
| Buttons.ToggleMatchingCommutes | Puzzle.java:104-109 | the board after two toggles does not depend on their order |
| Buttons.PushBoard | Puzzle.java:104-109 | the layout is kept, and a button's state changes exactly when it shares colour or shape with button i |
| Buttons.Press | Puzzle.java:97-112 | a missing or off button changes nothing; otherwise one history entry with button i's colour and shape is appended, exactly the matching buttons flip, no colour, shape or length changes, and button i is off afterwards |
| Buttons.PushableIffChanges | Puzzle.java:98-103 | a push changes the puzzle exactly when the button exists and is on |
| Buttons.PressTwice | Puzzle.java:102-107 | pushing the same button again right after changes nothing |
| Buttons.PushBoardUndone | Puzzle.java:106-107 | toggling once more with the pushed button's colour and shape restores the board |
| Buttons.SolvedIffNothingPushable | Solver.java:126-135 | a board is solved exactly when no button is pushable; the empty board is solved |
| Buttons.AreButtonsEqual | Puzzle.java:200-202 | the field-wise comparison holds exactly when the buttons are equal |
| Buttons.BoardsEqual | Puzzle.java:181-192 | the length and index-wise comparison holds exactly when the boards are equal |
| Buttons.BoardsEqualIsEquivalence | Puzzle.java:56-67 | board equality is reflexive, symmetric and transitive |
| Buttons.EqualBoardsHashEqual | Puzzle.java:44-53 | equal boards have equal hashes, for every string hash |
| Buttons.RenderMovesAppend | Puzzle.java:149-155 | the text of a concatenated history is the concatenation of the texts |
| Buttons.LayoutsComplete | Solver.java:86-100 | every board with a given layout is among the layout's boards, so the search space is finite |
| Buttons.LayoutsCount | Solver.java:86-100 | a layout of n buttons has exactly 2^n boards |
| Puzzles.Puzzle.Blank | Puzzle.java:10-13 | a new puzzle has no buttons and no history |
| Puzzles.Puzzle.FromButtons | Puzzle.java:19-22 | the puzzle shares the given board and has no history |
| Puzzles.Puzzle.WithHistory | Puzzle.java:29-32 | the puzzle shares the given board and takes the given history |
| Puzzles.Puzzle.Copy | Puzzle.java:38-41 | the copy shares the board of its original and has the same history |
| Puzzles.Puzzle.AddButton | Puzzle.java:72-74 | the board becomes the old board followed by the new button; the history is kept |
| Puzzles.Puzzle.IsButtonPushable | Puzzle.java:89-91 | true exactly when button i is pushable |
| Puzzles.Puzzle.PushButton | Puzzle.java:97-112 | the puzzle, as a value, becomes `Press` of its old value, with the board updated in its own array; the move count rises by one exactly when button i exists and is on |
| Puzzles.Puzzle.GetMoveNum | Puzzle.java:161-163 | the number of history entries |
| Puzzles.Puzzle.GetMoveList | Puzzle.java:149-155 | the text is "[colour shape] " per history entry, in press order |
| Puzzles.Puzzle.HashCode | Puzzle.java:44-53 | the hash is a function of the board alone (57, then times 17 plus each button's weighted string hashes) |
| Puzzles.Puzzle.Equals | Puzzle.java:56-67 | true exactly when the two boards are equal; histories are ignored |
| Puzzles.Puzzle.AreArraysEqual | Puzzle.java:181-192 | true exactly when the lengths agree and the buttons agree index by index |
| Search.Run | Solver.java:170-173 | a run of presses keeps the layout and adds one history entry per press |
| Search.RunSnoc | Solver.java:171-173 | a run extended by a press of a button that is on ends in the pushed state |
| Search.RunRecordsPresses | Solver.java:91 | a run's history is the start history followed by the colour and shape of each pressed button, so the reported move list spells out the presses |
| Search.Covered | Solver.java:86-100 | every reachable state is held by the frontier at no greater move count, or is at least as deep as the scan's current entry |
| Search.FirstSolvedIsMinimal | Solver.java:87-91 | the first solved entry of an ordered, closed frontier has the smallest move count of any solution |
| Search.ExhaustedIsUnsolvable | Solver.java:86-101 | a frontier scanned to its end without a solved entry means no press sequence solves the start |
| Search.SkipStep | Solver.java:89 | skipping an entry whose board an earlier entry has keeps the frontier banded, closed and unsolved |
| Search.ExpandOrder | Solver.java:93-96 | appending entries one move deeper keeps the frontier ordered by move count |
| Search.ExpandClosed | Solver.java:93-96 | appending every successor of entry i keeps the frontier closed up to i + 1 |
| Search.ExpandReaches | Solver.java:93-96 | the appended successors are reached from the start by the extended paths |
| Search.FrontierStart | Solver.java:84 | the frontier holding only the start satisfies the scan invariant |
| Search.SkipFrontier | Solver.java:89 | skipping an already expanded board keeps the invariant and the expanded set |
| Search.ExpandShape | Solver.java:93-97 | expanding an unsolved entry keeps the frontier ordered, banded, closed and unsolved |
| Search.ExpandFrontier | Solver.java:93-97 | expanding an unsolved entry keeps the invariant and adds exactly its board to the expanded set |
| Solver.IsPuzzleSeen | Solver.java:110-119 | true exactly when some puzzle of the list has a board equal to p's |
| Solver.IsPuzzleSolved | Solver.java:126-135 | true exactly when no button is on |
| Solver.AddPuzzleToSeen | Solver.java:141-145 | p is added exactly when no puzzle with its board is there; afterwards its board is there; no two equal boards arise |
| Solver.AddPuzzleToSeenTwice | Solver.java:141-145 | adding a puzzle twice gives what adding it once gives |
| Solver.CloneList | Solver.java:152-160 | the copy is a fresh array, elementwise equal to the input |
| Solver.PushedCopy | Solver.java:172-173 | the copy has fresh board storage holding the pushed board and the history plus one move; since nothing old is modified, p is unchanged |
| Solver.CloneFreshPuzzle | Solver.java:228-230 | the new puzzle shares p's board array and has an empty history |
| Solver.PushFreshClone | Solver.java:228-230 | pushing a button of the clone also toggles p's board, while p's history is kept |
| Solver.KeptPushable | Solver.java:170-174 | the kept presses are pushable buttons, in increasing index order, at most one per button |
| Solver.KeptComplete | Solver.java:170-174 | every pushable button leads to the board of some kept press |
| Solver.KeptDistinct | Solver.java:174 | no two kept presses lead to the same board |
| Solver.KeptSuccessors | Solver.java:167-178 | at most one successor per button, each from a pushable button, each one move deeper |
| Solver.KeptSuccessorsComplete | Solver.java:167-178 | every board one push away is among the successors, one move deeper |
| Solver.KeptSuccessorsDistinct | Solver.java:167-178 | the successors have pairwise different boards, and there are none exactly when the board is solved |
| Solver.SeenIffDup | Solver.java:174 | a pushed copy is already in the successor list exactly when its board is among those of the kept presses |
| Solver.AddPermutation | Solver.java:171-175 | one round of the loop: the successor list grows by the pushed copy exactly when the button is on and its board is new; anything appended is a fresh puzzle with a fresh board |
| Solver.MirroredSuccessors | Solver.java:167-178 | puzzles mirroring the kept successors number at most one per button, none exactly when the board is solved, each one move deeper, with pairwise different boards |
| Solver.PuzzlePermutations | Solver.java:167-178 | the successors are, in order, the pushed copies of p for the kept presses: at most one per button, none exactly when p is solved, each with p's move count plus one, no two with equal boards; each is a fresh puzzle with a fresh board, so pushing one leaves p and the others alone; p is not modified |
| Solver.SeenIffExpanded | Solver.java:110-119 | a puzzle with board x is in the seen list exactly when x was expanded before |
| Solver.SolvedAt | Solver.java:90-91 | at the first solved entry, its path solves the start and no solution is shorter |
| Solver.SeenBound | Solver.java:86-100 | the expanded boards plus the current one number at most 2^n |
| Solver.SearchStart | Solver.java:81-84 | the frontier holding only p and an empty seen list satisfy the loop invariant |
| Solver.SkipSearching | Solver.java:89 | skipping a seen puzzle keeps the loop invariant |
| Solver.ExpandSearching | Solver.java:93-97 | appending the successors and recording the puzzle as seen keeps the loop invariant; the seen boards stay within 2^n |
| Solver.ExpandStep | Solver.java:93-97 | the expansion appends to the frontier exactly the successors of the kept presses of the puzzle's board (mirrored by the new puzzle objects), adds exactly the puzzle's board to the seen ones and keeps the loop invariant |
| Solver.VisitUnseen | Solver.java:90-98 | an unseen solved puzzle is reported with a shortest solution; otherwise it is expanded and the seen boards grow |
| Solver.Visit | Solver.java:88-99 | one turn of the scan: report a shortest solution, or keep the invariant with the frontier extended only by appending |
| Solver.SolvePuzzle | Solver.java:80-102 | a reported result is a reachable solution's move count and move list; no solution is shorter; Unsolvable exactly when no solution exists |

## Left out

- Button states are `bool`. The source's string states are not modelled:
  - `toggleState` maps every string other than "true" to "true";
  - `IsButtonPushable` uses a case-insensitive parse;
  - `IsPuzzleSolved` uses a case-sensitive comparison.

  The model assumes the literals "true" and "false".
- ToggleState: states only that the state flips, because states are `bool` (see above).
- Java's `String.hashCode` is a parameter `sh` of `HashCode`. The 32-bit wrap-around of the hash is not modelled: integers are unbounded.
- The "Button does not exist" console message of `PushButton` is not modelled. The model keeps the no-op.
- Negative indices are excluded by the `nat` type; the source throws on them. `IsButtonPushable` also requires `i < buttons.Length`, where the source throws an index error on a larger index; every caller checks the bound first (Puzzle.java:98, Solver.java:170).
- `equals(Object)` is narrowed to `Puzzle` arguments. The class check on line 57 is not modelled.
- `AddButton` grows the board into a new array, where the source appends to its list. A puzzle that shares the old array (through `FromButtons`, `WithHistory`, `Copy` or `CloneFreshPuzzle`) therefore does not see the appended button. In the source, the shared list does show it.
- The history is a value (`seq<Move>`), so two puzzles never share one history list. A history entry keeps only the colour and shape, which is all that `getMoveList` reads. In the source, an entry is the pushed button's own array, whose state later toggles.
- `getArray`/`getMoveArray` become direct field reads; `toString` is not modelled.
- The static fields `puzzlesToCheck` and `viewedPuzzles` become locals of `SolvePuzzle`.
- `IsPuzzleSeen` wraps each board in a temporary `Puzzle` before comparing; the model compares the boards directly.
- The successor `HashSet` is a sequence in button index order. Among successors with equal boards, the first is kept, as `HashSet.add` does. The set's iteration order, which picks among equal-length solutions, is not modelled. Minimality does not depend on it.
- SolvePuzzle: returns `Unsolvable` once the scan passes the end of the frontier. The source's `while(true)` restarts the scan there and never returns, since every entry is then seen.
- `main`, `ReadPuzzle`, `getFileContents`, `CreatePuzzle` (file and console I/O) and `HashTest` (a print-based self-test) are not part of this model; the model takes a built puzzle.
