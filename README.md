# Lyfoes ball-sort solver, modelled in Dafny

This project models the solver of the "Lyfoes" ball-sort puzzle
(`src/lyfoes_solver.py`) and proves properties of the model.

A puzzle state is a list of tubes. Each tube holds balls from the bottom up,
and each ball is one of fifteen colours written as two-letter codes. A move
takes the top ball of one tube and puts it on another tube. The target tube
must not be full (four balls) and must be empty or show the same top colour.
The puzzle is solved when every tube is empty or holds four balls of one
colour, and every colour present has exactly four balls.

The search has two parts:

- `_worker_solve` is a breadth-first search with a depth limit. It skips
  states whose tubes, in their stored order, it has already seen.
- `solve` is an iterative-deepening driver. Rounds run with `max_depth` 8, 13,
  …, 48. Each round runs a breadth-first prefix to depth 3. It stops early if
  that prefix meets a solved state. Otherwise the entries that reach depth 3
  become work items, but only while there are fewer than `4 * cpus` of them.
  The workers' results are scanned in work-item order. A round with no work
  item, or the end of the last round, gives up with `(initial_state, None)`.
  Because the prefix stops collecting at `4 * cpus` items, the rest of the
  depth-3 frontier is never searched in any round. The model keeps this
  behaviour as written.

Files:

- `wrappers.dfy`: `Option` and `Result`.
- `colors.dfy` (module `Colors`): the palette, the codes, and parsing a code.
- `tube_order.dfy` (module `TubeOrder`): Python's tuple ordering on tubes.
  Also an insertion sort, and the proof that sorting identifies exactly the
  permutations.
- `state.dfy` (module `Puzzle`): the `State` class.
  - The constructor and its validation, `solved`, `moves`, `apply_move`,
    `equivalent_to` and `to_list`.
  - `from_top_down` and `to_one_based`.
- `search.dfy` (module `Search`): replaying a move path, `_worker_solve` and
  `solve`. The queue loops are proved to terminate.

Modelling choices:

- A `State` is a Dafny value. The constructor's defensive copy therefore holds
  by construction: no later change to the argument can reach the state, and
  `apply_move` cannot change its receiver.
- The constructor works on the raw strings. It fails with
  `ValueError("Invalid color: <ball>")` for the first invalid ball, tube by
  tube and bottom to top. `apply_move` builds its result directly from
  colours. `MakeRaw` proves that validating the codes of any state succeeds,
  so the validation that `apply_move` triggers through `State(...)` cannot
  fail.
- `collections.Counter` is a `multiset<Color>`. A `deque` is a `seq` with
  `queue[0]` / `queue[1..]` for `popleft` and `queue + [x]` for `append`.
- The `for move in state.moves` loop is the same in `_worker_solve` (lines
  129-142) and in the prefix of `solve` (lines 171-184). It is written once,
  as `Search.Expand`, and both searches call it.
- `apply_move` raises `IndexError` when an index is out of range or the source
  tube is empty. These conditions are its precondition (`CanApply`). Negative
  indices count from the end of the list, as in Python.
- Python's `sorted` is modelled by an insertion sort under the same total
  order. Any correct sort gives the same list, because a sorted permutation
  is unique (`TubeOrder.SortedUnique`).
- The visited set is a `set<seq<seq<Color>>>`. Its key is the tube tuple in
  stored order (src/lyfoes_solver.py:121, 131, 160, 173), not the sorted form
  that `equivalent_to` compares.
- `solve` is iterative deepening that splits each round's search into work
  items (src/lyfoes_solver.py:153-198). An already solved start gives
  `(initial_state, [])` (line 150).

## Model

| member | source | states |
|---|---|---|
| `Colors.Parse` | src/lyfoes_solver.py:7-23 | a string is accepted as a colour only when it is that colour's two-letter code |
| `Colors.ParseCode` | src/lyfoes_solver.py:7-23 | every one of the fifteen codes is recognised as its own colour, so the codes are distinct |
| `Puzzle.ParseTube` | src/lyfoes_solver.py:43-46 | a tube is accepted iff all its balls are colour codes; if accepted, its colours' codes are the input; if not, it gives the index of the first invalid ball, with all earlier balls valid |
| `Puzzle.ParseTubes` | src/lyfoes_solver.py:41-46 | all tubes are accepted iff every ball is a colour code; if accepted, the result written back as codes is the input; if not, it names the first invalid ball, tube by tube and bottom to top |
| `Puzzle.Make` | src/lyfoes_solver.py:37-46 | construction succeeds iff every ball is valid, and then stores exactly the given tubes; otherwise the error is `ValueError("Invalid color: " + b)` for the first invalid ball `b` |
| `Puzzle.MakeRaw` | src/lyfoes_solver.py:37-46 | building a state from its own codes succeeds and gives that same state back |
| `Puzzle.CountColors` | src/lyfoes_solver.py:57-61 | the Counter built one ball at a time equals the multiset of all balls in all tubes |
| `Puzzle.IsSolved` | src/lyfoes_solver.py:54-75 | returns true iff every tube is empty or four balls of one colour, and every colour present has exactly four balls |
| `Puzzle.SolvedColorsDistinct` | src/lyfoes_solver.py:70-75 | in a solved state, no two non-empty tubes hold the same colour |
| `Puzzle.Moves` | src/lyfoes_solver.py:77-89 | every listed move is legal (distinct in-range tubes, non-empty source, destination below capacity and empty or same top colour); every legal move is listed; the list is strictly ordered by source, then destination; it has at most n*n entries |
| `Puzzle.ApplyMove` | src/lyfoes_solver.py:91-96 | the result has as many tubes as the receiver |
| `Puzzle.ApplyMoveEffect` | src/lyfoes_solver.py:93-95 | the source loses its top ball, the destination gains it on top, every other tube is unchanged; a move onto the same tube changes nothing |
| `Puzzle.ApplyMoveConserves` | src/lyfoes_solver.py:91-96 | the multiset of balls, and so every colour's count, is preserved |
| `Puzzle.ApplyMoveBounded` | src/lyfoes_solver.py:85-96 | a legal move from a state whose tubes hold at most four balls leads to such a state |
| `Puzzle.EquivalentIff` | src/lyfoes_solver.py:48-52 | two states are equivalent iff their tubes form the same multiset, whatever their order |
| `Puzzle.EquivalentReflexiveSymmetric` | src/lyfoes_solver.py:48-52 | equivalence is reflexive and symmetric |
| `Puzzle.EquivalentTransitive` | src/lyfoes_solver.py:48-52 | equivalence is transitive |
| `Puzzle.EquivalentAfterSwap` | src/lyfoes_solver.py:48-52 | exchanging two tubes gives an equivalent state |
| `TubeOrder.Sort` | src/lyfoes_solver.py:50-51 | the result is sorted under tuple order and is a permutation of the input |
| `TubeOrder.SortedUnique` | src/lyfoes_solver.py:50-52 | two sorted lists with the same elements are equal, so comparing sorted lists compares multisets |
| `TubeOrder.SortEqualIff` | src/lyfoes_solver.py:50-52 | two lists sort to the same list iff they are permutations of each other |
| `TubeOrder.LeTotal` | src/lyfoes_solver.py:50-51 | tuple comparison of tubes is total |
| `TubeOrder.LeAntisymmetric` | src/lyfoes_solver.py:50-51 | tubes that compare both ways are equal |
| `TubeOrder.LeTransitive` | src/lyfoes_solver.py:50-51 | tuple comparison of tubes is transitive |
| `Puzzle.SplitJoin` | src/lyfoes_solver.py:98-100 | a tube's joined codes split back into exactly that tube |
| `Puzzle.ToList` | src/lyfoes_solver.py:98-100 | one string per tube, and each string reads back as that tube's balls in order |
| `Puzzle.FromTopDown` | src/lyfoes_solver.py:103-105 | succeeds iff every ball is a colour code; then it keeps the tube count, and each tube read top-down gives back the input tube; otherwise the error names the first invalid ball of the bottom-up tubes |
| `Puzzle.ToOneBased` | src/lyfoes_solver.py:108-110 | same length and order, each index increased by one |
| `Puzzle.OneBasedLegal` | src/lyfoes_solver.py:108-110 | legal moves, numbered from one, name two different tubes among 1..n |
| `Search.ReplayAppend` | src/lyfoes_solver.py:137 | replaying a path extended by more moves is replaying the extension from where the path ends |
| `Search.ReplayConserves` | src/lyfoes_solver.py:130 | a replayed path keeps the tube count, every colour's ball count, and the four-ball bound |
| `Search.EntryStep` | src/lyfoes_solver.py:129-142 | a legal move from a queued entry gives an entry one level deeper, whose path is the old path plus that move and replays to its state |
| `Search.ExpansionShrinks` | src/lyfoes_solver.py:126-142 | at most n·n children, each weighing (n·n+1)^(k−1), together weigh less than their parent's (n·n+1)^k; this is the step by which `Expand` lowers the queue's weight |
| `Search.Expand` | src/lyfoes_solver.py:129-142 | the queue stays well formed; a returned state is solved and reached by a legal path extending the start path by 1..limit moves; with no result, the queue's weight drops |
| `Search.WorkerSolve` | src/lyfoes_solver.py:113-144 | a solved start gives (s, p) unchanged; any result is solved, its path is p followed by at most max_depth moves, and replaying those moves from s reaches it legally |
| `Search.PrefixWorkItem` | src/lyfoes_solver.py:167-169 | a prefix entry at depth 3 becomes a work item whose path replays from the initial state, with budget max_depth - 3 |
| `Search.PrefixResult` | src/lyfoes_solver.py:179-182 | a solution met in the prefix is solved, at most 3 moves long, and replays from the initial state |
| `Search.WorkerResult` | src/lyfoes_solver.py:189-196 | a worker's solution replays from the initial state and is at most max_depth moves long |
| `Search.Solve` | src/lyfoes_solver.py:147-201 | a solved start gives (initial_state, []); a None path comes with initial_state; a returned path replays legally from the initial state to the returned state, which is solved, in at most 48 moves |

## Left out

- `app.py`: cloud infrastructure definitions, with no puzzle logic.
- `main`, `print` and `json.dumps` (src/lyfoes_solver.py:199, 204-234): command-line output.
- `multiprocessing.Pool` and `pool.map` (src/lyfoes_solver.py:190-191): modelled as a sequential loop over the work items. `_worker_solve` depends only on its arguments, so the results are the same.
- `multiprocessing.cpu_count()` (src/lyfoes_solver.py:154): a parameter `cpuCount >= 1`, capped at 24.
- `Move` is a frozen dataclass (src/lyfoes_solver.py:26-31): modelled as a datatype with its two fields. It has no behaviour.
- `Puzzle.ApplyMove`: its contract gives only the tube count. The per-tube effect is stated in `ApplyMoveEffect`, because keeping it in the function's own contract made the searches too costly to verify. The `IndexError` raised for an out-of-range index or an empty source is a precondition.
- Colour codes: they are ordered by a rank table that follows Python's string order of the codes. Equivalence does not depend on which total order is used.
- The bound on `max_depth` (never above 55) is a loop invariant of `Search.Solve`, not a postcondition, because `max_depth` is a local variable.
