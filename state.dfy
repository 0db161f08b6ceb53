/** The puzzle state: tubes of coloured balls, the legal moves between them,
    and the operations of the solver's State class. */
module Puzzle {
  import opened Wrappers
  import opened Colors
  import TubeOrder

  /** A tube holds at most this many balls; a colour is complete at this count. */
  const Capacity := 4

  /** A tube's balls from the bottom (index 0) to the top (last index). */
  type Tube = seq<Color>

  /** A snapshot of all tubes. Being a value, it cannot be changed through
      the sequence it was built from, nor by any operation applied to it. */
  datatype State = State(tubes: seq<Tube>)

  /** Take the top ball of tube fromIndex and put it on tube toIndex. */
  datatype Move = Move(fromIndex: int, toIndex: int)

  /** The exception raised when a ball is not one of the colour codes. */
  datatype ValueError = ValueError(message: string)

  /** Where a ball sits in the raw input: its tube and its place in that tube. */
  datatype Position = Position(tube: nat, ball: nat)

  // ---------------------------------------------------------------------------
  // Construction
  // ---------------------------------------------------------------------------

  predicate ValidBalls(raw: seq<string>)
  {
    forall j :: 0 <= j < |raw| ==> Parse(raw[j]).Some?
  }

  predicate AllValid(raw: seq<seq<string>>)
  {
    forall i :: 0 <= i < |raw| ==> ValidBalls(raw[i])
  }

  /** p is the first ball, tube by tube and bottom to top, that is not a colour code. */
  predicate FirstInvalid(raw: seq<seq<string>>, p: Position)
  {
    && p.tube < |raw| && p.ball < |raw[p.tube]|
    && Parse(raw[p.tube][p.ball]).None?
    && (forall i :: 0 <= i < p.tube ==> ValidBalls(raw[i]))
    && ValidBalls(raw[p.tube][..p.ball])
  }

  /** The codes of a tube's balls. */
  function Codes(t: Tube): (r: seq<string>)
  {
    seq(|t|, j requires 0 <= j < |t| => Code(t[j]))
  }

  /** The tubes written out as codes, the form the constructor receives. */
  function Raw(ts: seq<Tube>): (r: seq<seq<string>>)
  {
    seq(|ts|, i requires 0 <= i < |ts| => Codes(ts[i]))
  }

  /** Reads one tube, or reports the index of its first ball that is not a colour code. */
  function ParseTube(raw: seq<string>): (r: Result<Tube, nat>)
    ensures r.Success? <==> ValidBalls(raw)
    ensures r.Success? ==> Codes(r.value) == raw
    ensures r.Failure? ==> r.error < |raw| && Parse(raw[r.error]).None? && ValidBalls(raw[..r.error])
  {
    if raw == [] then Success([])
    else
      match Parse(raw[0])
      case None => Failure(0)
      case Some(c) =>
        match ParseTube(raw[1..])
        case Success(t) => Success([c] + t)
        case Failure(j) =>
          assert raw[..j + 1] == [raw[0]] + raw[1..][..j];
          Failure(j + 1)
  }

  /** Reads all tubes, or reports the first ball that is not a colour code. */
  function ParseTubes(raw: seq<seq<string>>): (r: Result<seq<Tube>, Position>)
    ensures r.Success? <==> AllValid(raw)
    ensures r.Success? ==> Raw(r.value) == raw
    ensures r.Failure? ==> FirstInvalid(raw, r.error)
  {
    if raw == [] then Success([])
    else
      match ParseTube(raw[0])
      case Failure(j) => Failure(Position(0, j))
      case Success(t) =>
        match ParseTubes(raw[1..])
        case Success(ts) =>
          assert Raw([t] + ts) == [Codes(t)] + Raw(ts);
          assert raw == [raw[0]] + raw[1..];
          Success([t] + ts)
        case Failure(p) => Failure(Position(p.tube + 1, p.ball))
  }

  /** State(tubes): copies the tubes and raises ValueError("Invalid color: <ball>")
      naming the first ball that is not one of the fifteen codes. */
  function Make(raw: seq<seq<string>>): (r: Result<State, ValueError>)
    ensures r.Success? <==> AllValid(raw)
    ensures r.Success? ==> Raw(r.value.tubes) == raw
    ensures r.Failure? ==> exists p :: FirstInvalid(raw, p)
                            && r.error == ValueError("Invalid color: " + raw[p.tube][p.ball])
  {
    match ParseTubes(raw)
    case Success(ts) => Success(State(ts))
    case Failure(p) => Failure(ValueError("Invalid color: " + raw[p.tube][p.ball]))
  }

  lemma RawInjective(a: seq<Tube>, b: seq<Tube>)
    requires Raw(a) == Raw(b)
    ensures a == b
  {
    assert |a| == |Raw(a)|;
    forall i | 0 <= i < |a| ensures a[i] == b[i] {
      assert Codes(a[i]) == Raw(a)[i];
      assert |a[i]| == |Codes(a[i])| == |Codes(b[i])|;
      forall j | 0 <= j < |a[i]| ensures a[i][j] == b[i][j] {
        assert Codes(a[i])[j] == Codes(b[i])[j];
        CodeInjective(a[i][j], b[i][j]);
      }
    }
  }

  /** Building a state from its own codes succeeds and gives back that state. */
  lemma MakeRaw(s: State)
    ensures Make(Raw(s.tubes)) == Success(s)
  {
    var raw := Raw(s.tubes);
    forall i, j | 0 <= i < |raw| && 0 <= j < |raw[i]| ensures Parse(raw[i][j]).Some? {
      assert raw[i][j] == Code(s.tubes[i][j]);
      ParseCode(s.tubes[i][j]);
    }
    RawInjective(Make(raw).value.tubes, s.tubes);
  }

  // ---------------------------------------------------------------------------
  // Balls and the solved condition
  // ---------------------------------------------------------------------------

  /** All balls in the tubes, with their multiplicities (the colour Counter). */
  function Balls(ts: seq<Tube>): (m: multiset<Color>)
  {
    if ts == [] then multiset{} else Balls(ts[..|ts| - 1]) + multiset(ts[|ts| - 1])
  }

  /** A full tube whose balls all have one colour. */
  predicate Uniform(t: Tube)
  {
    |t| == Capacity && forall j :: 0 <= j < |t| ==> t[j] == t[0]
  }

  /** Every tube is empty or full of one colour, and every colour present has
      exactly Capacity balls. */
  predicate Solved(s: State)
  {
    && (forall i :: 0 <= i < |s.tubes| ==> s.tubes[i] == [] || Uniform(s.tubes[i]))
    && (forall c :: c in Balls(s.tubes) ==> Balls(s.tubes)[c] == Capacity)
  }

  /** The Counter of ball colours: one increment per ball, tube by tube. */
  method CountColors(s: State) returns (counts: multiset<Color>)
    ensures counts == Balls(s.tubes)
  {
    counts := multiset{};
    for i := 0 to |s.tubes|
      invariant counts == Balls(s.tubes[..i])
    {
      var tube := s.tubes[i];
      for j := 0 to |tube|
        invariant counts == Balls(s.tubes[..i]) + multiset(tube[..j])
      {
        assert tube[..j + 1] == tube[..j] + [tube[j]];
        counts := counts + multiset{tube[j]};
      }
      assert s.tubes[..i + 1][..i] == s.tubes[..i];
      assert tube[..|tube|] == tube;
    }
    assert s.tubes[..|s.tubes|] == s.tubes;
  }

  /** The solved property: count the balls of each colour, check each tube,
      then check each count. */
  method IsSolved(s: State) returns (solved: bool)
    ensures solved == Solved(s)
  {
    var counts := CountColors(s);

    for i := 0 to |s.tubes|
      invariant forall k :: 0 <= k < i ==> s.tubes[k] == [] || Uniform(s.tubes[k])
    {
      var tube := s.tubes[i];
      if tube == [] {
        continue;
      }
      if |tube| != Capacity || !(forall j :: 0 <= j < |tube| ==> tube[j] == tube[0]) {
        return false;
      }
    }

    var colors := set c | c in counts;
    while colors != {}
      invariant colors <= set c | c in counts
      invariant forall c :: c in counts && c !in colors ==> counts[c] == Capacity
      decreases |colors|
    {
      var c :| c in colors;
      if counts[c] != Capacity {
        return false;
      }
      colors := colors - {c};
    }
    return true;
  }

  lemma {:induction false} BallsHas(ts: seq<Tube>, i: nat, c: Color)
    requires i < |ts|
    ensures Balls(ts)[c] >= multiset(ts[i])[c]
  {
    if i < |ts| - 1 {
      BallsHas(ts[..|ts| - 1], i, c);
    }
  }

  lemma {:induction false} BallsHasTwo(ts: seq<Tube>, i: nat, k: nat, c: Color)
    requires i < k < |ts|
    ensures Balls(ts)[c] >= multiset(ts[i])[c] + multiset(ts[k])[c]
  {
    if k < |ts| - 1 {
      BallsHasTwo(ts[..|ts| - 1], i, k, c);
    } else {
      BallsHas(ts[..|ts| - 1], i, c);
    }
  }

  /** In a solved state no two non-empty tubes hold the same colour. */
  lemma SolvedColorsDistinct(s: State, i: nat, k: nat)
    requires Solved(s)
    requires i < k < |s.tubes| && s.tubes[i] != [] && s.tubes[k] != []
    ensures s.tubes[i][0] != s.tubes[k][0]
  {
    var a, b := s.tubes[i], s.tubes[k];
    if a[0] == b[0] {
      assert Uniform(a) && Uniform(b);
      assert a == [a[0], a[0], a[0], a[0]];
      assert b == [a[0], a[0], a[0], a[0]];
      BallsHasTwo(s.tubes, i, k, a[0]);
      assert false;
    }
  }

  // ---------------------------------------------------------------------------
  // Moves
  // ---------------------------------------------------------------------------

  function Top(t: Tube): (c: Color)
    requires t != []
  {
    t[|t| - 1]
  }

  /** Every tube holds at most Capacity balls. */
  predicate Bounded(s: State)
  {
    forall i :: 0 <= i < |s.tubes| ==> |s.tubes[i]| <= Capacity
  }

  /** A move the puzzle allows: two different tubes, a non-empty source, and
      a destination that is not full and is empty or shows the same top colour. */
  predicate Legal(s: State, m: Move)
  {
    && 0 <= m.fromIndex < |s.tubes| && 0 <= m.toIndex < |s.tubes|
    && m.fromIndex != m.toIndex
    && s.tubes[m.fromIndex] != []
    && |s.tubes[m.toIndex]| < Capacity
    && (s.tubes[m.toIndex] == [] || Top(s.tubes[m.toIndex]) == Top(s.tubes[m.fromIndex]))
  }

  /** Listing order: by source tube, then by destination tube. */
  predicate Precedes(a: Move, b: Move)
  {
    a.fromIndex < b.fromIndex || (a.fromIndex == b.fromIndex && a.toIndex < b.toIndex)
  }

  /** a * b by repeated addition, which keeps counting bounds linear. */
  function Times(a: nat, b: nat): (p: nat)
  {
    if a == 0 then 0 else Times(a - 1, b) + b
  }

  /** The moves property: every legal move exactly once, by source then destination. */
  method Moves(s: State) returns (ms: seq<Move>)
    ensures forall k :: 0 <= k < |ms| ==> Legal(s, ms[k])
    ensures forall m :: Legal(s, m) ==> m in ms
    ensures forall k, l :: 0 <= k < l < |ms| ==> Precedes(ms[k], ms[l])
    ensures |ms| <= Times(|s.tubes|, |s.tubes|)
  {
    ms := [];
    var n := |s.tubes|;
    ghost var bound := 0;
    for src := 0 to n
      invariant forall k :: 0 <= k < |ms| ==> Legal(s, ms[k]) && ms[k].fromIndex < src
      invariant forall m :: Legal(s, m) && m.fromIndex < src ==> m in ms
      invariant forall k, l :: 0 <= k < l < |ms| ==> Precedes(ms[k], ms[l])
      invariant bound == Times(src, n) && |ms| <= bound
    {
      var fromTube := s.tubes[src];
      if fromTube != [] {
        for dst := 0 to n
          invariant forall k :: 0 <= k < |ms| ==> Legal(s, ms[k])
          invariant forall k :: 0 <= k < |ms| ==> Precedes(ms[k], Move(src, dst))
          invariant forall m :: Legal(s, m) && Precedes(m, Move(src, dst)) ==> m in ms
          invariant forall k, l :: 0 <= k < l < |ms| ==> Precedes(ms[k], ms[l])
          invariant |ms| <= bound + dst
        {
          var toTube := s.tubes[dst];
          if src == dst || |toTube| >= Capacity {
            continue;
          }
          if toTube == [] || toTube[|toTube| - 1] == fromTube[|fromTube| - 1] {
            ms := ms + [Move(src, dst)];
          }
        }
      }
      bound := bound + n;
    }
  }

  /** Python accepts indices from -n to n - 1; negative ones count from the end. */
  predicate InRange(i: int, n: int)
  {
    -n <= i < n
  }

  function Norm(i: int, n: nat): (k: nat)
    requires InRange(i, n)
    ensures k < n && (0 <= i ==> k == i)
  {
    if i < 0 then i + n else i
  }

  /** What apply_move needs in order not to raise IndexError. */
  predicate CanApply(s: State, m: Move)
  {
    && InRange(m.fromIndex, |s.tubes|) && InRange(m.toIndex, |s.tubes|)
    && s.tubes[Norm(m.fromIndex, |s.tubes|)] != []
  }

  /** The new state after popping the source's top ball and appending it to the
      destination; the receiver is a value and stays as it was. */
  function ApplyMove(s: State, m: Move): (r: State)
    requires CanApply(s, m)
    ensures |r.tubes| == |s.tubes|
  {
    var n := |s.tubes|;
    var f, t := Norm(m.fromIndex, n), Norm(m.toIndex, n);
    var source := s.tubes[f];
    var ball := source[|source| - 1];
    var popped := s.tubes[f := source[..|source| - 1]];
    State(popped[t := popped[t] + [ball]])
  }

  /** What a move does to each tube: the source loses its top ball, the
      destination gains it on top, every other tube is unchanged; a move from a
      tube to itself changes nothing. */
  lemma ApplyMoveEffect(s: State, m: Move)
    requires CanApply(s, m)
    ensures var n := |s.tubes|;
            var f, t := Norm(m.fromIndex, n), Norm(m.toIndex, n);
            var r := ApplyMove(s, m);
            && (f == t ==> r == s)
            && (f != t ==> && r.tubes[f] == s.tubes[f][..|s.tubes[f]| - 1]
                           && r.tubes[t] == s.tubes[t] + [Top(s.tubes[f])]
                           && forall k :: 0 <= k < n && k != f && k != t ==> r.tubes[k] == s.tubes[k])
  {
    var n := |s.tubes|;
    var f, t := Norm(m.fromIndex, n), Norm(m.toIndex, n);
    var source := s.tubes[f];
    if f == t {
      assert source[..|source| - 1] + [source[|source| - 1]] == source;
      assert ApplyMove(s, m).tubes == s.tubes;
    }
  }

  lemma {:induction false} BallsUpdate(ts: seq<Tube>, i: nat, t: Tube)
    requires i < |ts|
    ensures Balls(ts[i := t]) + multiset(ts[i]) == Balls(ts) + multiset(t)
  {
    var last := |ts| - 1;
    var updated := ts[i := t];
    assert Balls(updated) == Balls(updated[..last]) + multiset(updated[last]);
    assert Balls(ts) == Balls(ts[..last]) + multiset(ts[last]);
    if i < last {
      assert updated[..last] == ts[..last][i := t];
      assert updated[last] == ts[last] && ts[..last][i] == ts[i];
      BallsUpdate(ts[..last], i, t);
      forall c ensures (Balls(updated) + multiset(ts[i]))[c] == (Balls(ts) + multiset(t))[c] {
        assert (Balls(ts[..last][i := t]) + multiset(ts[i]))[c] == (Balls(ts[..last]) + multiset(t))[c];
      }
    } else {
      assert updated[..last] == ts[..last];
    }
  }

  /** Moving a ball keeps the number of balls of every colour. */
  lemma ApplyMoveConserves(s: State, m: Move)
    requires CanApply(s, m)
    ensures Balls(ApplyMove(s, m).tubes) == Balls(s.tubes)
  {
    var n := |s.tubes|;
    var f, t := Norm(m.fromIndex, n), Norm(m.toIndex, n);
    var source := s.tubes[f];
    var ball := source[|source| - 1];
    var rest := source[..|source| - 1];
    var popped := s.tubes[f := rest];
    var r := ApplyMove(s, m);
    ApplyMoveEffect(s, m);
    if f != t {
      assert multiset(source) == multiset(rest) + multiset{ball} by {
        assert source == rest + [ball];
      }
      BallsUpdate(s.tubes, f, rest);
      assert popped[t] == s.tubes[t];
      BallsUpdate(popped, t, popped[t] + [ball]);
      assert r.tubes == popped[t := popped[t] + [ball]];
      assert multiset(popped[t] + [ball]) == multiset(popped[t]) + multiset{ball};
      forall c ensures Balls(r.tubes)[c] == Balls(s.tubes)[c] {
        assert (Balls(popped) + multiset(source))[c] == (Balls(s.tubes) + multiset(rest))[c];
        assert (Balls(r.tubes) + multiset(popped[t]))[c] == (Balls(popped) + multiset(popped[t] + [ball]))[c];
      }
    }
  }

  /** A legal move keeps every tube within capacity. */
  lemma ApplyMoveBounded(s: State, m: Move)
    requires Legal(s, m) && Bounded(s)
    ensures Bounded(ApplyMove(s, m))
  {
  }

  // ---------------------------------------------------------------------------
  // Equivalence and conversions
  // ---------------------------------------------------------------------------

  /** Same tubes, possibly in a different order: the tubes' sorted lists agree. */
  predicate EquivalentTo(a: State, b: State)
  {
    TubeOrder.Sort(a.tubes) == TubeOrder.Sort(b.tubes)
  }

  /** Equivalence is exactly equality of the multisets of tubes. */
  lemma EquivalentIff(a: State, b: State)
    ensures EquivalentTo(a, b) <==> multiset(a.tubes) == multiset(b.tubes)
  {
    TubeOrder.SortEqualIff(a.tubes, b.tubes);
  }

  lemma EquivalentReflexiveSymmetric(a: State, b: State)
    ensures EquivalentTo(a, a)
    ensures EquivalentTo(a, b) ==> EquivalentTo(b, a)
  {
  }

  lemma EquivalentTransitive(a: State, b: State, c: State)
    requires EquivalentTo(a, b) && EquivalentTo(b, c)
    ensures EquivalentTo(a, c)
  {
  }

  /** Exchanging two tubes gives an equivalent state. */
  lemma EquivalentAfterSwap(s: State, i: nat, k: nat)
    requires i < |s.tubes| && k < |s.tubes|
    ensures EquivalentTo(s, State(s.tubes[i := s.tubes[k]][k := s.tubes[i]]))
  {
    var ts := s.tubes;
    var once := ts[i := ts[k]];
    var swapped := once[k := ts[i]];
    assert multiset(once) == multiset(ts) - multiset{ts[i]} + multiset{ts[k]};
    assert multiset(swapped) == multiset(once) - multiset{once[k]} + multiset{ts[i]};
    EquivalentIff(s, State(swapped));
  }

  /** A tube's codes run together, as "".join(tube). */
  function Join(t: Tube): (r: string)
    ensures |r| == 2 * |t|
  {
    if t == [] then "" else Code(t[0]) + Join(t[1..])
  }

  /** Reads a joined string back into balls, two characters at a time. */
  function Split(r: string): (t: Option<Tube>)
    decreases |r|
  {
    if r == [] then Some([])
    else if |r| < 2 then None
    else
      match (Parse(r[..2]), Split(r[2..]))
      case (Some(c), Some(t)) => Some([c] + t)
      case _ => None
  }

  lemma {:induction false} SplitJoin(t: Tube)
    ensures Split(Join(t)) == Some(t)
  {
    if t != [] {
      var r := Join(t);
      assert r[..2] == Code(t[0]);
      assert r[2..] == Join(t[1..]);
      ParseCode(t[0]);
      SplitJoin(t[1..]);
      assert t == [t[0]] + t[1..];
    }
  }

  /** to_list: one string per tube; each string holds that tube's balls in order. */
  function ToList(s: State): (r: seq<string>)
    ensures |r| == |s.tubes|
    ensures forall i :: 0 <= i < |r| ==> Split(r[i]) == Some(s.tubes[i])
  {
    var r := seq(|s.tubes|, i requires 0 <= i < |s.tubes| => Join(s.tubes[i]));
    assert forall i :: 0 <= i < |r| ==> Split(r[i]) == Some(s.tubes[i]) by {
      forall i | 0 <= i < |r| ensures Split(r[i]) == Some(s.tubes[i]) {
        SplitJoin(s.tubes[i]);
      }
    }
    r
  }

  function Reversed<T>(t: seq<T>): (r: seq<T>)
  {
    seq(|t|, j requires 0 <= j < |t| => t[|t| - 1 - j])
  }

  /** Each tube listed top first, turned bottom first. */
  function BottomUp(raw: seq<seq<string>>): (r: seq<seq<string>>)
  {
    seq(|raw|, i requires 0 <= i < |raw| => Reversed(raw[i]))
  }

  /** from_top_down: each tube is listed top first; it is reversed and built as
      a state, failing as the constructor does. */
  function FromTopDown(raw: seq<seq<string>>): (r: Result<State, ValueError>)
    ensures r.Success? <==> AllValid(raw)
    ensures r.Success? ==> |r.value.tubes| == |raw|
    ensures r.Success? ==> forall i :: 0 <= i < |raw| ==> Reversed(Codes(r.value.tubes[i])) == raw[i]
    ensures r.Failure? ==> exists p :: FirstInvalid(BottomUp(raw), p)
                            && r.error == ValueError("Invalid color: " + BottomUp(raw)[p.tube][p.ball])
  {
    var bottomUp := BottomUp(raw);
    assert AllValid(bottomUp) <==> AllValid(raw) by {
      if AllValid(raw) {
        forall i, j | 0 <= i < |bottomUp| && 0 <= j < |bottomUp[i]| ensures Parse(bottomUp[i][j]).Some? {
          assert bottomUp[i][j] == raw[i][|raw[i]| - 1 - j];
        }
      }
      if AllValid(bottomUp) {
        forall i, j | 0 <= i < |raw| && 0 <= j < |raw[i]| ensures Parse(raw[i][j]).Some? {
          assert raw[i][j] == bottomUp[i][|raw[i]| - 1 - j];
        }
      }
    }
    var r := Make(bottomUp);
    assert r.Success? ==> forall i :: 0 <= i < |raw| ==> Reversed(Codes(r.value.tubes[i])) == raw[i] by {
      if r.Success? {
        forall i | 0 <= i < |raw| ensures Reversed(Codes(r.value.tubes[i])) == raw[i] {
          assert Codes(r.value.tubes[i]) == Raw(r.value.tubes)[i] == bottomUp[i];
        }
      }
    }
    r
  }

  /** to_one_based: the same moves, in the same order, numbered from 1. */
  function ToOneBased(ms: seq<Move>): (r: seq<Move>)
    ensures |r| == |ms|
    ensures forall k :: 0 <= k < |ms| ==> r[k].fromIndex == ms[k].fromIndex + 1 && r[k].toIndex == ms[k].toIndex + 1
  {
    seq(|ms|, k requires 0 <= k < |ms| => Move(ms[k].fromIndex + 1, ms[k].toIndex + 1))
  }

  /** Legal moves, numbered from 1, name two different tubes among 1..n. */
  lemma OneBasedLegal(s: State, ms: seq<Move>)
    requires forall k :: 0 <= k < |ms| ==> Legal(s, ms[k])
    ensures forall k :: 0 <= k < |ms| ==>
              var m := ToOneBased(ms)[k];
              1 <= m.fromIndex <= |s.tubes| && 1 <= m.toIndex <= |s.tubes| && m.fromIndex != m.toIndex
  {
  }
}
