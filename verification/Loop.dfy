/** A loop that moves one index, turn by turn, in Go's arithmetic. Nothing forces the index forward, so
    such a loop may return, panic, or run forever; which of them is settled by its first turns. */
module Loop {
  /** Before a turn with the index at `i`, returned from, or stopped by a panic. */
  datatype State<+T> = At(i: int) | Done(result: T) | Crashed

  /** What a call amounts to in the end. */
  datatype Outcome<+T> = Returned(value: T) | Panicked | Endless {
    predicate IsFailure() { !Returned? }

    function PropagateFailure<U>(): Outcome<U>
      requires IsFailure()
    {
      if Panicked? then Panicked else Endless
    }

    function Extract(): T
      requires !IsFailure()
    {
      value
    }
  }

  function Run<T>(turn: int -> State<T>, s: State<T>, n: nat): State<T>
    decreases n
  {
    if n == 0 || !s.At? then s else Run(turn, turn(s.i), n - 1)
  }

  /** Only from an index inside the data does the loop go on to another turn. */
  ghost predicate Confined<T(!new)>(turn: int -> State<T>, bound: nat) {
    forall i :: turn(i).At? ==> 0 <= i < bound
  }

  /** The outcome, read off after one turn more than there are indices. */
  function Result<T>(turn: int -> State<T>, bound: nat): Outcome<T> {
    match Run(turn, At(0), bound + 1)
    case Done(r) => Returned(r)
    case Crashed => Panicked
    case At(_) => Endless
  }

  lemma {:induction false} RunSplit<T>(turn: int -> State<T>, s: State<T>, a: nat, b: nat)
    ensures Run(turn, s, a + b) == Run(turn, Run(turn, s, a), b)
    decreases a
  {
    if a > 0 && s.At? { RunSplit(turn, turn(s.i), a - 1, b); }
  }

  lemma StillAt<T>(turn: int -> State<T>, s: State<T>, a: nat, b: nat)
    requires a <= b && Run(turn, s, b).At?
    ensures Run(turn, s, a).At?
  {
    RunSplit(turn, s, a, b - a);
  }

  lemma {:induction false} ElementsCount(s: seq<int>)
    requires forall i, j :: 0 <= i < j < |s| ==> s[i] != s[j]
    ensures |set x | x in s| == |s|
  {
    if s != [] {
      var n := |s| - 1;
      ElementsCount(s[..n]);
      assert (set x | x in s) == (set x | x in s[..n]) + {s[n]};
    }
  }

  lemma {:induction false} BelowCount(a: set<int>, bound: nat)
    requires forall x :: x in a ==> 0 <= x < bound
    ensures |a| <= bound
  {
    if bound == 0 {
      assert forall x :: x !in a;
    } else {
      BelowCount(a - {bound - 1}, bound - 1);
    }
  }

  lemma Pigeonhole(s: seq<int>, bound: nat)
    requires |s| > bound && forall i :: 0 <= i < |s| ==> 0 <= s[i] < bound
    ensures exists i, j :: 0 <= i < j < |s| && s[i] == s[j]
  {
    if forall i, j :: 0 <= i < j < |s| ==> s[i] != s[j] {
      ElementsCount(s);
      BelowCount((set x | x in s), bound);
    }
  }

  /** A state that comes back comes back forever. */
  lemma {:induction false} CyclesForever<T>(turn: int -> State<T>, s: State<T>, a: nat, b: nat, n: nat)
    requires a < b && Run(turn, s, a) == Run(turn, s, b) && Run(turn, s, b).At?
    ensures Run(turn, s, n).At?
  {
    if n <= b {
      StillAt(turn, s, n, b);
    } else {
      RunSplit(turn, s, a, n - b);
      RunSplit(turn, s, b, n - b);
      CyclesForever(turn, s, a, b, n - (b - a));
    }
  }

  /** A confined loop ends within `bound + 1` turns or never. */
  lemma StopsOrNever<T(!new)>(turn: int -> State<T>, bound: nat, n: nat)
    requires Confined(turn, bound) && Run(turn, At(0), bound + 1).At?
    ensures Run(turn, At(0), n).At?
  {
    var start := State<T>.At(0);
    forall t: nat | t <= bound ensures Run(turn, start, t).At? && 0 <= Run(turn, start, t).i < bound {
      StillAt(turn, start, t, bound + 1);
      StillAt(turn, start, t + 1, bound + 1);
      RunSplit(turn, start, t, 1);
      assert Run(turn, Run(turn, start, t), 1) == turn(Run(turn, start, t).i);
    }
    var indices := seq(bound + 1, t requires 0 <= t <= bound => Run(turn, start, t).i);
    Pigeonhole(indices, bound);
    var a, b :| 0 <= a < b < |indices| && indices[a] == indices[b];
    CyclesForever(turn, start, a, b, n);
  }

  /** Whatever the loop does, it has done after that many turns. */
  lemma Settles<T(!new)>(turn: int -> State<T>, bound: nat, n: nat)
    requires Confined(turn, bound)
    ensures Run(turn, At(0), n).At? || Run(turn, At(0), n) == Run(turn, At(0), bound + 1)
  {
    if Run(turn, At(0), bound + 1).At? {
      StopsOrNever(turn, bound, n);
    } else if n <= bound + 1 {
      RunSplit(turn, At(0), n, bound + 1 - n);
    } else {
      RunSplit(turn, At(0), bound + 1, n - bound - 1);
    }
  }

  ghost predicate Ends<T(!new)>(turn: int -> State<T>, s: State<T>) {
    exists n: nat :: Run(turn, At(0), n) == s
  }

  /** The outcome is exact: it is a value, a panic or endlessness exactly when the loop, given enough
      turns, returns that value, panics, or never stops. */
  lemma ResultExact<T(!new)>(turn: int -> State<T>, bound: nat)
    requires Confined(turn, bound)
    ensures forall r :: Result(turn, bound) == Returned(r) <==> Ends(turn, Done(r))
    ensures Result(turn, bound) == Panicked <==> Ends(turn, Crashed)
    ensures Result(turn, bound) == Endless <==> forall n: nat :: Run(turn, At(0), n).At?
  {
    var last := Run(turn, At(0), bound + 1);
    assert Ends(turn, last);
    forall s: State<T> | Ends(turn, s) && !s.At? ensures s == last {
      var n: nat :| Run(turn, At(0), n) == s;
      Settles(turn, bound, n);
    }
    EndlessIff(turn, bound);
  }

  lemma EndlessIff<T(!new)>(turn: int -> State<T>, bound: nat)
    requires Confined(turn, bound)
    ensures Run(turn, At(0), bound + 1).At? <==> forall n: nat :: Run(turn, At(0), n).At?
  {
    if Run(turn, At(0), bound + 1).At? {
      forall n: nat ensures Run(turn, At(0), n).At? { StopsOrNever(turn, bound, n); }
    } else {
      var n: nat := bound + 1;
      assert !Run(turn, At(0), n).At?;
    }
  }
}
