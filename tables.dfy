/** Table-level primitives the calendar code relies on: the error-carrying
    result of a query, row selection by a boolean mask, and reads from a
    dictionary whose missing keys stand for a default value. */
module Tables {

  /** The outcome of a query over a feed: a value, or the message of the
      assertion that aborted it. */
  datatype Result<T> = Success(value: T) | Failure(error: string) {
    predicate IsFailure() { Failure? }

    function PropagateFailure<U>(): Result<U>
      requires Failure?
    {
      Failure(error)
    }

    function Extract(): T
      requires Success?
    {
      value
    }
  }

  /** The rows of a table for which a mask holds, in their original order
      (a DataFrame indexed by a boolean Series). */
  function Where<T(!new)>(rows: seq<T>, keep: T -> bool): (kept: seq<T>)
    ensures |kept| <= |rows|
    ensures forall x :: x in kept <==> x in rows && keep(x)
    ensures forall x :: multiset(kept)[x] == if keep(x) then multiset(rows)[x] else 0
  {
    if rows == [] then []
    else
      assert rows == [rows[0]] + rows[1..];
      (if keep(rows[0]) then [rows[0]] else []) + Where(rows[1..], keep)
  }

  /** The positions of the rows a mask holds for. */
  ghost function Positions<T>(rows: seq<T>, keep: T -> bool): set<int>
  {
    set i | 0 <= i < |rows| && keep(rows[i])
  }

  /** Every position moved one row down. */
  ghost function Shifted(positions: set<int>): (moved: set<int>)
    ensures forall i :: i in moved <==> i - 1 in positions
  {
    set i | i in positions :: i + 1
  }

  /** Moving every position one row down keeps their number. */
  lemma {:induction false} ShiftedCount(positions: set<int>)
    ensures |Shifted(positions)| == |positions|
    decreases |positions|
  {
    if positions != {} {
      var x := ElementOf(positions);
      var rest := positions - {x};
      ShiftedCount(rest);
      assert Shifted(positions) == Shifted(rest) + {x + 1};
    }
  }

  /** The positions of the rows are the first one, if the mask holds for
      it, and the positions of the rest moved one row down. */
  lemma PositionsStep<T>(rows: seq<T>, keep: T -> bool)
    requires rows != []
    ensures Positions(rows, keep) == (if keep(rows[0]) then {0} else {}) + Shifted(Positions(rows[1..], keep))
  {
    var tail := rows[1..];
    forall i ensures i in Positions(rows, keep) <==> (i == 0 && keep(rows[0])) || i - 1 in Positions(tail, keep) {
      if 1 <= i < |rows| {
        assert rows[i] == tail[i - 1];
      }
    }
  }

  /** Selecting rows keeps one row per position the mask holds for, so
      repeated rows are all kept. */
  lemma {:induction false} WhereKeepsEveryPosition<T(!new)>(rows: seq<T>, keep: T -> bool)
    ensures |Where(rows, keep)| == |Positions(rows, keep)|
  {
    if rows != [] {
      var tail := rows[1..];
      WhereKeepsEveryPosition(tail, keep);
      ShiftedCount(Positions(tail, keep));
      PositionsStep(rows, keep);
      var shifted := Shifted(Positions(tail, keep));
      assert 0 !in shifted;
      assert |Where(rows, keep)| == (if keep(rows[0]) then 1 else 0) + |Where(tail, keep)|;
    }
  }

  /** Reading a key of a `defaultdict(set)`: a missing key reads as the empty set. */
  function Lookup<K, V>(m: map<K, set<V>>, k: K): set<V>
  {
    if k in m then m[k] else {}
  }

  /** Reading a key of a `defaultdict(int)`: a missing key reads as zero. */
  function Tally<K>(m: map<K, int>, k: K): int
  {
    if k in m then m[k] else 0
  }

  /** Some element of a non-empty set: the next key an iteration over a
      dictionary visits. The model promises nothing about the order. */
  method Choose<T>(s: set<T>) returns (x: T)
    requires s != {}
    ensures x in s
  {
    x :| x in s;
  }

  /** Some element of a non-empty set, for proofs: the ghost twin of
      `Choose`, which lemmas cannot call. */
  lemma ElementOf<T>(s: set<T>) returns (x: T)
    requires s != {}
    ensures x in s
  {
    x :| x in s;
  }

  /** Some key under which a map holds a value it holds, for proofs. */
  lemma KeyOf<K, V>(m: map<K, V>, v: V) returns (k: K)
    requires v in m.Values
    ensures k in m && m[k] == v
  {
    k :| k in m && m[k] == v;
  }
}
