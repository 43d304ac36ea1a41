/** The set-once property delegate
    (pipe/src/main/java/com/udeyrishi/pipe/internal/util/ImmutableAfterSet.kt):
    a property that starts with an initial value and can be assigned once;
    every later assignment throws and changes nothing. */
module ImmutableAfterSet {
  import opened Common

  /** The delegate's two fields as a value: the current value and how many
      assignments it has accepted. */
  datatype Cell<T> = Cell(value: T, count: nat)

  /** `setValue`: a cell that already took an assignment throws
      IllegalStateException; otherwise it counts the assignment and stores
      the value. */
  function Set<T>(c: Cell<T>, v: T): (r: (Cell<T>, Outcome))
    ensures r.1.Fail? <==> c.count > 0
    ensures r.1.Fail? ==> r.1.error == IllegalState && r.0 == c
    ensures r.1.Pass? ==> r.0 == Cell(v, 1)
  {
    if c.count > 0 then (c, Fail(IllegalState)) else (Cell(v, c.count + 1), Pass)
  }

  /** The cell after a sequence of assignments, each thrown one ignored. */
  function SetAll<T>(c: Cell<T>, writes: seq<T>): Cell<T>
    decreases |writes|
  {
    if writes == [] then c else SetAll(Set(c, writes[0]).0, writes[1..])
  }

  /** Whether assignment `k` of a sequence, applied to a cell, throws. */
  function Throws<T>(c: Cell<T>, writes: seq<T>, k: nat): bool
    requires k < |writes|
  {
    Set(SetAll(c, writes[..k]), writes[k]).1.Fail?
  }

  /** The first assignment wins: a fresh cell keeps its initial value until
      the first assignment, then holds the first assigned value for good. */
  lemma {:induction false} FirstWriteWins<T>(init: T, writes: seq<T>)
    ensures SetAll(Cell(init, 0), writes) == Cell(if writes == [] then init else writes[0], if writes == [] then 0 else 1)
  {
    if writes != [] {
      TakenCellIsFrozen(Cell(writes[0], 1), writes[1..]);
    }
  }

  /** A cell that took an assignment ignores every later one. */
  lemma {:induction false} TakenCellIsFrozen<T>(c: Cell<T>, writes: seq<T>)
    requires c.count > 0
    ensures SetAll(c, writes) == c
    decreases |writes|
  {
    if writes != [] {
      TakenCellIsFrozen(c, writes[1..]);
    }
  }

  /** On a fresh cell, exactly the second and later assignments throw. */
  lemma OnlyLaterWritesThrow<T>(init: T, writes: seq<T>, k: nat)
    requires k < |writes|
    ensures Throws(Cell(init, 0), writes, k) <==> k > 0
  {
    FirstWriteWins(init, writes[..k]);
  }

  /** The delegate object: `value` and `count` are updated in place. */
  class ImmutableAfterSet<T> {
    var value: T
    var count: nat

    /** The delegate's fields as a value. */
    function View(): Cell<T>
      reads this
    {
      Cell(value, count)
    }

    constructor (initialValue: T)
      ensures View() == Cell(initialValue, 0)
    {
      value := initialValue;
      count := 0;
    }

    /** `getValue`: the stored value. */
    function Get(): T
      reads this
    {
      value
    }

    /** `setValue`: throws on a second assignment and otherwise stores the
        value. */
    method SetValue(v: T) returns (r: Outcome)
      modifies this
      ensures (View(), r) == Set(old(View()), v)
      ensures r.Fail? ==> value == old(value)
    {
      if count > 0 {
        return Fail(IllegalState);
      }
      count := count + 1;
      value := v;
      return Pass;
    }
  }
}
