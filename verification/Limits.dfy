/** uint32 arithmetic of an admission counter (limits.go:27, 59-70). */
module Counter {
  import opened Bytes

  const UNLIMITED: nat := TWO_32 - 1

  /** atomic.AddUint32(&x, 1) and atomic.AddUint32(&x, ^uint32(0)). */
  function Up(count: nat): (n: nat)
    ensures n < TWO_32
  {
    (count + 1) % TWO_32
  }

  function Down(count: nat): (n: nat)
    ensures n < TWO_32
  {
    (count + UNLIMITED) % TWO_32
  }

  lemma DownOf(x: nat)
    requires x > 0
    ensures Down(x % TWO_32) == (x - 1) % TWO_32
  {
    var q := x / TWO_32;
    assert x == TWO_32 * q + x % TWO_32;
    if x % TWO_32 == 0 {
      assert x - 1 == TWO_32 * (q - 1) + (TWO_32 - 1);
    }
  }

  lemma DownUndoesUp(count: nat)
    requires count < TWO_32
    ensures Down(Up(count)) == count && Up(Down(count)) == count
  {
  }
}

/** The admission counter (limits.go:53-70, 119-147): its operations, and their interleavings. */
module Limits {
  import opened Bytes
  import opened Counter

  class LimitCounter {
    const limit: nat
    var count: nat

    constructor (limit: nat)
      requires limit < TWO_32
      ensures Valid() && this.limit == limit && count == 0
    {
      this.limit, count := limit, 0;
    }

    ghost predicate Valid()
      reads this
    {
      limit < TWO_32 && count < TWO_32
    }

    /** Undisturbed by other goroutines, a refused increment leaves the count as it was. */
    method Inc() returns (ok: bool)
      requires Valid()
      modifies `count
      ensures Valid()
      ensures ok <==> Up(old(count)) <= limit
      ensures count == if ok then Up(old(count)) else old(count)
      ensures old(count) < TWO_32 - 1 ==> (ok <==> old(count) < limit) && (ok ==> count == old(count) + 1)
    {
      count := Up(count);
      var n := count;
      if n > limit {
        DownUndoesUp(old(count));
        Dec();
        return false;
      }
      return true;
    }

    /** One less; at zero it wraps around. */
    method Dec()
      requires Valid()
      modifies `count
      ensures Valid() && count == Down(old(count))
      ensures count == if old(count) > 0 then old(count) - 1 else TWO_32 - 1
    {
      count := Down(count);
    }
  }

  /** limitsImpl's wrappers for one kind of request: no counting at all without a limit. */
  method IncReq(l: LimitCounter) returns (ok: bool)
    requires l.Valid()
    modifies l`count
    ensures l.Valid()
    ensures ok <==> l.limit == UNLIMITED || Up(old(l.count)) <= l.limit
    ensures l.count == if ok && l.limit != UNLIMITED then Up(old(l.count)) else old(l.count)
  {
    if l.limit == UNLIMITED {
      return true;
    }
    ok := l.Inc();
  }

  method DecReq(l: LimitCounter)
    requires l.Valid()
    modifies l`count
    ensures l.Valid()
    ensures l.count == if l.limit != UNLIMITED then Down(old(l.count)) else old(l.count)
  {
    if l.limit != UNLIMITED {
      l.Dec();
    }
  }

  // ----- Any number of goroutines -------------------------------------------------------------

  /** A goroutine between its AddUint32(1) and the AddUint32(-1) that undoes it. */
  datatype Pc = Inside | BackingOut

  datatype State = State(limit: nat, count: nat, pcs: map<nat, Pc>)

  datatype Step = Add(t: nat) | Back(t: nat) | Release(t: nat)

  /** Fewer than 2^32 goroutines use the counter at a time. */
  predicate Enabled(s: State, step: Step) {
    match step
    case Add(t) => t !in s.pcs && |s.pcs| + 1 < TWO_32
    case Back(t) => t in s.pcs && s.pcs[t].BackingOut?
    case Release(t) => t in s.pcs && s.pcs[t].Inside?
  }

  function Apply(s: State, step: Step): State
    requires Enabled(s, step)
  {
    match step
    case Add(t) =>
      var n := Up(s.count);
      s.(count := n, pcs := s.pcs[t := if n > s.limit then BackingOut else Inside])
    case Back(t) => s.(count := Down(s.count), pcs := s.pcs - {t})
    case Release(t) => s.(count := Down(s.count), pcs := s.pcs - {t})
  }

  function Exec(s: State, steps: seq<Step>): Option<State>
    decreases |steps|
  {
    if steps == [] then Some(s)
    else if Enabled(s, steps[0]) then Exec(Apply(s, steps[0]), steps[1..])
    else None
  }

  function Admitted(s: State): set<nat> {
    set t | t in s.pcs && s.pcs[t].Inside?
  }

  predicate Inv(s: State) {
    s.count == |s.pcs| < TWO_32 && |Admitted(s)| <= s.limit
  }

  lemma SubsetSize(a: set<nat>, b: set<nat>)
    requires a <= b
    ensures |a| <= |b|
  {
    assert b == a + (b - a);
  }

  lemma AddInv(s: State, t: nat)
    requires Inv(s) && Enabled(s, Add(t))
    ensures Inv(Apply(s, Add(t)))
  {
    var s' := Apply(s, Add(t));
    assert |s'.pcs| == |s.pcs| + 1;
    SubsetSize(Admitted(s), s.pcs.Keys);
    if s'.pcs[t].Inside? {
      assert Admitted(s') == Admitted(s) + {t};
    } else {
      assert Admitted(s') == Admitted(s);
    }
  }

  lemma LeaveInv(s: State, step: Step)
    requires Inv(s) && Enabled(s, step) && !step.Add?
    ensures Inv(Apply(s, step))
  {
    var s' := Apply(s, step);
    assert |s.pcs| == |s'.pcs| + 1;
    SubsetSize(Admitted(s'), Admitted(s));
  }

  /**
   In every interleaving of increments, decrements and backing out, the counter is the number of
   goroutines that are admitted or backing out, without wrap-around; the admitted ones never
   exceed the limit; and an increment is refused exactly when those two kinds fill the limit.
   */
  lemma {:induction false} CounterIsExact(s: State, steps: seq<Step>, t: nat)
    requires Inv(s) && Exec(s, steps).Some?
    ensures var r := Exec(s, steps).value;
            && Inv(r)
            && (Enabled(r, Add(t)) ==> (Apply(r, Add(t)).pcs[t].BackingOut? <==> |r.pcs| >= r.limit))
    decreases |steps|
  {
    if steps == [] {
    } else {
      if steps[0].Add? {
        AddInv(s, steps[0].t);
      } else {
        LeaveInv(s, steps[0]);
      }
      CounterIsExact(Apply(s, steps[0]), steps[1..], t);
    }
  }
}
