/** The atomic stop flag as one worker sees it: a sequence of loads, each of which may be followed by
    one blocking call. */
module StopFlag {
  /** The flag is not taken back while the worker runs. */
  ghost predicate StaysSet(stop: nat -> bool) {
    forall i: nat, j: nat :: i <= j && stop(i) ==> stop(j)
  }

  /** Every action was begun after its own check of the flag, in order, and the check found it clear. */
  ghost predicate Checked(checks: seq<nat>, stop: nat -> bool, until: nat) {
    && (forall i, j :: 0 <= i < j < |checks| ==> checks[i] < checks[j])
    && (forall i :: 0 <= i < |checks| ==> checks[i] < until && !stop(checks[i]))
  }

  /** Bounded work after stop: from the setting on nothing is begun; what was begun right after the
      last clear check, and only that, can still be going on. */
  ghost predicate BoundedAfterStop(checks: seq<nat>, stop: nat -> bool) {
    forall set_: nat :: stop(set_) ==>
      && (forall i :: 0 <= i < |checks| ==> checks[i] < set_)
      && (forall i :: 0 <= i < |checks| - 1 ==> checks[i] < set_ - 1)
  }

  lemma CheckedLater(checks: seq<nat>, stop: nat -> bool, until: nat)
    requires Checked(checks, stop, until)
    ensures Checked(checks, stop, until + 1)
  {
  }

  lemma CheckedOneMore(checks: seq<nat>, check: nat, stop: nat -> bool)
    requires Checked(checks, stop, check) && !stop(check)
    ensures Checked(checks + [check], stop, check + 1)
  {
  }

  lemma StillSet(stop: nat -> bool, check: nat)
    requires StaysSet(stop) && stop(check)
    ensures stop(check + 1)
  {
  }

  lemma BeforeHorizon(stop: nat -> bool, check: nat, horizon: nat)
    requires StaysSet(stop) && stop(horizon) && !stop(check)
    ensures check < horizon
  {
  }

  lemma LastCheck(checks: seq<nat>, stop: nat -> bool, until: nat, horizon: nat)
    requires Checked(checks, stop, until) && StaysSet(stop) && stop(horizon)
    ensures Checked(checks, stop, horizon)
  {
    forall i | 0 <= i < |checks| ensures checks[i] < horizon {
      assert !stop(checks[i]);
    }
  }

  lemma NothingBeginsAfterStop(checks: seq<nat>, stop: nat -> bool, until: nat)
    requires Checked(checks, stop, until) && StaysSet(stop)
    ensures BoundedAfterStop(checks, stop)
  {
    forall set_: nat | stop(set_)
      ensures forall i :: 0 <= i < |checks| ==> checks[i] < set_
      ensures forall i :: 0 <= i < |checks| - 1 ==> checks[i] < set_ - 1
    {
      forall i | 0 <= i < |checks| ensures checks[i] < set_ {
        assert !stop(checks[i]);
      }
      forall i | 0 <= i < |checks| - 1 ensures checks[i] < set_ - 1 {
        assert checks[i] < checks[|checks| - 1];
      }
    }
  }

  lemma {:induction false} NotTooEarly(checks: seq<nat>, first: nat, from: nat, k: nat)
    requires forall i, j :: 0 <= i < j < |checks| ==> checks[i] < checks[j]
    requires first <= k < |checks| && from <= checks[first]
    ensures from + (k - first) <= checks[k]
    decreases k
  {
    if k > first {
      NotTooEarly(checks, first, from, k - 1);
    }
  }

  lemma {:induction false} NotTooLate(checks: seq<nat>, until: nat, k: nat)
    requires forall i, j :: 0 <= i < j < |checks| ==> checks[i] < checks[j]
    requires k < |checks| && checks[|checks| - 1] < until
    ensures checks[k] < until - (|checks| - 1 - k)
    decreases |checks| - k
  {
    if k < |checks| - 1 {
      NotTooLate(checks, until, k + 1);
    }
  }

  /** With as many calls from load number `from` on as clear loads, none of these loads was idle. */
  lemma NoIdleLoad(checks: seq<nat>, stop: nat -> bool, until: nat, first: nat, from: nat)
    requires Checked(checks, stop, until) && first <= |checks|
    requires first < |checks| ==> from <= checks[first]
    requires until - from == |checks| - first || (until - from == |checks| - first + 1 && stop(until - 1))
    ensures forall i :: from <= i < until && !stop(i) ==> i in checks
  {
    forall i | from <= i < until && !stop(i) ensures i in checks {
      var k := first + (i - from);
      NotTooEarly(checks, first, from, k);
      NotTooLate(checks, if until - from == |checks| - first then until else until - 1, k);
      assert checks[k] == i;
    }
  }

  class AtomicFlag {
    /** What each load of the worker sees. */
    const stop: nat -> bool
    var loads: nat
    /** The load behind each blocking call. */
    ghost var begun: seq<nat>

    ghost predicate Valid() reads this {
      StaysSet(stop) && Checked(begun, stop, loads)
    }

    /** No load so far has seen the flag set. */
    ghost predicate Clear() reads this {
      loads > 0 ==> !stop(loads - 1)
    }

    /** At most the last load has. */
    ghost predicate Near() reads this {
      loads > 1 ==> !stop(loads - 2)
    }

    /** From call number `call` on, no call was begun before load number `load`. */
    ghost predicate From(call: nat, load: nat) reads this {
      load <= loads && call <= |begun| && (call < |begun| ==> load <= begun[call])
    }

    /** The last load saw the flag clear, and no call has been begun since. */
    ghost predicate MayBegin() reads this {
      loads > 0 && !stop(loads - 1) && forall i :: 0 <= i < |begun| ==> begun[i] < loads - 1
    }

    constructor (stop: nat -> bool)
      requires StaysSet(stop)
      ensures Valid() && this.stop == stop && loads == 0 && begun == []
    {
      this.stop, loads, begun := stop, 0, [];
    }

    method Load() returns (stopped: bool)
      requires Valid()
      modifies this`loads
      ensures Valid() && loads == old(loads) + 1 && stopped == stop(old(loads))
      ensures !stopped ==> MayBegin() && Clear() && Near()
      ensures old(Clear()) ==> Near()
    {
      stopped := stop(loads);
      loads := loads + 1;
    }

    /** A blocking call is made directly after the last load. */
    ghost method Begin()
      requires Valid() && MayBegin()
      modifies this`begun
      ensures Valid() && begun == old(begun) + [loads - 1]
    {
      begun := begun + [loads - 1];
    }
  }
}
