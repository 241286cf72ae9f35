/** The store of the latest snapshot (agent/src/latest_snapshot_store.cpp): one object used by many
    threads. Under its mutex `update` and `get` copy the snapshot member by member; every concurrent
    history is that of an atomic register. */
module SnapshotStore {
  import opened Prelude
  import opened TelemetryModel
  import opened LocalAgentMessages

  class LatestSnapshotStore {
    var snapshot: Option<LatestSnapshot>
    /** Everything ever stored. */
    ghost var published: seq<LatestSnapshot>

    ghost predicate Valid() reads this {
      snapshot == if published == [] then None else Some(published[|published| - 1])
    }

    constructor ()
      ensures Valid() && published == []
    {
      snapshot, published := None, [];
    }

    method Update(value: LatestSnapshot)
      requires Valid()
      modifies this
      ensures Valid() && published == old(published) + [value]
    {
      snapshot, published := Some(value), published + [value];
    }

    method Get() returns (value: Option<LatestSnapshot>)
      requires Valid()
      ensures value == if published == [] then None else Some(published[|published| - 1])
    {
      value := snapshot;
    }
  }

  // ----- the members that are copied -----

  datatype Member =
    | Engaged(engaged: bool)
    | Time(at: Int64)
    | CpuMember(cpu: Option<CpuMetric>)
    | MemoryMember(memory: Option<MemoryMetric>)
    | Text(text: string)

  const MEMBERS := 6

  const BLANK: seq<Member> := [Engaged(false), Time(0), CpuMember(None), MemoryMember(None), Text(""), Text("")]

  /** A snapshot object, member by member. */
  type Copy = m: seq<Member> | |m| == MEMBERS witness BLANK

  function Members(o: Option<LatestSnapshot>): Copy {
    match o
    case None => BLANK
    case Some(s) =>
      [Engaged(true), Time(s.collectedAt), CpuMember(s.cpu), MemoryMember(s.memory),
       Text(s.collectionError), Text(s.submissionError)]
  }

  /** The object that six copied members make up. */
  function Assembled(m: Copy): Option<LatestSnapshot> {
    match (m[0], m[1], m[2], m[3], m[4], m[5])
    case (Engaged(true), Time(at), CpuMember(cpu), MemoryMember(memory), Text(collection), Text(submission)) =>
      Some(LatestSnapshot(at, cpu, memory, collection, submission))
    case _ => None
  }

  lemma AssembledMembers(o: Option<LatestSnapshot>)
    ensures Assembled(Members(o)) == o
  {
  }

  // ----- threads -----

  datatype Operation = Update(value: LatestSnapshot) | Get

  /** One completed access in the order of the mutex: a store, or a read and what it found. */
  datatype Access = Stored(value: LatestSnapshot) | Found(found: Option<LatestSnapshot>)

  /** Where a thread is in a call. `since` is how many accesses had taken effect when the call
      began, `point` the place of its own among them. */
  datatype Phase =
    | Idle
    | Waiting(op: Operation, since: nat)
    | Copying(op: Operation, since: nat, done: set<nat>, local: Copy)
    | Returning(op: Operation, access: Access, since: nat, point: nat)

  /** A finished call of `op`; `until` accesses had taken effect when it returned. */
  datatype Call = Call(op: Operation, access: Access, since: nat, point: nat, until: nat)

  datatype State = State(
    shared: Copy,
    holder: Option<nat>,
    threads: seq<Phase>,
    accesses: seq<Access>,
    calls: seq<Call>)

  datatype Action =
    | Invoke(thread: nat, op: Operation)
    | Lock(thread: nat)
    | CopyMember(thread: nat, index: nat)
    | Unlock(thread: nat)
    | Return(thread: nat)

  function Initial(threads: nat): State {
    State(Members(None), None, seq(threads, _ => Idle), [], [])
  }

  predicate Enabled(s: State, a: Action) {
    && a.thread < |s.threads|
    && match a
       case Invoke(t, _) => s.threads[t].Idle?
       case Lock(t) => s.threads[t].Waiting? && s.holder.None?
       case CopyMember(t, k) => s.threads[t].Copying? && k < MEMBERS && k !in s.threads[t].done
       case Unlock(t) => s.threads[t].Copying? && (forall k: nat :: k < MEMBERS ==> k in s.threads[t].done)
       case Return(t) => s.threads[t].Returning?
  }

  /** What the copy of a call starts from: the snapshot to store, or anything for a read. */
  function LocalCopy(op: Operation): Copy {
    match op
    case Update(value) => Members(Some(value))
    case Get => Members(None)
  }

  function AccessOf(op: Operation, local: Copy): Access {
    match op
    case Update(value) => Stored(value)
    case Get => Found(Assembled(local))
  }

  function Step(s: State, a: Action): State {
    if !Enabled(s, a) then s
    else
      var t := a.thread;
      var p := s.threads[t];
      match a
      case Invoke(_, op) => s.(threads := s.threads[t := Waiting(op, |s.accesses|)])
      case Lock(_) =>
        s.(holder := Some(t), threads := s.threads[t := Copying(p.op, p.since, {}, LocalCopy(p.op))])
      case CopyMember(_, k) =>
        (match p.op
         case Update(_) =>
           s.(shared := s.shared[k := p.local[k]], threads := s.threads[t := p.(done := p.done + {k})])
         case Get =>
           s.(threads := s.threads[t := p.(done := p.done + {k}, local := p.local[k := s.shared[k]])]))
      case Unlock(_) =>
        var access := AccessOf(p.op, p.local);
        s.(holder := None, accesses := s.accesses + [access],
           threads := s.threads[t := Returning(p.op, access, p.since, |s.accesses|)])
      case Return(_) =>
        s.(threads := s.threads[t := Idle], calls := s.calls + [Call(p.op, p.access, p.since, p.point, |s.accesses|)])
  }

  function Run(s: State, actions: seq<Action>): State
    decreases |actions|
  {
    if actions == [] then s else Run(Step(s, actions[0]), actions[1..])
  }

  // ----- the atomic register -----

  /** The register's value after some accesses. */
  function Register(accesses: seq<Access>): Option<LatestSnapshot> {
    if accesses == [] then None
    else match accesses[|accesses| - 1]
      case Stored(value) => Some(value)
      case Found(_) => Register(accesses[..|accesses| - 1])
  }

  /** Every read finds the register's value at its place. */
  predicate Atomic(accesses: seq<Access>) {
    forall i :: 0 <= i < |accesses| && accesses[i].Found? ==> accesses[i].found == Register(accesses[..i])
  }

  // ----- what every step keeps -----

  predicate LockInv(s: State) {
    && (s.holder.Some? ==> s.holder.value < |s.threads|)
    && forall t :: 0 <= t < |s.threads| ==> (s.threads[t].Copying? <==> s.holder == Some(t))
  }

  /** Members already copied come from the source, the others are as they were. */
  predicate Mixed(m: Copy, done: set<nat>, source: Copy, before: Copy) {
    forall k: nat :: k < MEMBERS ==> m[k] == if k in done then source[k] else before[k]
  }

  predicate DataInv(s: State)
    requires LockInv(s)
  {
    var current := Members(Register(s.accesses));
    match s.holder
    case None => s.shared == current
    case Some(t) =>
      var p := s.threads[t];
      match p.op
      case Update(value) => p.local == Members(Some(value)) && Mixed(s.shared, p.done, p.local, current)
      case Get => s.shared == current && Mixed(p.local, p.done, current, Members(None))
  }

  /** An update stores its argument, and a get reads. */
  predicate Does(op: Operation, access: Access) {
    match op
    case Update(value) => access == Stored(value)
    case Get => access.Found?
  }

  predicate CallInv(s: State) {
    && (forall t :: 0 <= t < |s.threads| ==>
          match s.threads[t]
          case Idle => true
          case Waiting(_, since) => since <= |s.accesses|
          case Copying(_, since, _, _) => since <= |s.accesses|
          case Returning(op, access, since, point) =>
            since <= point < |s.accesses| && s.accesses[point] == access && Does(op, access))
    && (forall i :: 0 <= i < |s.calls| ==>
          var c := s.calls[i];
          c.since <= c.point < c.until <= |s.accesses| && s.accesses[c.point] == c.access && Does(c.op, c.access))
  }

  /** No two calls share an access. */
  predicate DistinctInv(s: State) {
    && (forall i, j :: 0 <= i < j < |s.calls| ==> s.calls[i].point != s.calls[j].point)
    && (forall i, t :: 0 <= i < |s.calls| && 0 <= t < |s.threads| && s.threads[t].Returning? ==>
          s.calls[i].point != s.threads[t].point)
    && (forall t, u :: 0 <= t < u < |s.threads| && s.threads[t].Returning? && s.threads[u].Returning? ==>
          s.threads[t].point != s.threads[u].point)
  }

  predicate Inv(s: State) {
    LockInv(s) && DataInv(s) && CallInv(s) && DistinctInv(s) && Atomic(s.accesses)
  }

  lemma MixedAll(m: Copy, done: set<nat>, source: Copy, before: Copy)
    requires Mixed(m, done, source, before) && forall k: nat :: k < MEMBERS ==> k in done
    ensures m == source
  {
    assert forall k: nat :: k < MEMBERS ==> m[k] == source[k];
  }

  lemma CopyKeepsData(s: State, t: nat, k: nat)
    requires LockInv(s) && DataInv(s) && Enabled(s, CopyMember(t, k))
    ensures var s' := Step(s, CopyMember(t, k)); LockInv(s') && DataInv(s')
  {
    hide Members, Register;
  }

  lemma UnlockKeepsData(s: State, t: nat)
    requires LockInv(s) && DataInv(s) && Enabled(s, Unlock(t)) && Atomic(s.accesses)
    ensures var s' := Step(s, Unlock(t)); LockInv(s') && DataInv(s') && Atomic(s'.accesses)
  {
    hide Members, Assembled, Mixed, Register, Atomic;
    var p := s.threads[t];
    var current := Members(Register(s.accesses));
    var access := AccessOf(p.op, p.local);
    if p.op.Get? {
      MixedAll(p.local, p.done, current, Members(None));
      AssembledMembers(Register(s.accesses));
    } else {
      MixedAll(s.shared, p.done, p.local, current);
    }
    AccessKeepsAtomic(s.accesses, access);
  }

  /** A read of the register's value, or a store, extends an atomic history. */
  lemma AccessKeepsAtomic(accesses: seq<Access>, access: Access)
    requires Atomic(accesses) && (access.Found? ==> access.found == Register(accesses))
    ensures Atomic(accesses + [access])
    ensures Register(accesses + [access]) == match access
      case Stored(value) => Some(value)
      case Found(_) => Register(accesses)
  {
    var more := accesses + [access];
    assert more[..|accesses|] == accesses;
    forall i | 0 <= i < |more| && more[i].Found? ensures more[i].found == Register(more[..i]) {
      if i < |accesses| {
        assert more[..i] == accesses[..i];
      }
    }
  }

  lemma StepKeepsData(s: State, a: Action)
    requires Inv(s)
    ensures var s' := Step(s, a); LockInv(s') && DataInv(s') && Atomic(s'.accesses)
  {
    hide Members, Register, Assembled, CallInv, DistinctInv;
    if Enabled(s, a) {
      match a
      case CopyMember(t, k) => CopyKeepsData(s, t, k);
      case Unlock(t) => UnlockKeepsData(s, t);
      case _ =>
    }
  }

  lemma StepKeepsCalls(s: State, a: Action)
    requires Inv(s)
    ensures CallInv(Step(s, a)) && DistinctInv(Step(s, a))
  {
    hide Members, Register, Assembled, LockInv, DataInv, Atomic, CallInv, DistinctInv, AccessOf;
    if Enabled(s, a) {
      BegunInThePast(s, a.thread);
      match a
      case Invoke(t, op) => MovesKeepCalls(s, t, Waiting(op, |s.accesses|));
      case Lock(t) => MovesKeepCalls(s, t, Step(s, a).threads[t]);
      case CopyMember(t, k) => MovesKeepCalls(s, t, Step(s, a).threads[t]);
      case Unlock(t) => UnlockKeepsCalls(s, t);
      case Return(t) => ReturnKeepsCalls(s, t);
    }
  }

  /** The calls look at nothing but the threads, the accesses and the finished calls. */
  predicate SameCalls(s: State, s': State) {
    s'.threads == s.threads && s'.accesses == s.accesses && s'.calls == s.calls
  }

  lemma BegunInThePast(s: State, t: nat)
    requires CallInv(s) && t < |s.threads|
    ensures s.threads[t].Waiting? || s.threads[t].Copying? ==> s.threads[t].since <= |s.accesses|
  {
  }

  lemma MovesKeepCalls(s: State, t: nat, p: Phase)
    requires CallInv(s) && DistinctInv(s) && t < |s.threads|
    requires (p.Waiting? || p.Copying?) && p.since <= |s.accesses|
    ensures forall s': State :: SameCalls(s.(threads := s.threads[t := p]), s') ==> CallInv(s') && DistinctInv(s')
  {
  }

  lemma UnlockKeepsCalls(s: State, t: nat)
    requires CallInv(s) && DistinctInv(s) && Enabled(s, Unlock(t))
    ensures CallInv(Step(s, Unlock(t))) && DistinctInv(Step(s, Unlock(t)))
  {
    hide AccessOf, Does;
    AccessDoes(s.threads[t].op, s.threads[t].local);
  }

  lemma AccessDoes(op: Operation, local: Copy)
    ensures Does(op, AccessOf(op, local))
  {
  }

  lemma ReturnKeepsCalls(s: State, t: nat)
    requires CallInv(s) && DistinctInv(s) && Enabled(s, Return(t))
    ensures CallInv(Step(s, Return(t))) && DistinctInv(Step(s, Return(t)))
  {
    hide Does;
  }

  lemma InitialInv(threads: nat)
    ensures Inv(Initial(threads))
  {
  }

  lemma {:induction false} RunKeepsInv(s: State, actions: seq<Action>)
    requires Inv(s)
    ensures Inv(Run(s, actions))
    decreases |actions|
  {
    hide Step;
    if actions != [] {
      StepKeepsData(s, actions[0]);
      StepKeepsCalls(s, actions[0]);
      RunKeepsInv(Step(s, actions[0]), actions[1..]);
    }
  }

  /** Linearizability. For any number of threads and any interleaving of their member copies: the
      accesses, in the order they took effect, are those of an atomic register; every finished call
      is one of them, an update storing its own argument and a get reading, at a place between its
      invocation and its return; and no two calls share one. */
  lemma EveryHistoryIsAtomic(threads: nat, actions: seq<Action>)
    ensures var s := Run(Initial(threads), actions);
      && Atomic(s.accesses)
      && (forall i :: 0 <= i < |s.calls| ==>
            var c := s.calls[i];
            && c.since <= c.point < c.until <= |s.accesses| && s.accesses[c.point] == c.access
            && (c.op.Update? ==> c.access == Stored(c.op.value)) && (c.op.Get? ==> c.access.Found?))
      && (forall i, j :: 0 <= i < j < |s.calls| ==> s.calls[i].point != s.calls[j].point)
  {
    InitialInv(threads);
    RunKeepsInv(Initial(threads), actions);
  }

  /** A call that returned before another began took effect before it. */
  lemma RealTimeOrder(threads: nat, actions: seq<Action>, i: nat, j: nat)
    requires var s := Run(Initial(threads), actions);
      i < |s.calls| && j < |s.calls| && s.calls[i].until <= s.calls[j].since
    ensures var s := Run(Initial(threads), actions); s.calls[i].point < s.calls[j].point
  {
    EveryHistoryIsAtomic(threads, actions);
  }

  lemma {:induction false} RegisterIsLastStored(accesses: seq<Access>)
    ensures match Register(accesses)
      case None => forall j :: 0 <= j < |accesses| ==> accesses[j].Found?
      case Some(value) =>
        exists j :: 0 <= j < |accesses| && accesses[j] == Stored(value)
          && forall k :: j < k < |accesses| ==> accesses[k].Found?
    decreases |accesses|
  {
    if accesses != [] {
      var last := |accesses| - 1;
      if accesses[last].Found? {
        RegisterIsLastStored(accesses[..last]);
        if Register(accesses).Some? {
          var j :| 0 <= j < last && accesses[..last][j] == Stored(Register(accesses).value)
            && forall k :: j < k < last ==> accesses[..last][k].Found?;
          assert accesses[j] == Stored(Register(accesses).value);
          assert forall k :: j < k < |accesses| ==> k == last || accesses[..last][k] == accesses[k];
        }
      } else {
        assert accesses[last] == Stored(Register(accesses).value);
      }
    }
  }

  /** A read returns none or exactly one stored snapshot, whole, and the newest at a point inside
      the call: never a mixture of two. */
  lemma ReadsAreWhole(threads: nat, actions: seq<Action>, i: nat)
    requires var s := Run(Initial(threads), actions); i < |s.calls| && s.calls[i].access.Found?
    ensures var s := Run(Initial(threads), actions);
      var c := s.calls[i];
      c.point <= |s.accesses| &&
      match c.access.found
      case None => forall j :: 0 <= j < c.point ==> s.accesses[j].Found?
      case Some(value) =>
        exists j :: 0 <= j < c.point && s.accesses[j] == Stored(value)
          && forall k :: j < k < c.point ==> s.accesses[k].Found?
  {
    EveryHistoryIsAtomic(threads, actions);
    var s := Run(Initial(threads), actions);
    var c := s.calls[i];
    var before := s.accesses[..c.point];
    RegisterIsLastStored(before);
    assert c.access.found == Register(before);
    if c.access.found.Some? {
      var j :| 0 <= j < |before| && before[j] == Stored(c.access.found.value)
        && forall k :: j < k < |before| ==> before[k].Found?;
      assert s.accesses[j] == Stored(c.access.found.value);
      assert forall k :: j < k < c.point ==> before[k] == s.accesses[k];
    } else {
      assert forall j :: 0 <= j < c.point ==> before[j] == s.accesses[j];
    }
  }
}
