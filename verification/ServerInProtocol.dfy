/** The pipe server's loops in the composed system: every session, read by read and frame by frame,
    with its partial writes, is a run of protocol steps; and what it sends is understood by any
    client. */
module ServerInProtocol {
  import opened Prelude
  import opened Framing
  import opened StreamReceiver
  import opened LocalAgentMessages
  import opened ClientState
  import I = IpcServer
  import P = Protocol
  import RS = ReplyStream

  // ----- the server's own loop -----

  predicate AllAgentSide(actions: seq<P.Action>) {
    forall i :: 0 <= i < |actions| ==> P.AgentSide(actions[i])
  }

  predicate AllClientSide(actions: seq<P.Action>) {
    forall i :: 0 <= i < |actions| ==> P.ClientSide(actions[i])
  }

  /** The write loop's calls as steps; it mirrors the loop from its i-th check on. */
  function WriteActions(script: nat -> I.WriteStep, i: nat, size: nat, total: nat): (actions: seq<P.Action>)
    requires total <= size
    ensures AllAgentSide(actions)
    decreases size - total
  {
    if total == size || script(i).stopped then []
    else match script(i).outcome
      case WriteFailed(taken) => if taken == 0 then [] else [P.ServerWrites(Min(taken, size - total))]
      case Wrote(count) =>
        if count == 0 then []
        else
          var taken := Min(count, size - total);
          [P.ServerWrites(taken)] + WriteActions(script, i + 1, size, total + taken)
  }

  /** Handling one whole frame: process it, write the reply, close unless the connection is kept. */
  function FrameActions(w: Wire, s: P.System, env: I.RequestEnv, payload: seq<Byte>): (actions: seq<P.Action>)
    ensures AllAgentSide(actions)
  {
    match ReplyPayload(w, env.stored)
    case None => [P.ServerHandles]
    case Some(reply) =>
      var size := |Frame(reply)|;
      [P.ServerHandles] + (WriteActions(env.writes, 0, size, 0) +
        (if I.HandleRequest(w, env, payload).1 then [] else [P.ServerCloses(|s.toClient| + size)]))
  }

  /** The server in the middle of a reply. */
  predicate Writing(s: P.System, frame: seq<Byte>, written: nat) {
    s.server.Some? && s.server.value.reply == Some(P.Sending(frame, written)) && written < |frame|
  }

  /** The system after the pipe took the reply up to `total`. */
  function Wrote(s: P.System, frame: seq<Byte>, written: nat, total: nat): P.System
    requires Writing(s, frame, written) && written <= total <= |frame|
  {
    var reply := if total == |frame| then None else Some(P.Sending(frame, total));
    s.(server := Some(s.server.value.(reply := reply)),
       toClient := if s.clientUp then s.toClient + frame[written..total] else s.toClient)
  }

  lemma {:induction false} WritesAreSteps(w: Wire, s: P.System, script: nat -> I.WriteStep, i: nat, frame: seq<Byte>,
      written: nat)
    requires Writing(s, frame, written)
    ensures P.Run(w, s, WriteActions(script, i, |frame|, written))
         == Wrote(s, frame, written, I.WriteRun(script, i, |frame|, written).total)
    decreases |frame| - written
  {
    hide P.Step;
    var actions := WriteActions(script, i, |frame|, written);
    if actions == [] {
      assert s.toClient + [] == s.toClient;
    } else if script(i).outcome.WriteFailed? {
      var count := Min(script(i).outcome.taken, |frame| - written);
      WriteIsStep(w, s, frame, written, count);
      P.OneStep(w, s, P.ServerWrites(count));
    } else {
      var count := Min(script(i).outcome.count, |frame| - written);
      var next := P.Step(w, s, P.ServerWrites(count));
      WriteIsStep(w, s, frame, written, count);
      P.TwoSteps(w, s, P.ServerWrites(count), WriteActions(script, i + 1, |frame|, written + count));
      if written + count < |frame| {
        WritesAreSteps(w, next, script, i + 1, frame, written + count);
        WroteTwice(s, frame, written, written + count, I.WriteRun(script, i, |frame|, written).total);
      }
    }
  }

  lemma WriteIsStep(w: Wire, s: P.System, frame: seq<Byte>, written: nat, count: nat)
    requires Writing(s, frame, written) && 1 <= count && written + count <= |frame|
    ensures P.Step(w, s, P.ServerWrites(count)) == Wrote(s, frame, written, written + count)
  {
  }

  lemma WroteTwice(s: P.System, frame: seq<Byte>, written: nat, middle: nat, total: nat)
    requires Writing(s, frame, written) && written <= middle < |frame| && middle <= total <= |frame|
    ensures Wrote(Wrote(s, frame, written, middle), frame, middle, total) == Wrote(s, frame, written, total)
  {
    assert s.toClient + frame[written..middle] + frame[middle..total] == s.toClient + frame[written..total];
  }

  /** `process_request` on the next whole frame, with any write script, is a run of protocol steps:
      it sends the bytes and keeps or closes the connection as the steps do. */
  lemma FrameIsSteps(w: Wire, s: P.System, env: I.RequestEnv)
    requires Lawful(w) && P.Inv(w, s) && P.Enabled(s, P.ServerHandles)
    requires env.stored == P.ValueAt(s.store, P.Version(s))
    ensures var e := s.server.value;
      var f := TryDecodeFrame(e.buffer);
      var (out, keep) := I.HandleRequest(w, env, f.payload);
      var t := P.Run(w, s, FrameActions(w, s, env, f.payload));
      && f.status == Complete
      && t.toClient == (if s.clientUp then s.toClient + out else s.toClient)
      && t.server == (if keep then Some(P.ServerEnd(e.inbound, e.buffer[f.consumed..], None)) else None)
      && P.SameClientEnd(s, t) && t.store == s.store
  {
    hide P.Inv, P.Run, TryDecodeFrame, Frame, ReplyPayload, Lawful, WriteActions, I.WriteRun;
    P.NextRequest(w, s);
    var f := TryDecodeFrame(s.server.value.buffer);
    var reply := ReplyPayload(w, env.stored);
    P.OneStep(w, s, P.ServerHandles);
    if reply.None? {
      assert s.toClient + [] == s.toClient;
    } else {
      var frame := Frame(reply.value);
      var next := P.Step(w, s, P.ServerHandles);
      var writes := WriteActions(env.writes, 0, |frame|, 0);
      var close := if I.HandleRequest(w, env, f.payload).1 then [] else [P.ServerCloses(|s.toClient| + |frame|)];
      FrameIsLonger(reply.value);
      WritesAreSteps(w, next, env.writes, 0, frame, 0);
      var end := P.Run(w, next, writes);
      P.TwoSteps(w, s, P.ServerHandles, writes + close);
      P.RunTogether(w, next, writes, close);
      P.OneStep(w, end, P.ServerCloses(|s.toClient| + |frame|));
      P.NoSteps(w, end);
    }
  }

  lemma FrameIsLonger(payload: seq<Byte>)
    requires Legal(payload)
    ensures |Frame(payload)| == HEADER_SIZE + |payload|
  {
  }

  // ----- whole sessions -----

  /** The store as each request of a session finds it: it only grows, starting from `store`. */
  ghost predicate Growing(stores: nat -> seq<LatestSnapshot>, n: nat, store: seq<LatestSnapshot>) {
    store <= stores(n) && forall i: nat :: i >= n ==> stores(i) <= stores(i + 1)
  }

  /** Request number `m` finds the newest snapshot of its store. */
  ghost predicate Finds(envs: nat -> I.RequestEnv, stores: nat -> seq<LatestSnapshot>, n: nat) {
    forall m: nat :: m >= n ==> envs(m).stored == P.ValueAt(stores(m), |stores(m)|)
  }

  function PublishActions(snapshots: seq<LatestSnapshot>): (actions: seq<P.Action>)
    ensures AllAgentSide(actions)
  {
    if snapshots == [] then [] else [P.Publish(snapshots[0])] + PublishActions(snapshots[1..])
  }

  lemma {:induction false} PublishesAreSteps(w: Wire, s: P.System, snapshots: seq<LatestSnapshot>)
    ensures P.Run(w, s, PublishActions(snapshots)) == s.(store := s.store + snapshots)
    decreases |snapshots|
  {
    if snapshots == [] {
      assert s.store + [] == s.store;
    } else {
      var next := s.(store := s.store + [snapshots[0]]);
      P.TwoSteps(w, s, P.Publish(snapshots[0]), PublishActions(snapshots[1..]));
      PublishesAreSteps(w, next, snapshots[1..]);
      assert s.store + snapshots == next.store + snapshots[1..];
    }
  }

  /** From `s` to `t` the server has sent `sent` and is left with its end as given, or none. */
  predicate Moved(s: P.System, t: P.System, sent: seq<Byte>, inbound: seq<Byte>, buffer: seq<Byte>, open: bool) {
    && t.toClient == (if s.clientUp then s.toClient + sent else s.toClient)
    && t.server == (if open then Some(P.ServerEnd(inbound, buffer, None)) else None)
    && P.SameClientEnd(s, t)
  }

  lemma MovedTwice(s: P.System, t: P.System, u: P.System, a: seq<Byte>, b: seq<Byte>, inbound: seq<Byte>,
                   buffer: seq<Byte>, later: seq<Byte>, rest: seq<Byte>, open: bool)
    requires Moved(s, t, a, inbound, buffer, true) && Moved(t, u, b, later, rest, open)
    ensures Moved(s, u, a + b, later, rest, open)
  {
    assert s.toClient + (a + b) == s.toClient + a + b;
  }

  /** One request: the snapshots published before it, then everything that handling it does. */
  lemma RequestIsSteps(w: Wire, s: P.System, env: I.RequestEnv, store: seq<LatestSnapshot>)
    returns (actions: seq<P.Action>)
    requires Lawful(w) && P.Inv(w, s) && P.Enabled(s, P.ServerHandles) && s.store <= store
    requires env.stored == P.ValueAt(store, |store|)
    ensures var e := s.server.value;
      var f := TryDecodeFrame(e.buffer);
      var (out, keep) := I.HandleRequest(w, env, f.payload);
      var t := P.Run(w, s, actions);
      f.status == Complete && AllAgentSide(actions) && P.Inv(w, t) && t.store == store
      && Moved(s, t, out, e.inbound, e.buffer[f.consumed..], keep)
  {
    hide P.Inv, P.Run, P.Step, TryDecodeFrame, Lawful, I.HandleRequest, FrameActions, PublishActions;
    var snapshots := store[|s.store|..];
    var ready := s.(store := store);
    assert s.store + snapshots == store;
    PublishesAreSteps(w, s, snapshots);
    P.RunKeepsInv(w, s, PublishActions(snapshots));
    FrameIsSteps(w, ready, env);
    var more := FrameActions(w, ready, env, TryDecodeFrame(s.server.value.buffer).payload);
    P.RunKeepsInv(w, ready, more);
    actions := PublishActions(snapshots) + more;
    P.RunTogether(w, s, PublishActions(snapshots), more);
  }

  lemma NextStore(envs: nat -> I.RequestEnv, stores: nat -> seq<LatestSnapshot>, n: nat, store: seq<LatestSnapshot>)
    requires Growing(stores, n, store) && Finds(envs, stores, n)
    ensures store <= stores(n) && envs(n).stored == P.ValueAt(stores(n), |stores(n)|)
    ensures Growing(stores, n + 1, stores(n)) && Finds(envs, stores, n + 1)
  {
  }

  /** The inner loop on a buffer is a run of steps. */
  lemma {:induction false} PassIsSteps(w: Wire, s: P.System, envs: nat -> I.RequestEnv,
                                       stores: nat -> seq<LatestSnapshot>, n: nat)
    returns (actions: seq<P.Action>)
    requires Lawful(w) && P.Inv(w, s) && s.server.Some? && s.server.value.reply.None?
    requires Growing(stores, n, s.store) && Finds(envs, stores, n)
    ensures var e := s.server.value;
      var r := Receive(I.ServerHandler(w, envs), n, e.buffer);
      var t := P.Run(w, s, actions);
      && AllAgentSide(actions) && P.Inv(w, t)
      && Moved(s, t, Concat(r.outputs), e.inbound, r.rest, r.verdict == Open)
      && t.store == (if r.outputs == [] then s.store else stores(n + |r.outputs| - 1))
    decreases |s.server.value.buffer|
  {
    hide P.Inv, P.Run, TryDecodeFrame, Lawful, I.HandleRequest, Moved, Growing, Finds, AllAgentSide;
    var e := s.server.value;
    var f := TryDecodeFrame(e.buffer);
    NextStore(envs, stores, n, s.store);
    if f.status == Incomplete {
      actions := [];
      AgentTogether([], []);
      P.NoSteps(w, s);
      NotMoved(s);
    } else {
      assert P.Enabled(s, P.ServerHandles);
      var first := RequestIsSteps(w, s, envs(n), stores(n));
      var t := P.Run(w, s, first);
      var (out, keep) := I.HandleRequest(w, envs(n), f.payload);
      I.HandlerIs(w, envs, n, f.payload);
      if keep {
        ServerAfter(s, t, out, e.inbound, e.buffer[f.consumed..]);
        var more := PassIsSteps(w, t, envs, stores, n + 1);
        actions := first + more;
        AgentTogether(first, more);
        P.RunTogether(w, s, first, more);
        var r := Receive(I.ServerHandler(w, envs), n + 1, e.buffer[f.consumed..]);
        ConcatCons(out, r.outputs);
        MovedTwice(s, t, P.Run(w, t, more), out, Concat(r.outputs), e.inbound, e.buffer[f.consumed..],
                   e.inbound, r.rest, r.verdict == Open);
      } else {
        actions := first;
        ConcatOne(out);
      }
    }
  }

  lemma AgentTogether(a: seq<P.Action>, b: seq<P.Action>)
    ensures AllAgentSide([])
    ensures AllAgentSide(a) && AllAgentSide(b) ==> AllAgentSide(a + b)
  {
  }

  lemma NotMoved(s: P.System)
    requires s.server.Some? && s.server.value.reply.None?
    ensures Moved(s, s, [], s.server.value.inbound, s.server.value.buffer, true)
  {
    assert s.toClient + [] == s.toClient;
  }

  lemma ServerAfter(s: P.System, t: P.System, sent: seq<Byte>, inbound: seq<Byte>, buffer: seq<Byte>)
    requires Moved(s, t, sent, inbound, buffer, true)
    ensures t.server == Some(P.ServerEnd(inbound, buffer, None))
  {
  }

  lemma ConcatCons(part: seq<Byte>, parts: seq<seq<Byte>>)
    ensures Concat([part] + parts) == part + Concat(parts)
  {
    assert ([part] + parts)[1..] == parts;
  }

  /** One turn of the receive loop: a read, then the inner loop. Any other steps may come before and
      after it. */
  lemma ReadIsSteps(w: Wire, s: P.System, envs: nat -> I.RequestEnv, stores: nat -> seq<LatestSnapshot>,
                    r: Received<seq<Byte>>, chunk: seq<Byte>) returns (actions: seq<P.Action>)
    requires Lawful(w) && P.Inv(w, s) && s.server.Some? && s.server.value.reply.None?
    requires r.verdict == Open && Settled(r) && r.rest == s.server.value.buffer
    requires 0 < |chunk| <= I.READ_SIZE && chunk <= s.server.value.inbound
    requires Growing(stores, |r.outputs|, s.store) && Finds(envs, stores, |r.outputs|)
    ensures var after := Feed(I.ServerHandler(w, envs), r, chunk);
      var t := P.Run(w, s, actions);
      && r.outputs <= after.outputs && AllAgentSide(actions) && P.Inv(w, t)
      && Moved(s, t, Concat(after.outputs[|r.outputs|..]), s.server.value.inbound[|chunk|..], after.rest,
               after.verdict == Open)
      && Growing(stores, |after.outputs|, t.store)
  {
    hide P.Inv, P.Run, TryDecodeFrame, Lawful, Receive, I.ServerHandler, Concat;
    var e := s.server.value;
    var read := s.(server := Some(P.ServerEnd(e.inbound[|chunk|..], e.buffer + chunk, None)));
    assert e.inbound[..|chunk|] == chunk;
    assert P.Step(w, s, P.ServerReads(|chunk|)) == read;
    P.StepKeepsInv(w, s, P.ServerReads(|chunk|));
    var more := PassIsSteps(w, read, envs, stores, |r.outputs|);
    actions := [P.ServerReads(|chunk|)] + more;
    P.TwoSteps(w, s, P.ServerReads(|chunk|), more);
    var pass := Receive(I.ServerHandler(w, envs), |r.outputs|, e.buffer + chunk);
    assert (r.outputs + pass.outputs)[|r.outputs|..] == pass.outputs;
    StoreGrows(stores, |r.outputs|, |pass.outputs|, s.store);
  }

  lemma {:induction false} StoreGrows(stores: nat -> seq<LatestSnapshot>, n: nat, k: nat, store: seq<LatestSnapshot>)
    requires Growing(stores, n, store)
    ensures Growing(stores, n + k, if k == 0 then store else stores(n + k - 1))
  {
    if k == 0 {
      assert n + k == n;
    }
  }

  // ----- the client's steps between the turns of a session -----

  /** What the client's actions make of its being up, and of the request pipe. */
  function AfterClient(w: Wire, up: bool, inbound: seq<Byte>, actions: seq<P.Action>): (bool, seq<Byte>)
    decreases |actions|
  {
    if actions == [] then (up, inbound)
    else
      var (nextUp, next) := match actions[0]
        case Request => (up, if up then inbound + P.RequestFrame(w) else inbound)
        case RequestRefused(kept) => (false, if up then P.Cut(inbound + P.RequestFrame(w), kept) else inbound)
        case ClientDrops(kept) => (false, if up then P.Cut(inbound, kept) else inbound)
        case _ => (up, inbound);
      AfterClient(w, nextUp, next, actions[1..])
  }

  /** The bytes that the client takes off the reply pipe in a run. */
  function Taken(w: Wire, s: P.System, actions: seq<P.Action>): seq<Byte>
    decreases |actions|
  {
    if actions == [] then []
    else
      var a := actions[0];
      (if a.ClientReads? && P.Enabled(s, a) then s.toClient[..a.count] else []) +
      Taken(w, P.Step(w, s, a), actions[1..])
  }

  lemma {:induction false} TakenTogether(w: Wire, s: P.System, a: seq<P.Action>, b: seq<P.Action>)
    ensures Taken(w, s, a + b) == Taken(w, s, a) + Taken(w, P.Run(w, s, a), b)
    decreases |a|
  {
    hide P.Step, P.Enabled;
    if a == [] {
      assert a + b == b;
    } else {
      assert (a + b)[1..] == a[1..] + b;
      TakenTogether(w, P.Step(w, s, a[0]), a[1..], b);
    }
  }

  /** The server's turns leave the client's end alone. */
  lemma {:induction false} AgentRunKeepsClientEnd(w: Wire, s: P.System, actions: seq<P.Action>)
    requires AllAgentSide(actions)
    ensures P.SameClientEnd(s, P.Run(w, s, actions))
    decreases |actions|
  {
    hide P.Step;
    if actions != [] {
      assert P.AgentSide(actions[0]);
      P.AgentKeepsClientEnd(w, s, actions[0]);
      AgentRunKeepsClientEnd(w, P.Step(w, s, actions[0]), actions[1..]);
    }
  }

  lemma {:induction false} AgentTakesNothing(w: Wire, s: P.System, actions: seq<P.Action>)
    requires AllAgentSide(actions)
    ensures Taken(w, s, actions) == []
    decreases |actions|
  {
    hide P.Step, P.Enabled;
    if actions != [] {
      assert P.AgentSide(actions[0]);
      AgentTakesNothing(w, P.Step(w, s, actions[0]), actions[1..]);
    }
  }

  /** One step of the client, as the server and the reply pipe see it. */
  lemma ClientStep(w: Wire, s: P.System, a: P.Action)
    requires Lawful(w) && P.Inv(w, s) && s.server.Some? && P.ClientSide(a)
    ensures var t := P.Step(w, s, a);
      var (up, inbound) := AfterClient(w, s.clientUp, s.server.value.inbound, [a]);
      && P.Inv(w, t) && t.store == s.store && t.clientUp == up
      && t.server == Some(s.server.value.(inbound := inbound))
      && Taken(w, s, [a]) + t.toClient == s.toClient
  {
    hide P.Inv, Lawful, P.ClientReading, P.RequestFrame;
    P.StepKeepsInv(w, s, a);
    if a.ClientReads? && P.Enabled(s, a) {
      ClientReadStep(w, s, a.count);
    }
  }

  lemma ClientReadStep(w: Wire, s: P.System, count: nat)
    requires Lawful(w) && P.Inv(w, s) && s.clientUp && count <= |s.toClient|
    ensures var t := P.ClientReading(w, s, count);
      && t.clientUp && t.server == s.server && t.store == s.store && s.toClient[..count] + t.toClient == s.toClient
  {
    hide P.LogInv, P.RequestBytes, P.ReplyBytes, Receive, ReplyHandler, Snapshots, P.DueSpoken, Lawful, EncodeAll;
    InvSizes(w, s);
    P.NextReplies(w, s, count);
  }

  lemma InvSizes(w: Wire, s: P.System)
    requires P.Inv(w, s)
    ensures P.Sizes(s.log) && P.Ordered(s.log, |s.store|)
  {
    hide P.RequestBytes, P.ReplyBytes, P.Justified, P.Truthful;
  }

  lemma {:induction false} ClientRun(w: Wire, s: P.System, actions: seq<P.Action>)
    requires Lawful(w) && P.Inv(w, s) && s.server.Some? && AllClientSide(actions)
    ensures var t := P.Run(w, s, actions);
      var (up, inbound) := AfterClient(w, s.clientUp, s.server.value.inbound, actions);
      && P.Inv(w, t) && t.store == s.store && t.clientUp == up
      && t.server == Some(s.server.value.(inbound := inbound))
      && Taken(w, s, actions) + t.toClient == s.toClient
    decreases |actions|
  {
    hide P.Inv, P.Step, P.Enabled, Lawful;
    if actions == [] {
      assert [] + s.toClient == s.toClient;
    } else {
      assert P.ClientSide(actions[0]);
      var next := P.Step(w, s, actions[0]);
      ClientStep(w, s, actions[0]);
      assert [actions[0]][1..] == [];
      ClientRun(w, next, actions[1..]);
      assert actions == [actions[0]] + actions[1..];
      TakenTogether(w, s, [actions[0]], actions[1..]);
      P.OneStep(w, s, actions[0]);
      assert Taken(w, s, actions) + P.Run(w, s, actions).toClient
          == Taken(w, s, [actions[0]]) + (Taken(w, next, actions[1..]) + P.Run(w, s, actions).toClient);
    }
  }

  /** One turn of a session: what the client does before it, and what the server then reads. */
  datatype Leg = Leg(before: seq<P.Action>, chunk: seq<Byte>)

  function ChunksOf(legs: seq<Leg>): seq<seq<Byte>> {
    if legs == [] then [] else [legs[0].chunk] + ChunksOf(legs[1..])
  }

  /** Every read finds its bytes on the request pipe. */
  predicate Available(w: Wire, up: bool, inbound: seq<Byte>, legs: seq<Leg>)
    decreases |legs|
  {
    legs != [] ==>
      var (nextUp, next) := AfterClient(w, up, inbound, legs[0].before);
      && AllClientSide(legs[0].before) && 0 < |legs[0].chunk| <= I.READ_SIZE && legs[0].chunk <= next
      && Available(w, nextUp, next[|legs[0].chunk|..], legs[1..])
  }

  /** What is left on the request pipe after all turns. */
  function Left(w: Wire, up: bool, inbound: seq<Byte>, legs: seq<Leg>): seq<Byte>
    requires Available(w, up, inbound, legs)
    decreases |legs|
  {
    if legs == [] then inbound
    else
      var (nextUp, next) := AfterClient(w, up, inbound, legs[0].before);
      Left(w, nextUp, next[|legs[0].chunk|..], legs[1..])
  }

  /** What of the session's output reaches the reply pipe: that of the turns that find the client
      still there. */
  function Reaches(w: Wire, h: (nat, seq<Byte>) -> (seq<Byte>, bool), r: Received<seq<Byte>>, up: bool,
                   inbound: seq<Byte>, legs: seq<Leg>): seq<Byte>
    requires Available(w, up, inbound, legs)
    decreases |legs|
  {
    if legs == [] || r.verdict != Open then []
    else
      var (nextUp, next) := AfterClient(w, up, inbound, legs[0].before);
      var after := Feed(h, r, legs[0].chunk);
      (if nextUp then Concat(NewOutputs(r, after)) else []) +
      Reaches(w, h, after, nextUp, next[|legs[0].chunk|..], legs[1..])
  }

  function NewOutputs(r: Received<seq<Byte>>, after: Received<seq<Byte>>): seq<seq<Byte>> {
    if |r.outputs| <= |after.outputs| then after.outputs[|r.outputs|..] else []
  }

  /** The client's actions and the server's turns, in order. */
  function Woven(legs: seq<Leg>, turns: seq<seq<P.Action>>): seq<P.Action>
    decreases |legs|
  {
    if legs == [] || turns == [] then [] else legs[0].before + turns[0] + Woven(legs[1..], turns[1..])
  }

  /** The turns, woven into the client's steps, carry the session out: one turn for each read until
      the session closes, all of the Agent's own steps; the server is left with what the session
      leaves, and gone exactly if the session is closed; and what the client has taken, with what is
      on the reply pipe, is what the session put out while the client was there. */
  ghost predicate Carried(w: Wire, h: (nat, seq<Byte>) -> (seq<Byte>, bool), s: P.System, r: Received<seq<Byte>>,
                          legs: seq<Leg>, turns: seq<seq<P.Action>>)
    requires s.server.Some? && Available(w, s.clientUp, s.server.value.inbound, legs)
  {
    var (end, unread) := FeedAll(h, r, ChunksOf(legs));
    var (inbound, woven) := (s.server.value.inbound, Woven(legs, turns));
    var t := P.Run(w, s, woven);
    && |turns| + |unread| == |legs| && (forall i :: 0 <= i < |turns| ==> AllAgentSide(turns[i]))
    && P.Inv(w, t)
    && t.server == (if end.verdict != Open then None
                    else Some(P.ServerEnd(Left(w, s.clientUp, inbound, legs), end.rest, None)))
    && Taken(w, s, woven) + t.toClient == s.toClient + Reaches(w, h, r, s.clientUp, inbound, legs)
  }

  /** A whole session is a run of steps. From any state with an idle server end, for any reads of what
      is then on the request pipe, with any steps of the client before each read, any snapshots
      published between requests and any outcomes of the writes, there are turns that carry it out. */
  lemma {:induction false} SessionIsSteps(w: Wire, s: P.System, envs: nat -> I.RequestEnv,
                                          stores: nat -> seq<LatestSnapshot>, r: Received<seq<Byte>>, legs: seq<Leg>)
    returns (turns: seq<seq<P.Action>>)
    requires Lawful(w) && P.Inv(w, s) && s.server.Some? && s.server.value.reply.None?
    requires r.verdict == Open && Settled(r) && r.rest == s.server.value.buffer
    requires Available(w, s.clientUp, s.server.value.inbound, legs)
    requires Growing(stores, |r.outputs|, s.store) && Finds(envs, stores, |r.outputs|)
    ensures Carried(w, I.ServerHandler(w, envs), s, r, legs, turns)
    decreases |legs|
  {
    hide P.Inv, P.Run, TryDecodeFrame, Lawful, Continue, I.ServerHandler, Settled, Growing, Finds, Carried, AfterClient;
    var h := I.ServerHandler(w, envs);
    if legs == [] {
      turns := [];
      NoLegs(w, h, s, r);
    } else {
      var leg := legs[0];
      ClientRun(w, s, leg.before);
      var s1 := P.Run(w, s, leg.before);
      var turn := ReadIsSteps(w, s1, envs, stores, r, leg.chunk);
      var (s2, after) := (P.Run(w, s1, turn), Feed(h, r, leg.chunk));
      if after.verdict == Open {
        MovedServer(s1, s2, Concat(after.outputs[|r.outputs|..]), s1.server.value.inbound[|leg.chunk|..], after.rest);
        ContinueSettles(h, r, leg.chunk);
        FindsLater(envs, stores, |r.outputs|, |after.outputs|);
        var more := SessionIsSteps(w, s2, envs, stores, after, legs[1..]);
        turns := [turn] + more;
        OneLegMore(w, h, s, r, legs, turn, more);
      } else {
        turns := [turn];
        LastLeg(w, h, s, r, legs, turn);
      }
    }
  }

  lemma MovedServer(s: P.System, t: P.System, sent: seq<Byte>, inbound: seq<Byte>, buffer: seq<Byte>)
    requires Moved(s, t, sent, inbound, buffer, true)
    ensures t.server == Some(P.ServerEnd(inbound, buffer, None)) && t.clientUp == s.clientUp
  {
  }

  lemma NoLegs(w: Wire, h: (nat, seq<Byte>) -> (seq<Byte>, bool), s: P.System, r: Received<seq<Byte>>)
    requires P.Inv(w, s) && s.server.Some? && s.server.value.reply.None?
    requires r.verdict == Open && r.rest == s.server.value.buffer
    ensures Carried(w, h, s, r, [], [])
  {
    hide P.Inv;
    P.NoSteps(w, s);
    assert [] + s.toClient == s.toClient + [];
  }

  /** The first turn of a session, after the client's steps before it. */
  ghost predicate FirstTurn(w: Wire, h: (nat, seq<Byte>) -> (seq<Byte>, bool), s: P.System, r: Received<seq<Byte>>,
                            leg: Leg, turn: seq<P.Action>)
    requires s.server.Some?
  {
    var s1 := P.Run(w, s, leg.before);
    var (up, inbound) := AfterClient(w, s.clientUp, s.server.value.inbound, leg.before);
    var after := Feed(h, r, leg.chunk);
    && s1.clientUp == up && Taken(w, s, leg.before) + s1.toClient == s.toClient
    && AllAgentSide(turn) && |leg.chunk| <= |inbound| && P.Inv(w, P.Run(w, s1, turn))
    && Moved(s1, P.Run(w, s1, turn), Concat(NewOutputs(r, after)), inbound[|leg.chunk|..], after.rest,
             after.verdict == Open)
  }

  lemma TurnTaken(w: Wire, h: (nat, seq<Byte>) -> (seq<Byte>, bool), s: P.System, r: Received<seq<Byte>>, leg: Leg,
                  turn: seq<P.Action>)
    requires s.server.Some? && FirstTurn(w, h, s, r, leg, turn)
    ensures var t := P.Run(w, s, leg.before + turn);
      var (up, inbound) := AfterClient(w, s.clientUp, s.server.value.inbound, leg.before);
      var after := Feed(h, r, leg.chunk);
      && t == P.Run(w, P.Run(w, s, leg.before), turn) && t.clientUp == up
      && t.server == (if after.verdict != Open then None
                      else Some(P.ServerEnd(inbound[|leg.chunk|..], after.rest, None)))
      && Taken(w, s, leg.before + turn) + t.toClient
      == s.toClient + if up then Concat(NewOutputs(r, after)) else []
  {
    hide P.Inv, P.Run, Taken, AfterClient, Continue, Concat;
    var s1 := P.Run(w, s, leg.before);
    P.RunTogether(w, s, leg.before, turn);
    TakenTogether(w, s, leg.before, turn);
    AgentTakesNothing(w, s1, turn);
    var out := if s1.clientUp then Concat(NewOutputs(r, Feed(h, r, leg.chunk))) else [];
    assert s1.toClient + [] == s1.toClient;
    assert Taken(w, s, leg.before) + [] + (s1.toClient + out) == Taken(w, s, leg.before) + s1.toClient + out;
  }

  lemma LastLeg(w: Wire, h: (nat, seq<Byte>) -> (seq<Byte>, bool), s: P.System, r: Received<seq<Byte>>,
                legs: seq<Leg>, turn: seq<P.Action>)
    requires s.server.Some? && r.verdict == Open && legs != []
    requires Available(w, s.clientUp, s.server.value.inbound, legs)
    requires FirstTurn(w, h, s, r, legs[0], turn) && Feed(h, r, legs[0].chunk).verdict != Open
    ensures Carried(w, h, s, r, legs, [turn])
  {
    hide P.Inv, P.Run, Taken, AfterClient, Continue, Moved, Concat;
    var leg := legs[0];
    TurnTaken(w, h, s, r, leg, turn);
    assert [turn][1..] == [] && Woven(legs[1..], []) == [];
    assert Woven(legs, [turn]) == leg.before + turn;
    ChunksCount(legs);
    assert ChunksOf(legs)[1..] == ChunksOf(legs[1..]);
    assert FeedAll(h, r, ChunksOf(legs)) == (Feed(h, r, leg.chunk), ChunksOf(legs[1..]));
    var (up, inbound) := AfterClient(w, s.clientUp, s.server.value.inbound, leg.before);
    var reached := if up then Concat(NewOutputs(r, Feed(h, r, leg.chunk))) else [];
    assert reached + [] == reached;
    assert |[turn]| + |ChunksOf(legs[1..])| == |legs|;
    assert Reaches(w, h, r, s.clientUp, s.server.value.inbound, legs) == reached;
  }

  lemma {:induction false} ChunksCount(legs: seq<Leg>)
    ensures |ChunksOf(legs)| == |legs|
    decreases |legs|
  {
    if legs != [] {
      ChunksCount(legs[1..]);
    }
  }

  lemma OneLegMore(w: Wire, h: (nat, seq<Byte>) -> (seq<Byte>, bool), s: P.System, r: Received<seq<Byte>>,
                   legs: seq<Leg>, turn: seq<P.Action>, more: seq<seq<P.Action>>)
    requires s.server.Some? && r.verdict == Open && legs != []
    requires Available(w, s.clientUp, s.server.value.inbound, legs)
    requires FirstTurn(w, h, s, r, legs[0], turn) && Feed(h, r, legs[0].chunk).verdict == Open
    requires var s2 := P.Run(w, P.Run(w, s, legs[0].before), turn);
      && s2.server.Some? && Available(w, s2.clientUp, s2.server.value.inbound, legs[1..])
      && Carried(w, h, s2, Feed(h, r, legs[0].chunk), legs[1..], more)
    ensures Carried(w, h, s, r, legs, [turn] + more)
  {
    hide P.Inv, P.Run, Taken, AfterClient, Continue, Moved, Concat;
    var (leg, turns) := (legs[0], [turn] + more);
    var after := Feed(h, r, leg.chunk);
    TurnTaken(w, h, s, r, leg, turn);
    var s2 := P.Run(w, s, leg.before + turn);
    assert turns[1..] == more;
    assert Woven(legs, turns) == (leg.before + turn) + Woven(legs[1..], more);
    P.RunTogether(w, s, leg.before + turn, Woven(legs[1..], more));
    TakenTogether(w, s, leg.before + turn, Woven(legs[1..], more));
    assert ChunksOf(legs)[1..] == ChunksOf(legs[1..]);
    var (up, inbound) := AfterClient(w, s.clientUp, s.server.value.inbound, leg.before);
    var reached := if up then Concat(NewOutputs(r, after)) else [];
    var t := P.Run(w, s2, Woven(legs[1..], more));
    var later := Reaches(w, h, after, up, inbound[|leg.chunk|..], legs[1..]);
    TakenAndReached(Taken(w, s, leg.before + turn), Taken(w, s2, Woven(legs[1..], more)), s.toClient, s2.toClient,
                    t.toClient, reached, later);
  }

  lemma TakenAndReached(first: seq<Byte>, second: seq<Byte>, start: seq<Byte>, middle: seq<Byte>, end: seq<Byte>,
                        reached: seq<Byte>, later: seq<Byte>)
    requires first + middle == start + reached && second + end == middle + later
    ensures first + second + end == start + (reached + later)
  {
    assert first + second + end == first + (second + end) == (first + middle) + later == start + (reached + later);
  }

  /** As long as the client is there, everything the session puts out reaches the reply pipe. */
  lemma {:induction false} AllReaches(w: Wire, h: (nat, seq<Byte>) -> (seq<Byte>, bool), r: Received<seq<Byte>>,
                                      up: bool, inbound: seq<Byte>, legs: seq<Leg>)
    requires Available(w, up, inbound, legs) && up
    requires forall k :: 0 <= k < |legs| ==> forall i :: 0 <= i < |legs[k].before| ==>
      legs[k].before[i].Request? || legs[k].before[i].ClientReads?
    ensures var end := FeedAll(h, r, ChunksOf(legs)).0;
      r.outputs <= end.outputs && Reaches(w, h, r, up, inbound, legs) == Concat(end.outputs[|r.outputs|..])
    decreases |legs|
  {
    hide Receive, Concat, TryDecodeFrame;
    if legs == [] || r.verdict != Open {
      assert r.outputs[|r.outputs|..] == [];
      ConcatNothing<Byte>();
    } else {
      var leg := legs[0];
      var (nextUp, next) := AfterClient(w, up, inbound, leg.before);
      StaysUp(w, up, inbound, leg.before);
      var after := Feed(h, r, leg.chunk);
      assert ChunksOf(legs)[1..] == ChunksOf(legs[1..]);
      AllReaches(w, h, after, nextUp, next[|leg.chunk|..], legs[1..]);
      OutputsTogether(r.outputs, after.outputs, FeedAll(h, r, ChunksOf(legs)).0.outputs);
    }
  }

  lemma {:induction false} StaysUp(w: Wire, up: bool, inbound: seq<Byte>, actions: seq<P.Action>)
    requires forall i :: 0 <= i < |actions| ==> actions[i].Request? || actions[i].ClientReads?
    ensures AfterClient(w, up, inbound, actions).0 == up
    decreases |actions|
  {
    if actions != [] {
      var next := if actions[0].Request? && up then inbound + P.RequestFrame(w) else inbound;
      StaysUp(w, up, next, actions[1..]);
    }
  }

  lemma FindsLater(envs: nat -> I.RequestEnv, stores: nat -> seq<LatestSnapshot>, n: nat, m: nat)
    requires Finds(envs, stores, n) && n <= m
    ensures Finds(envs, stores, m)
  {
  }

  lemma OutputsTogether(a: seq<seq<Byte>>, b: seq<seq<Byte>>, c: seq<seq<Byte>>)
    requires a <= b <= c
    ensures Concat(b[|a|..]) + Concat(c[|b|..]) == Concat(c[|a|..])
  {
    ConcatSplit(b[|a|..], c[|b|..]);
    assert b[|a|..] + c[|b|..] == c[|a|..];
  }

  /** What the receive loop of one connection did, as `PipeConnection.Run` records it, is carried out
      by steps on a connection just made, with any steps of the client between its reads. */
  lemma ConnectionIsSteps(w: Wire, s: P.System, met: seq<I.RequestEnv>, session: Received<seq<Byte>>, legs: seq<Leg>,
                          stores: nat -> seq<LatestSnapshot>) returns (turns: seq<seq<P.Action>>)
    requires Lawful(w) && P.Inv(w, s)
    requires s.server.Some? && s.server.value.reply.None? && s.server.value.buffer == []
    requires I.ComesFrom(w, met, ChunksOf(legs), session)
    requires Available(w, s.clientUp, s.server.value.inbound, legs)
    requires Growing(stores, 0, s.store)
    requires forall m :: 0 <= m < |met| ==> met[m].stored == P.ValueAt(stores(m), |stores(m)|)
    ensures exists envs: nat -> I.RequestEnv ::
      && I.Extends(envs, met) && Carried(w, I.ServerHandler(w, envs), s, Fresh(), legs, turns)
      && FeedAll(I.ServerHandler(w, envs), Fresh(), ChunksOf(legs)) == (session, [])
  {
    hide P.Inv, P.Run, FeedAll, I.ServerHandler, Lawful, Growing, Carried;
    var envs := (m: nat) =>
      if m < |met| then met[m] else I.RequestEnv(P.ValueAt(stores(m), |stores(m)|), I.UNMET.writes);
    assert I.Extends(envs, met);
    assert Finds(envs, stores, 0);
    I.NothingRead<seq<Byte>>();
    turns := SessionIsSteps(w, s, envs, stores, Fresh(), legs);
  }

  // ----- any server session read by a client -----

  lemma {:induction false} ReplyAt(w: Wire, envs: nat -> I.RequestEnv, k: nat, i: nat)
    requires RS.AllSendable(w, envs, k) && i < k
    ensures ReplyPayload(w, envs(i).stored) == Some(RS.Replies(w, envs, k)[i])
  {
    hide ReplyPayload, Legal;
    assert RS.Sendable(w, envs, k - 1);
    if i < k - 1 {
      ReplyAt(w, envs, k - 1, i);
    }
  }

  lemma RepliesAreGood(w: Wire, envs: nat -> I.RequestEnv, k: nat)
    requires Lawful(w) && RS.AllSendable(w, envs, k)
    ensures forall i: nat :: i < k ==>
      ReadReply(w, RS.Replies(w, envs, k)[i]) == (SnapshotReceived(Told(envs(i).stored)), true)
  {
    hide RS.Replies, ReadReply, Told, Lawful, ReplyPayload;
    forall i: nat | i < k
      ensures ReadReply(w, RS.Replies(w, envs, k)[i]) == (SnapshotReceived(Told(envs(i).stored)), true)
    {
      ReplyAt(w, envs, k, i);
      P.GoodReply(w, envs(i).stored, RS.Replies(w, envs, k)[i]);
    }
  }

  /** The bytes of one server session, whatever it met, are never refused by a client: shown any
      first part of them in any cut, the client stays open and is told, in order, what the store
      held for the first requests. */
  lemma AnyClientUnderstands(w: Wire, envs: nat -> I.RequestEnv, chunks: seq<seq<Byte>>, cuts: seq<seq<Byte>>)
    requires Lawful(w)
    requires Concat(cuts) <= Concat(FeedAll(I.ServerHandler(w, envs), Fresh(), chunks).0.outputs)
    ensures var r := FeedAll(ReplyHandler(w), Fresh(), cuts).0;
      && r.verdict == Open
      && forall i :: 0 <= i < |Snapshots(r.outputs)| ==> Snapshots(r.outputs)[i] == Told(envs(i).stored)
  {
    hide FeedAll, Concat, RS.WellFramed, RS.Replies, RS.AllSendable, EncodeAll, Told, Lawful, ReplyHandler,
      I.ServerHandler, Receive,
      Snapshots, ReadReply;
    var s := FeedAll(I.ServerHandler(w, envs), Fresh(), chunks).0;
    RS.ReplyStreamIntegrity(w, envs, chunks);
    RS.SentIsPrefixOfReplies(w, envs, s);
    var m: nat :| RS.AllSendable(w, envs, m) && Concat(s.outputs) <= EncodeAll(RS.Replies(w, envs, m));
    var told := seq(m, i requires 0 <= i < m => Told(envs(i).stored));
    RepliesAreGood(w, envs, m);
    P.ReadsReplies(w, RS.Replies(w, envs, m), told, Concat(cuts));
    WholeSession(ReplyHandler(w), cuts);
  }

  lemma WholeSession<T>(h: (nat, seq<Byte>) -> (T, bool), cuts: seq<seq<Byte>>)
    ensures var (r, whole) := (FeedAll(h, Fresh(), cuts).0, Receive(h, 0, Concat(cuts)));
      r.outputs == whole.outputs && r.verdict == whole.verdict && (r.verdict == Open ==> r.rest == whole.rest)
  {
    hide FeedAll, Receive, Continue, Concat;
    I.NothingRead<T>();
    ReadsAreOneRead(h, Fresh(), cuts);
    StartOfSession(h, Concat(cuts));
    OpenReadsAll(h, Fresh(), cuts);
    ConcatNothing<Byte>();
    assert FeedAll(h, Fresh(), cuts).0.rest + [] == FeedAll(h, Fresh(), cuts).0.rest;
  }

  // ----- a healthy session -----

  /** Completeness: on a healthy pipe, with a store whose values can be sent, every request that
      arrives is answered. Whatever the cut of their frames into reads, the session stays open,
      its buffer ends empty and the replies to all of them have gone out, in order. */
  lemma EveryGoodRequestIsAnswered(w: Wire, envs: nat -> I.RequestEnv, n: nat, chunks: seq<seq<Byte>>)
    requires Lawful(w) && Legal(RequestPayload(w)) && Concat(chunks) == EncodeAll(P.Requests(w, n))
    requires forall m: nat :: I.Healthy(envs(m).writes) && RS.Sendable(w, envs, m)
    ensures var s := FeedAll(I.ServerHandler(w, envs), Fresh(), chunks).0;
      && s.verdict == Open && s.rest == [] && |s.outputs| == n
      && RS.AllSendable(w, envs, n) && Concat(s.outputs) == EncodeAll(RS.Replies(w, envs, n))
  {
    hide FeedAll, Receive, Concat, EncodeAll, TryDecodeFrame, RS.Replies, I.HandleRequest, I.Healthy, Legal,
      RequestPayload,
      Lawful, ReplyPayload;
    var h := I.ServerHandler(w, envs);
    var ps := P.Requests(w, n);
    forall m: nat, i | 0 <= i < n ensures h(m, ps[i]).1 {
      assert RS.Sendable(w, envs, m) && I.Healthy(envs(m).writes);
      RequestsParse(w);
      I.AnsweredOnHealthyPipe(w, envs(m), ps[i]);
    }
    var s := FeedAll(h, Fresh(), chunks).0;
    ReceivePrefix(h, 0, ps, EncodeAll(ps));
    ReceiveRefinesDecoder(h, 0, EncodeAll(ps));
    AllDecoded(ps);
    WholeSession(h, chunks);
    RS.ReplyStreamIntegrity(w, envs, chunks);
  }

  lemma RequestsParse(w: Wire)
    requires Lawful(w)
    ensures w.requests.parse(RequestPayload(w)) == Some(REQUEST)
  {
  }

  lemma AllDecoded(ps: seq<seq<Byte>>)
    requires AllLegal(ps)
    ensures DecodeStream(EncodeAll(ps)) == Decoded(ps, [], false)
  {
    EmptyIsIncomplete();
    StreamRoundTrip(ps, []);
    assert EncodeAll(ps) + [] == EncodeAll(ps);
  }
}
