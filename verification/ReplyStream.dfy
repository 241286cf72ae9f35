/** What one connection of the pipe server puts on its reply pipe, whatever the pipe, the store and
    the stop flag do. */
module ReplyStream {
  import opened Prelude
  import opened Framing
  import opened StreamReceiver
  import opened LocalAgentMessages
  import opened IpcServer

  predicate Sendable(w: Wire, envs: nat -> RequestEnv, n: nat) {
    ReplyPayload(w, envs(n).stored).Some?
  }

  ghost predicate AllSendable(w: Wire, envs: nat -> RequestEnv, k: int) {
    forall i: nat :: i < k ==> Sendable(w, envs, i)
  }

  /** The replies to the first `k` requests, one per request and in that order. */
  ghost function Replies(w: Wire, envs: nat -> RequestEnv, k: nat): (ps: seq<seq<Byte>>)
    requires AllSendable(w, envs, k)
    ensures |ps| == k && AllLegal(ps)
  {
    if k == 0 then []
    else assert Sendable(w, envs, k - 1); Replies(w, envs, k - 1) + [ReplyPayload(w, envs(k - 1).stored).value]
  }

  /** Requests answered in full: all that were handed on, except one that closed the connection. */
  function Answered(s: Received<seq<Byte>>): int {
    if s.verdict == Rejected then |s.outputs| - 1 else |s.outputs|
  }

  lemma OneMoreReply(w: Wire, envs: nat -> RequestEnv, k: nat)
    requires AllSendable(w, envs, k) && Sendable(w, envs, k)
    ensures AllSendable(w, envs, k + 1)
    ensures EncodeAll(Replies(w, envs, k + 1))
         == EncodeAll(Replies(w, envs, k)) + Frame(ReplyPayload(w, envs(k).stored).value)
  {
    var last := ReplyPayload(w, envs(k).stored).value;
    EncodeAllSplit(Replies(w, envs, k), [last]);
    EncodeOne(last);
  }

  lemma {:induction false} WholeReplies(w: Wire, envs: nat -> RequestEnv, ps: seq<seq<Byte>>, outs: seq<seq<Byte>>)
    requires |outs| <= |ps|
    requires forall i :: 0 <= i < |outs| ==> HandleRequest(w, envs(i), ps[i]) == (outs[i], true)
    ensures AllSendable(w, envs, |outs|)
    ensures Concat(outs) == EncodeAll(Replies(w, envs, |outs|))
    decreases |outs|
  {
    hide ReplyPayload, HandleRequest;
    if outs != [] {
      var k := |outs| - 1;
      WholeReplies(w, envs, ps, outs[..k]);
      ReplyIsWholeOrCut(w, envs(k), ps[k]);
      OneMoreReply(w, envs, k);
      assert outs == outs[..k] + [outs[k]];
      ConcatSplit(outs[..k], [outs[k]]);
      ConcatOne(outs[k]);
    }
  }

  /** `ps` was handed on, the last of them refused if the verdict says so. */
  ghost predicate Handled(w: Wire, envs: nat -> RequestEnv, ps: seq<seq<Byte>>, s: Received<seq<Byte>>) {
    && |s.outputs| <= |ps|
    && (s.verdict == Rejected ==> s.outputs != [])
    && forall i :: 0 <= i < |s.outputs| ==>
         HandleRequest(w, envs(i), ps[i]) == (s.outputs[i], !(s.verdict == Rejected && i == |s.outputs| - 1))
  }

  /** Whole frames of the replies to the first requests, each about the value the store held for
      that request, followed at most by what a failed write left of the next one; and then the
      connection is closed. */
  ghost predicate WellFramed(w: Wire, envs: nat -> RequestEnv, s: Received<seq<Byte>>) {
    var k := Answered(s);
    && 0 <= k && AllSendable(w, envs, k)
    && (s.verdict != Rejected ==> Concat(s.outputs) == EncodeAll(Replies(w, envs, k)))
    && (s.verdict == Rejected ==>
          var tail := s.outputs[k];
          && Concat(s.outputs) == EncodeAll(Replies(w, envs, k)) + tail
          && (tail == [] || (Sendable(w, envs, k) && tail <= Frame(ReplyPayload(w, envs(k).stored).value))))
  }

  lemma HandledIsWellFramed(w: Wire, envs: nat -> RequestEnv, ps: seq<seq<Byte>>, s: Received<seq<Byte>>)
    requires Handled(w, envs, ps, s)
    ensures WellFramed(w, envs, s)
  {
    hide HandleRequest, ReplyPayload;
    var k := Answered(s);
    WholeReplies(w, envs, ps, s.outputs[..k]);
    if s.verdict == Rejected {
      assert s.outputs == s.outputs[..k] + [s.outputs[k]];
      ConcatSplit(s.outputs[..k], [s.outputs[k]]);
      ConcatOne(s.outputs[k]);
      ReplyIsWholeOrCut(w, envs(k), ps[k]);
    } else {
      assert s.outputs[..k] == s.outputs;
    }
  }

  /** Reply-stream integrity, for any reads, partial writes, write failures, zero writes and stop
      flags. */
  lemma ReplyStreamIntegrity(w: Wire, envs: nat -> RequestEnv, chunks: seq<seq<Byte>>)
    ensures WellFramed(w, envs, FeedAll(ServerHandler(w, envs), Fresh(), chunks).0)
  {
    SessionIsHandled(w, envs, chunks);
    HandledIsWellFramed(w, envs, DecodeStream(Concat(chunks)).payloads,
                        FeedAll(ServerHandler(w, envs), Fresh(), chunks).0);
  }

  /** What was sent, frame by frame: `m` whole replies and at most a proper prefix of one more. */
  ghost predicate FramesAndPrefix(w: Wire, envs: nat -> RequestEnv, sent: seq<Byte>, m: nat, tail: seq<Byte>) {
    && AllSendable(w, envs, m) && sent == EncodeAll(Replies(w, envs, m)) + tail
    && (tail == [] || (Sendable(w, envs, m) && tail < Frame(ReplyPayload(w, envs(m).stored).value)))
  }

  /** Every connection sends whole frames and at most one proper frame prefix; what falls short of
      the replies to all requests taken up, or such a prefix, is left by a closed connection only. */
  lemma SentIsFramesAndPrefix(w: Wire, envs: nat -> RequestEnv, chunks: seq<seq<Byte>>)
    returns (m: nat, tail: seq<Byte>)
    ensures var s := FeedAll(ServerHandler(w, envs), Fresh(), chunks).0;
      && FramesAndPrefix(w, envs, Concat(s.outputs), m, tail)
      && |s.outputs| - 1 <= m <= |s.outputs| && (m < |s.outputs| || tail != [] ==> s.verdict == Rejected)
  {
    hide ReplyPayload, FeedAll, ServerHandler, Replies;
    var s := FeedAll(ServerHandler(w, envs), Fresh(), chunks).0;
    ReplyStreamIntegrity(w, envs, chunks);
    m, tail := Answered(s), [];
    assert EncodeAll(Replies(w, envs, m)) + [] == EncodeAll(Replies(w, envs, m));
    if s.verdict == Rejected && s.outputs[m] != [] {
      tail := s.outputs[m];
      if tail == Frame(ReplyPayload(w, envs(m).stored).value) {
        OneMoreReply(w, envs, m);
        m, tail := m + 1, [];
        assert EncodeAll(Replies(w, envs, m)) + [] == EncodeAll(Replies(w, envs, m));
      }
    }
  }

  /** A whole session in terms of single requests. */
  lemma SessionIsHandled(w: Wire, envs: nat -> RequestEnv, chunks: seq<seq<Byte>>)
    ensures Handled(w, envs, DecodeStream(Concat(chunks)).payloads,
                    FeedAll(ServerHandler(w, envs), Fresh(), chunks).0)
  {
    var h := ServerHandler(w, envs);
    var b := Concat(chunks);
    var ps := DecodeStream(b).payloads;
    ReadsAreOneRead(h, Fresh(), chunks);
    ReceiveRefinesDecoder(h, 0, b);
    var r := Receive(h, 0, b);
    assert [] + b == b && [] + r.outputs == r.outputs;
    assert FeedAll(h, Fresh(), chunks).0.outputs == r.outputs;
    forall i | 0 <= i < |r.outputs|
      ensures HandleRequest(w, envs(i), ps[i]) == (r.outputs[i], !(r.verdict == Rejected && i == |r.outputs| - 1))
    {
      assert h(0 + i, ps[i]) == HandleRequest(w, envs(i), ps[i]);
    }
  }

  /** A reader of the reply pipe sees a prefix of whole replies, however little has arrived. */
  lemma SentIsPrefixOfReplies(w: Wire, envs: nat -> RequestEnv, s: Received<seq<Byte>>)
    requires WellFramed(w, envs, s)
    ensures exists m: nat :: AllSendable(w, envs, m) && Concat(s.outputs) <= EncodeAll(Replies(w, envs, m))
  {
    hide ReplyPayload;
    var k := Answered(s);
    if s.verdict == Rejected && s.outputs[k] != [] {
      OneMoreReply(w, envs, k);
      var (tail, all) := (s.outputs[k], EncodeAll(Replies(w, envs, k)));
      assert all + tail <= all + Frame(ReplyPayload(w, envs(k).stored).value);
    } else {
      assert s.verdict == Rejected ==> Concat(s.outputs) == EncodeAll(Replies(w, envs, k));
      assert Concat(s.outputs) <= EncodeAll(Replies(w, envs, k));
    }
  }

  /** The stop flag as the write loops see it: set from check `i` of request `n` on. */
  ghost predicate StoppedFrom(envs: nat -> RequestEnv, n: nat, i: nat) {
    && (forall j: nat :: j >= i ==> envs(n).writes(j).stopped)
    && (forall m: nat, j: nat :: m > n ==> envs(m).writes(j).stopped)
  }

  /** Bounded work after stop. If the flag is set from check `i` of request `n` on, request `n` makes
      only the calls checked before, at most one later request is taken up, and it sends nothing. */
  lemma NoWriteAfterStop(w: Wire, envs: nat -> RequestEnv, n: nat, i: nat, chunks: seq<seq<Byte>>)
    requires StoppedFrom(envs, n, i)
    ensures var s := FeedAll(ServerHandler(w, envs), Fresh(), chunks).0;
      && |s.outputs| <= n + 2
      && (|s.outputs| == n + 2 ==> s.verdict == Rejected && s.outputs[n + 1] == [])
    ensures forall size: nat :: WriteRun(envs(n).writes, 0, size, 0).calls <= i
    ensures forall m: nat, size: nat :: m > n ==> WriteRun(envs(m).writes, 0, size, 0).calls == 0
  {
    var s := FeedAll(ServerHandler(w, envs), Fresh(), chunks).0;
    SessionIsHandled(w, envs, chunks);
    var ps := DecodeStream(Concat(chunks)).payloads;
    if |s.outputs| > n + 1 {
      assert envs(n + 1).writes(0).stopped;
      StoppedRefuses(w, envs(n + 1), ps[n + 1]);
      assert HandleRequest(w, envs(n + 1), ps[n + 1]).1 == !(s.verdict == Rejected && n + 1 == |s.outputs| - 1);
    }
    forall size: nat ensures WriteRun(envs(n).writes, 0, size, 0).calls <= i {
      WritesAreChecked(envs(n).writes, 0, size, 0);
      assert envs(n).writes(i).stopped;
    }
    forall m: nat, size: nat | m > n ensures WriteRun(envs(m).writes, 0, size, 0).calls == 0 {
      assert envs(m).writes(0).stopped;
    }
  }

  lemma StoppedRefuses(w: Wire, env: RequestEnv, payload: seq<Byte>)
    requires env.writes(0).stopped
    ensures HandleRequest(w, env, payload) == ([], false)
  {
    var reply := ReplyPayload(w, env.stored);
    if reply.Some? {
      assert Frame(reply.value)[..0] == [];
    }
  }
}
