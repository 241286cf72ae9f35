/** The receive loop that the Agent's pipe server and the Desktop client both run: append what was
    read, take whole frames off the front, hand each payload on, stop at the first refusal. */
module StreamReceiver {
  import opened Prelude
  import opened Framing

  /** Why a connection is still open, or what closed it. */
  datatype Verdict = Open | BadLength | Rejected

  /** What a connection has put out so far, the bytes still buffered, and the verdict. */
  datatype Received<+T> = Received(outputs: seq<T>, rest: seq<Byte>, verdict: Verdict)

  function Fresh<T>(): Received<T> {
    Received([], [], Open)
  }

  /** One pass of the decode loop over `b`. `h(n, p)` is what the n-th payload of the connection
      makes the receiver put out, and whether the connection is kept. */
  function Receive<T>(h: (nat, seq<Byte>) -> (T, bool), n: nat, b: seq<Byte>): (r: Received<T>)
    ensures 5 * |r.outputs| + |r.rest| <= |b|
    ensures r.verdict == Open ==> TryDecodeFrame(r.rest).status == Incomplete
    decreases |b|
  {
    var d := TryDecodeFrame(b);
    match d.status
    case Incomplete => Received([], b, Open)
    case InvalidLength => Received([], b, BadLength)
    case Complete =>
      var (out, keep) := h(n, d.payload);
      if !keep then
        Received([out], b[d.consumed..], Rejected)
      else
        var r := Receive(h, n + 1, b[d.consumed..]);
        Received([out] + r.outputs, r.rest, r.verdict)
  }

  /** What a receiver that has come to `s` makes of `b` next; `n` payloads came before `s`. A
      closed one takes nothing off its buffer any more. */
  function Continue<T>(h: (nat, seq<Byte>) -> (T, bool), n: nat, s: Received<T>, b: seq<Byte>): Received<T> {
    if s.verdict == Open then
      var r := Receive(h, n + |s.outputs|, s.rest + b);
      Received(s.outputs + r.outputs, r.rest, r.verdict)
    else
      s.(rest := s.rest + b)
  }

  /** One read on an open connection. */
  function Feed<T>(h: (nat, seq<Byte>) -> (T, bool), s: Received<T>, chunk: seq<Byte>): Received<T> {
    Continue(h, 0, s, chunk)
  }

  /** Successive reads until the connection closes; the second part was never read. */
  function FeedAll<T>(h: (nat, seq<Byte>) -> (T, bool), s: Received<T>, chunks: seq<seq<Byte>>)
    : (Received<T>, seq<seq<Byte>>)
    decreases |chunks|
  {
    if chunks == [] || s.verdict != Open then (s, chunks)
    else FeedAll(h, Feed(h, s, chunks[0]), chunks[1..])
  }

  /** Between reads every whole frame has been taken. */
  predicate Settled<T>(s: Received<T>) {
    s.verdict == Open ==> TryDecodeFrame(s.rest).status == Incomplete
  }

  lemma {:induction false} ReceiveAppend<T>(h: (nat, seq<Byte>) -> (T, bool), n: nat, a: seq<Byte>, b: seq<Byte>)
    ensures Receive(h, n, a + b) == Continue(h, n, Receive(h, n, a), b)
    decreases |a|
  {
    hide TryDecodeFrame;
    var d := TryDecodeFrame(a);
    match d.status
    case Incomplete =>
      var q := Receive(h, n, a + b);
      assert [] + q.outputs == q.outputs;
    case InvalidLength =>
      VerdictStable(a, b);
    case Complete =>
      VerdictStable(a, b);
      var rest := a[d.consumed..];
      assert (a + b)[d.consumed..] == rest + b;
      if h(n, d.payload).1 {
        ReceiveAppend(h, n + 1, rest, b);
        ContinueAfterOne(h, n, h(n, d.payload).0, Receive(h, n + 1, rest), b);
      }
  }

  lemma ContinueAfterOne<T>(h: (nat, seq<Byte>) -> (T, bool), n: nat, out: T, s: Received<T>, b: seq<Byte>)
    ensures var after := Continue(h, n + 1, s, b);
      Continue(h, n, s.(outputs := [out] + s.outputs), b) == after.(outputs := [out] + after.outputs)
  {
    if s.verdict == Open {
      var q := Receive(h, n + 1 + |s.outputs|, s.rest + b);
      assert [out] + (s.outputs + q.outputs) == ([out] + s.outputs) + q.outputs;
    }
  }

  lemma ContinueTwice<T>(h: (nat, seq<Byte>) -> (T, bool), n: nat, s: Received<T>, a: seq<Byte>, b: seq<Byte>)
    ensures Continue(h, n, s, a + b) == Continue(h, n, Continue(h, n, s, a), b)
  {
    hide Receive;
    assert s.rest + (a + b) == (s.rest + a) + b;
    if s.verdict == Open {
      var m := n + |s.outputs|;
      ReceiveAppend(h, m, s.rest + a, b);
      var r := Receive(h, m, s.rest + a);
      if r.verdict == Open {
        var q := Receive(h, m + |r.outputs|, r.rest + b);
        assert s.outputs + (r.outputs + q.outputs) == (s.outputs + r.outputs) + q.outputs;
      }
    }
  }

  lemma {:induction false} ReadsAreOneRead<T>(h: (nat, seq<Byte>) -> (T, bool), s: Received<T>, chunks: seq<seq<Byte>>)
    requires Settled(s)
    ensures var (end, unread) := FeedAll(h, s, chunks);
      Continue(h, 0, s, Concat(chunks)) == end.(rest := end.rest + Concat(unread))
    decreases |chunks|
  {
    if chunks == [] {
      SettledStays(h, s);
    } else if s.verdict == Open {
      ContinueTwice(h, 0, s, chunks[0], Concat(chunks[1..]));
      ReadsAreOneRead(h, Feed(h, s, chunks[0]), chunks[1..]);
    }
  }

  lemma StartOfSession<T>(h: (nat, seq<Byte>) -> (T, bool), b: seq<Byte>)
    ensures Continue(h, 0, Fresh(), b) == Receive(h, 0, b)
  {
    hide Receive;
    assert [] + b == b && [] + Receive(h, 0, b).outputs == Receive(h, 0, b).outputs;
  }

  lemma SettledStays<T>(h: (nat, seq<Byte>) -> (T, bool), s: Received<T>)
    requires Settled(s)
    ensures Continue(h, 0, s, []) == s
  {
    assert s.rest + [] == s.rest && s.outputs + [] == s.outputs;
  }

  /** Chunking independence: however the same bytes are cut into reads, a connection puts out the
      same things and ends with the same verdict, and its buffer followed by what it never read is
      the same byte string. So the buffers agree exactly when as many bytes were left unread, which
      on an open connection is none. */
  lemma ChunkingIndependence<T>(h: (nat, seq<Byte>) -> (T, bool), cut: seq<seq<Byte>>, other: seq<seq<Byte>>)
    requires Concat(cut) == Concat(other)
    ensures var (a, unreadA) := FeedAll(h, Fresh(), cut);
      var (b, unreadB) := FeedAll(h, Fresh(), other);
      && a.outputs == b.outputs && a.verdict == b.verdict
      && a.rest + Concat(unreadA) == b.rest + Concat(unreadB)
      && (a.rest == b.rest <==> |Concat(unreadA)| == |Concat(unreadB)|)
      && (a.verdict == Open ==> unreadA == unreadB == [])
  {
    hide Receive, Continue, FeedAll, Concat;
    ReadsAreOneRead(h, Fresh(), cut);
    ReadsAreOneRead(h, Fresh(), other);
    OpenReadsAll(h, Fresh(), cut);
    OpenReadsAll(h, Fresh(), other);
    var (a, unreadA) := FeedAll(h, Fresh(), cut);
    var (b, unreadB) := FeedAll(h, Fresh(), other);
    SameHead(a.rest, Concat(unreadA), b.rest, Concat(unreadB));
  }

  lemma SameHead(a: seq<Byte>, x: seq<Byte>, b: seq<Byte>, y: seq<Byte>)
    requires a + x == b + y
    ensures a == b <==> |x| == |y|
  {
    assert a == (a + x)[..|a|] && b == (b + y)[..|b|];
    assert |a| + |x| == |a + x| == |b + y| == |b| + |y|;
  }

  lemma {:induction false} OpenReadsAll<T>(h: (nat, seq<Byte>) -> (T, bool), s: Received<T>, chunks: seq<seq<Byte>>)
    ensures FeedAll(h, s, chunks).0.verdict == Open ==> FeedAll(h, s, chunks).1 == []
    decreases |chunks|
  {
    if chunks != [] && s.verdict == Open {
      OpenReadsAll(h, Feed(h, s, chunks[0]), chunks[1..]);
    }
  }

  // ----- which buffer a closed connection is left with -----

  /** The first read boundary at or after byte `n`. */
  function FirstCut(chunks: seq<seq<Byte>>, n: nat): nat {
    if chunks == [] || n == 0 then 0
    else |chunks[0]| + FirstCut(chunks[1..], if n > |chunks[0]| then n - |chunks[0]| else 0)
  }

  /** The first `n` bytes of `b` close a receiver that has come to `s`, and no fewer do. */
  ghost predicate ClosesAt<T(!new)>(h: (nat, seq<Byte>) -> (T, bool), s: Received<T>, b: seq<Byte>, n: nat) {
    && n <= |b| && Continue(h, 0, s, b[..n]).verdict != Open
    && forall m: nat :: m < n ==> Continue(h, 0, s, b[..m]).verdict == Open
  }

  /** A stream that closes its receiver does so at one byte. */
  lemma {:induction false} ClosesSomewhere<T(!new)>(h: (nat, seq<Byte>) -> (T, bool), s: Received<T>, b: seq<Byte>)
    returns (n: nat)
    requires Continue(h, 0, s, b).verdict != Open
    ensures ClosesAt(h, s, b, n)
    decreases |b|
  {
    hide Continue;
    assert b[..|b|] == b;
    var k: nat :| k <= |b| && Continue(h, 0, s, b[..k]).verdict != Open;
    if m: nat :| m < k && Continue(h, 0, s, b[..m]).verdict != Open {
      n := ClosesSomewhere(h, s, b[..m]);
      assert forall i: nat :: i <= n ==> b[..m][..i] == b[..i];
    } else {
      n := k;
    }
  }

  lemma ClosedStaysClosed<T>(h: (nat, seq<Byte>) -> (T, bool), s: Received<T>, b: seq<Byte>, n: nat)
    requires n <= |b| && Continue(h, 0, s, b[..n]).verdict != Open
    ensures Continue(h, 0, s, b).verdict != Open
  {
    hide Receive;
    assert b == b[..n] + b[n..];
    ContinueTwice(h, 0, s, b[..n], b[n..]);
  }

  lemma ClosesLater<T(!new)>(h: (nat, seq<Byte>) -> (T, bool), s: Received<T>, chunk: seq<Byte>, more: seq<Byte>,
      n: nat)
    requires ClosesAt(h, s, chunk + more, n) && n > |chunk|
    ensures ClosesAt(h, Feed(h, s, chunk), more, n - |chunk|)
  {
    hide Continue;
    forall m: nat | m <= n - |chunk|
      ensures Continue(h, 0, s, (chunk + more)[..|chunk| + m]) == Continue(h, 0, Feed(h, s, chunk), more[..m])
    {
      assert (chunk + more)[..|chunk| + m] == chunk + more[..m];
      ContinueTwice(h, 0, s, chunk, more[..m]);
    }
  }

  /** A connection that closes at byte `n` reads up to the first boundary from there on. */
  lemma {:induction false} ReadsUpToFirstCut<T(!new)>(h: (nat, seq<Byte>) -> (T, bool), s: Received<T>,
      chunks: seq<seq<Byte>>, n: nat)
    requires Settled(s) && ClosesAt(h, s, Concat(chunks), n)
    ensures |Concat(chunks)| == FirstCut(chunks, n) + |Concat(FeedAll(h, s, chunks).1)|
    decreases |chunks|
  {
    hide Continue, TryDecodeFrame;
    var b := Concat(chunks);
    assert b[..0] == [];
    SettledStays(h, s);
    if chunks != [] && n > 0 {
      var (chunk, rest) := (chunks[0], chunks[1..]);
      var next := Feed(h, s, chunk);
      if n <= |chunk| {
        assert b[..n] == chunk[..n];
        ClosedStaysClosed(h, s, chunk, n);
      } else {
        ClosesLater(h, s, chunk, Concat(rest), n);
        ContinueSettles(h, s, chunk);
        ReadsUpToFirstCut(h, next, rest, n - |chunk|);
      }
    }
  }

  lemma ContinueSettles<T>(h: (nat, seq<Byte>) -> (T, bool), s: Received<T>, chunk: seq<Byte>)
    ensures Settled(Feed(h, s, chunk))
  {
  }

  /** The exact condition on the cuts: where a stream closes its connection at byte `n`, two ways of
      reading it leave the same buffer exactly when their first boundaries from byte `n` on agree. */
  lemma BuffersAgreeExactlyWhen<T(!new)>(h: (nat, seq<Byte>) -> (T, bool), cut: seq<seq<Byte>>, other: seq<seq<Byte>>,
      n: nat)
    requires Concat(cut) == Concat(other) && ClosesAt(h, Fresh(), Concat(cut), n)
    ensures FeedAll(h, Fresh(), cut).0.rest == FeedAll(h, Fresh(), other).0.rest
       <==> FirstCut(cut, n) == FirstCut(other, n)
  {
    hide Receive, Continue, FeedAll, Concat, FirstCut, ClosesAt;
    ReadsUpToFirstCut(h, Fresh(), cut, n);
    ReadsUpToFirstCut(h, Fresh(), other, n);
    ChunkingIndependence(h, cut, other);
  }

  /** A receiver that refuses the first frame keeps what follows it. */
  lemma RefusedFrame<T>(h: (nat, seq<Byte>) -> (T, bool), b: seq<Byte>)
    requires |b| >= 5 && b[..5] == [1, 0, 0, 0, 9] && !h(0, [9]).1
    ensures var s := Feed(h, Fresh(), b); s.verdict == Rejected && s.rest == b[5..]
  {
    assert b[4..5] == [9];
    assert TryDecodeFrame(b) == DecodeResult(Complete, 5, [9]);
    assert [] + b == b;
  }

  /** `r` handed on the first payloads of `ps`, in order, and put out what `h` makes of each. */
  ghost predicate HandsOn<T(!new)>(h: (nat, seq<Byte>) -> (T, bool), n: nat, ps: seq<seq<Byte>>, r: Received<T>) {
    && |r.outputs| <= |ps|
    && forall i :: 0 <= i < |r.outputs| ==> r.outputs[i] == h(n + i, ps[i]).0
  }

  /** `r` stopped at the first payload that `h` refuses, if it met one. */
  ghost predicate StopsAtRefusal<T(!new)>(h: (nat, seq<Byte>) -> (T, bool), n: nat, ps: seq<seq<Byte>>,
      r: Received<T>) {
    && |r.outputs| <= |ps|
    && (forall i :: 0 <= i < |r.outputs| ==>
          (h(n + i, ps[i]).1 <==> !(r.verdict == Rejected && i == |r.outputs| - 1)))
    && (r.verdict == Rejected ==> r.outputs != [])
  }

  lemma HandsOnCons<T(!new)>(h: (nat, seq<Byte>) -> (T, bool), n: nat, p: seq<Byte>, ps: seq<seq<Byte>>, r: Received<T>)
    requires HandsOn(h, n + 1, ps, r)
    ensures HandsOn(h, n, [p] + ps, r.(outputs := [h(n, p).0] + r.outputs))
  {
    forall i | 0 < i < |r.outputs| + 1 ensures ([h(n, p).0] + r.outputs)[i] == h(n + i, ([p] + ps)[i]).0 {
      assert r.outputs[i - 1] == h(n + 1 + (i - 1), ps[i - 1]).0;
    }
  }

  lemma StopsAtRefusalCons<T(!new)>(h: (nat, seq<Byte>) -> (T, bool), n: nat, p: seq<Byte>, ps: seq<seq<Byte>>,
      r: Received<T>)
    requires StopsAtRefusal(h, n + 1, ps, r) && h(n, p).1
    ensures StopsAtRefusal(h, n, [p] + ps, r.(outputs := [h(n, p).0] + r.outputs))
  {
    var k := |r.outputs|;
    forall i | 0 < i < k + 1 ensures h(n + i, ([p] + ps)[i]).1 <==> !(r.verdict == Rejected && i == k) {
      assert h(n + 1 + (i - 1), ps[i - 1]).1 <==> !(r.verdict == Rejected && i - 1 == k - 1);
    }
  }

  lemma TakeCons<T>(p: T, ps: seq<T>, k: nat)
    requires k <= |ps|
    ensures ([p] + ps)[..k + 1] == [p] + ps[..k]
  {
  }

  /** The cases in which the receiver does not go on. */
  lemma OneOutput<T(!new)>(h: (nat, seq<Byte>) -> (T, bool), n: nat, b: seq<Byte>)
    requires TryDecodeFrame(b).status == Complete ==> !h(n, TryDecodeFrame(b).payload).1
    ensures var (r, ps) := (Receive(h, n, b), DecodeStream(b).payloads);
      HandsOn(h, n, ps, r) && StopsAtRefusal(h, n, ps, r)
  {
    hide TryDecodeFrame;
  }

  /** The receiver refines the stream decoder: it hands on the decoder's payloads in order, up to
      the first one refused, and accounts for every byte. */
  lemma {:induction false} ReceiveRefinesDecoder<T(!new)>(h: (nat, seq<Byte>) -> (T, bool), n: nat, b: seq<Byte>)
    ensures var (r, d) := (Receive(h, n, b), DecodeStream(b));
      && HandsOn(h, n, d.payloads, r) && StopsAtRefusal(h, n, d.payloads, r)
      && (r.verdict != Rejected ==>
            |r.outputs| == |d.payloads| && r.rest == d.rest && (d.invalid <==> r.verdict == BadLength))
    decreases |b|
  {
    hide TryDecodeFrame, HandsOn, StopsAtRefusal;
    var f := TryDecodeFrame(b);
    if f.status == Complete && h(n, f.payload).1 {
      var rest := b[f.consumed..];
      var (r, d) := (Receive(h, n + 1, rest), DecodeStream(rest));
      ReceiveRefinesDecoder(h, n + 1, rest);
      HandsOnCons(h, n, f.payload, d.payloads, r);
      StopsAtRefusalCons(h, n, f.payload, d.payloads, r);
    } else {
      OneOutput(h, n, b);
    }
  }

  lemma AccountCons(p: seq<Byte>, ps: seq<seq<Byte>>, k: nat, tail: seq<Byte>)
    requires Legal(p) && AllLegal(ps) && k <= |ps|
    ensures EncodeAll(([p] + ps)[..k + 1]) + tail == Frame(p) + (EncodeAll(ps[..k]) + tail)
  {
    TakeCons(p, ps, k);
    EncodeAllCons(p, ps[..k], tail);
  }

  lemma {:induction false} ReceiveAccountsForBytes<T>(h: (nat, seq<Byte>) -> (T, bool), n: nat, b: seq<Byte>)
    ensures var (r, d) := (Receive(h, n, b), DecodeStream(b));
      |r.outputs| <= |d.payloads| && b == EncodeAll(d.payloads[..|r.outputs|]) + r.rest
    decreases |b|
  {
    hide TryDecodeFrame;
    var f := TryDecodeFrame(b);
    if f.status == Complete {
      var rest := b[f.consumed..];
      var (r, d) := (Receive(h, n + 1, rest), DecodeStream(rest));
      if h(n, f.payload).1 {
        ReceiveAccountsForBytes(h, n + 1, rest);
        AccountCons(f.payload, d.payloads, |r.outputs|, r.rest);
      } else {
        AccountCons(f.payload, d.payloads, 0, rest);
      }
    }
  }

  /** A receiver that keeps every one of `ps`, shown a prefix of their frames, stays open, has put
      out exactly the outputs of some first payloads, and holds the start of the others. */
  lemma {:induction false} ReceivePrefix<T(!new)>(h: (nat, seq<Byte>) -> (T, bool), n: nat, ps: seq<seq<Byte>>,
      b: seq<Byte>)
    requires AllLegal(ps) && b <= EncodeAll(ps)
    requires forall m: nat, i :: 0 <= i < |ps| ==> h(m, ps[i]).1
    ensures var r := Receive(h, n, b);
      && r.verdict == Open && HandsOn(h, n, ps, r)
      && b == EncodeAll(ps[..|r.outputs|]) + r.rest
    decreases |ps|
  {
    hide TryDecodeFrame, HandsOn, EncodeAll, Legal;
    HeadOfPrefix(ps, b);
    var f := TryDecodeFrame(b);
    if f.status == Complete {
      var rest := b[f.consumed..];
      assert forall m: nat, i :: 0 <= i < |ps[1..]| ==> h(m, ps[1..][i]) == h(m, ps[i + 1]);
      ReceivePrefix(h, n + 1, ps[1..], rest);
      var r := Receive(h, n + 1, rest);
      assert ps == [ps[0]] + ps[1..];
      assert h(n, ps[0]).1;
      HandsOnCons(h, n, ps[0], ps[1..], r);
      AccountCons(ps[0], ps[1..], |r.outputs|, r.rest);
    } else {
      HandsOnNothing(h, n, ps, b);
      NothingTakenOff(ps, b);
    }
  }

  lemma NothingTakenOff(ps: seq<seq<Byte>>, b: seq<Byte>)
    requires AllLegal(ps)
    ensures EncodeAll(ps[..0]) + b == b
  {
  }

  lemma HandsOnNothing<T(!new)>(h: (nat, seq<Byte>) -> (T, bool), n: nat, ps: seq<seq<Byte>>, b: seq<Byte>)
    ensures HandsOn(h, n, ps, Received([], b, Open))
  {
  }

  // ----- one pass of the decode loop, frame by frame -----

  lemma NoFrame<T>(h: (nat, seq<Byte>) -> (T, bool), s: Received<T>)
    requires s.verdict == Open && TryDecodeFrame(s.rest).status != Complete
    ensures Continue(h, 0, s, []) ==
      if TryDecodeFrame(s.rest).status == Incomplete then s else s.(verdict := BadLength)
  {
    assert s.rest + [] == s.rest && s.outputs + [] == s.outputs;
  }

  lemma OneFrame<T>(h: (nat, seq<Byte>) -> (T, bool), s: Received<T>, d: DecodeResult)
    requires s.verdict == Open && d == TryDecodeFrame(s.rest) && d.status == Complete
    ensures var (out, keep) := h(|s.outputs|, d.payload);
      var next := Received(s.outputs + [out], s.rest[d.consumed..], if keep then Open else Rejected);
      Continue(h, 0, s, []) == if keep then Continue(h, 0, next, []) else next
  {
    hide TryDecodeFrame;
    var (out, keep) := h(|s.outputs|, d.payload);
    var rest := s.rest[d.consumed..];
    assert s.rest + [] == s.rest && rest + [] == rest;
    if keep {
      var r := Receive(h, |s.outputs| + 1, rest);
      assert s.outputs + ([out] + r.outputs) == (s.outputs + [out]) + r.outputs;
    }
  }

  lemma ReceiveOnly<T>(h: (nat, seq<Byte>) -> (T, bool), s: Received<T>, chunk: seq<Byte>)
    requires s.verdict == Open
    ensures Continue(h, 0, s.(rest := s.rest + chunk), []) == Feed(h, s, chunk)
    ensures Settled(Feed(h, s, chunk)) && |Feed(h, s, chunk).rest| <= |s.rest + chunk|
  {
    assert (s.rest + chunk) + [] == s.rest + chunk;
  }
}
