/** The "; "-separated texts that the pipe server and the telemetry cycle build by appending. */
module StatusText {
  const SEPARATOR := "; "

  /** `append_status` and the cycle's `append_error`. */
  function Append(destination: string, message: string): string {
    if destination == "" then message else destination + SEPARATOR + message
  }

  /** The parts with a separator between neighbours. */
  function Joined(parts: seq<string>): string {
    if parts == [] then ""
    else if |parts| == 1 then parts[0]
    else parts[0] + SEPARATOR + Joined(parts[1..])
  }

  predicate NoneEmpty(parts: seq<string>) {
    forall i :: 0 <= i < |parts| ==> parts[i] != ""
  }

  lemma JoinedEmpty(parts: seq<string>)
    requires NoneEmpty(parts)
    ensures Joined(parts) == "" <==> parts == []
  {
  }

  /** Appending one message after another joins them. */
  lemma {:induction false} AppendJoins(parts: seq<string>, message: string)
    requires NoneEmpty(parts)
    ensures Append(Joined(parts), message) == Joined(parts + [message])
  {
    JoinedEmpty(parts);
    if |parts| == 1 {
      assert (parts + [message])[1..] == [message];
    } else if |parts| > 1 {
      assert (parts + [message])[1..] == parts[1..] + [message];
      JoinedEmpty(parts[1..]);
      AppendJoins(parts[1..], message);
      assert Joined(parts) + SEPARATOR + message
          == parts[0] + SEPARATOR + (Joined(parts[1..]) + SEPARATOR + message);
    }
  }

  /** A part that is there under a condition only. */
  function When(condition: bool, text: string): (parts: seq<string>)
    ensures text != "" ==> NoneEmpty(parts)
    ensures parts == [] <==> !condition
  {
    if condition then [text] else []
  }

  lemma NothingJoined() returns (parts: seq<string>)
    ensures parts == [] && NoneEmpty(parts) && Joined(parts) == ""
  {
    parts := [];
  }

  /** One conditional append. */
  lemma JoinWhen(parts: seq<string>, condition: bool, text: string) returns (more: seq<string>)
    requires NoneEmpty(parts) && text != ""
    ensures more == parts + When(condition, text) && NoneEmpty(more)
    ensures Joined(more) == if condition then Append(Joined(parts), text) else Joined(parts)
  {
    more := parts + When(condition, text);
    if condition {
      AppendJoins(parts, text);
    } else {
      assert more == parts;
    }
  }

  /** Two texts, each possibly empty, as one. */
  function Both(a: string, b: string): string {
    if a == "" then b else if b == "" then a else a + "; " + b
  }

  lemma JoinedPair(first: bool, a: string, second: bool, b: string)
    requires a != "" && b != ""
    ensures Joined(When(first, a) + When(second, b)) == Both(if first then a else "", if second then b else "")
  {
    assert ([a] + [b])[1..] == [b];
    assert When(first, a) + [] == When(first, a) && [] + When(second, b) == When(second, b);
  }

  lemma AppendAppend(a: string, b: string, c: string)
    requires a != "" && b != ""
    ensures Append(Append(a, b), c) == Append(a, Append(b, c))
  {
    assert a + SEPARATOR + b + SEPARATOR + c == a + SEPARATOR + (b + SEPARATOR + c);
  }

  /** Two joined groups, joined again, read like one group. */
  lemma {:induction false} JoinedGroups(a: seq<string>, b: seq<string>)
    requires NoneEmpty(a) && NoneEmpty(b)
    ensures Joined(a + b) == Both(Joined(a), Joined(b))
    decreases |b|
  {
    JoinedEmpty(a);
    JoinedEmpty(b);
    if b == [] {
      assert a + b == a;
    } else if a == [] {
      assert a + b == b;
    } else if |b| == 1 {
      AppendJoins(a, b[0]);
      assert b == [b[0]];
    } else {
      var (init, last) := (b[..|b| - 1], b[|b| - 1]);
      assert b == init + [last] && a + b == (a + init) + [last];
      JoinedGroups(a, init);
      AppendJoins(a + init, last);
      AppendJoins(init, last);
      JoinedEmpty(init);
      AppendAppend(Joined(a), Joined(init), last);
    }
  }

  lemma JoinedPairs(a: seq<string>, b: seq<string>, c: seq<string>, d: seq<string>)
    requires NoneEmpty(a) && NoneEmpty(b) && NoneEmpty(c) && NoneEmpty(d)
    ensures Joined([] + a + b + c + d) == Both(Joined(a + b), Joined(c + d))
  {
    assert [] + a + b + c + d == (a + b) + (c + d);
    JoinedGroups(a + b, c + d);
  }
}
