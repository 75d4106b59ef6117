/** The sender's retry machine for one packet. */
module LoraRetry {
  import opened Bytes
  import opened LoraFrame

  const MAX_RETRIES: nat := 3

  datatype Action = Wait | Retransmit | Success | Fail

  datatype Retry = Retry(n: byte, attempts: nat, done: bool)

  function Begin(n: byte): Retry { Retry(n, 1, false) }

  function NextOrFail(r: Retry): (Retry, Action)
  {
    if r.attempts > MAX_RETRIES then (r.(done := true), Fail) else (r.(attempts := r.attempts + 1), Retransmit)
  }

  /** Another packet's acknowledgement is ignored; any value but 1 is a refusal. */
  function OnAck(r: Retry, n: byte, value: byte): (Retry, Action)
  {
    if r.done || n != r.n then (r, Wait)
    else if value == ACK_OK then (r.(done := true), Success)
    else NextOrFail(r)
  }

  function OnTimeout(r: Retry): (Retry, Action)
  {
    if r.done then (r, Wait) else NextOrFail(r)
  }

  class TxRetry {
    var n: byte
    var attempts: nat
    var done: bool

    ghost function Abs(): Retry
      reads this
    {
      Retry(n, attempts, done)
    }

    constructor ()
      ensures Abs() == Retry(0, 0, false)
    {
      n, attempts, done := 0, 0, false;
    }

    method DoBegin(n: byte)
      modifies this
      ensures Abs() == Begin(n)
    {
      this.n, attempts, done := n, 1, false;
    }

    method DoNextOrFail() returns (a: Action)
      modifies this
      ensures (Abs(), a) == NextOrFail(old(Abs()))
    {
      if attempts > MAX_RETRIES { done := true; return Fail; }
      attempts := attempts + 1;
      return Retransmit;
    }

    method AckArrived(n: byte, value: byte) returns (a: Action)
      modifies this
      ensures (Abs(), a) == OnAck(old(Abs()), n, value)
    {
      if done { return Wait; }
      if n != this.n { return Wait; }
      if value == ACK_OK { done := true; return Success; }
      a := DoNextOrFail();
    }

    method TimedOut() returns (a: Action)
      modifies this
      ensures (Abs(), a) == OnTimeout(old(Abs()))
    {
      if done { return Wait; }
      a := DoNextOrFail();
    }
  }

  datatype TxEvent = AckIn(n: byte, value: byte) | Timeout

  function On(r: Retry, e: TxEvent): (Retry, Action)
  {
    match e
    case AckIn(n, value) => OnAck(r, n, value)
    case Timeout => OnTimeout(r)
  }

  function RetryAfter(r: Retry, es: seq<TxEvent>): Retry
  {
    if es == [] then r else On(RetryAfter(r, es[..|es| - 1]), es[|es| - 1]).0
  }

  function Actions(r: Retry, es: seq<TxEvent>): multiset<Action>
  {
    if es == [] then multiset{}
    else Actions(r, es[..|es| - 1]) + multiset{On(RetryAfter(r, es[..|es| - 1]), es[|es| - 1]).1}
  }

  /**
   * Over any acknowledgements and timeouts: each retransmission is counted, there are at
   * most four transmissions, and one terminal action, after which nothing is sent. Only a
   * matching positive acknowledgement brings success.
   */
  lemma {:induction false} OneOutcomeFourTransmissions(n: byte, es: seq<TxEvent>)
    ensures var r, acts := RetryAfter(Begin(n), es), Actions(Begin(n), es);
            && r.n == n && r.attempts == 1 + acts[Retransmit] <= MAX_RETRIES + 1
            && acts[Success] + acts[Fail] == (if r.done then 1 else 0)
            && (acts[Fail] == 1 ==> r.attempts == MAX_RETRIES + 1)
            && (acts[Success] == 1 ==> AckIn(n, ACK_OK) in es)
  {
    hide On;
    if es != [] {
      var before, e := es[..|es| - 1], es[|es| - 1];
      OneOutcomeFourTransmissions(n, before);
      OneEvent(RetryAfter(Begin(n), before), e);
      assert es == before + [e];
    }
  }

  lemma {:induction false} OneEvent(r: Retry, e: TxEvent)
    ensures var (s, a) := On(r, e);
            && s.n == r.n
            && (a == Retransmit ==> !r.done && !s.done && s.attempts == r.attempts + 1 <= MAX_RETRIES + 1)
            && (a == Success ==> !r.done && s.done && s.attempts == r.attempts && e == AckIn(r.n, ACK_OK))
            && (a == Fail ==> !r.done && s.done && s.attempts == r.attempts > MAX_RETRIES)
            && (a == Wait ==> s == r)
  {
  }

  /** Four unanswered or refused transmissions end the packet. */
  lemma {:induction false} FourthFailureFails(n: byte, es: seq<TxEvent>)
    requires |es| == 4 && forall e :: e in es ==> e == Timeout || (e.AckIn? && e.n == n && e.value != ACK_OK)
    ensures Actions(Begin(n), es)[Fail] == 1 && RetryAfter(Begin(n), es).done
  {
    var a, b, c := es[..1], es[..2], es[..3];
    assert es[..3][..2] == b && es[..2][..1] == a && es[..1][..0] == [];
    assert es[0] in es && es[1] in es && es[2] in es && es[3] in es;
    assert RetryAfter(Begin(n), es[..0]) == Begin(n);
    assert RetryAfter(Begin(n), a) == Retry(n, 2, false);
    assert RetryAfter(Begin(n), b) == Retry(n, 3, false);
    assert RetryAfter(Begin(n), c) == Retry(n, 4, false);
    OneOutcomeFourTransmissions(n, c);
  }
}
