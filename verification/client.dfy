/** The client side of the transfer command (`Transfer.OnClient`): send one
    request, then keep receiving until a typed response arrives. The
    connection is modelled by the finite sequence of receive attempts it
    delivers; the source has no timeout, so when every one of them fails
    the stub is still waiting. */
module TransferClient {
  import opened Messages

  /** What the stub has produced once the given attempts are used up. */
  datatype Outcome =
    | Returned(success: bool, balance: int32)
    | Waiting

  /** The observable actions of one call of the stub, in order. */
  datatype Event =
    | Sent(message: Message)
    | Received(result: ReceiveResult)

  /** `k` is the first attempt that delivered a response. */
  ghost predicate IsFirstSuccess(attempts: seq<ReceiveResult>, k: int)
  {
    && 0 <= k < |attempts|
    && attempts[k].success
    && forall j :: 0 <= j < k ==> !attempts[j].success
  }

  /** No attempt delivered a response. */
  ghost predicate AllFailed(attempts: seq<ReceiveResult>)
  {
    forall j :: 0 <= j < |attempts| ==> !attempts[j].success
  }

  /** How many attempts the loop consumes: up to and including the first
      successful one, or all of them. */
  function Consumed(attempts: seq<ReceiveResult>): (n: nat)
    ensures n <= |attempts|
    ensures forall j :: 0 <= j < n - 1 ==> !attempts[j].success
    ensures n == |attempts| || IsFirstSuccess(attempts, n - 1)
    ensures n == |attempts| && !IsFirstSuccess(attempts, n - 1) ==> AllFailed(attempts)
  {
    if |attempts| == 0 then 0
    else if attempts[0].success then 1
    else 1 + Consumed(attempts[1..])
  }

  /** Reference meaning of the loop: the first successful attempt's
      `(Success, Balance)`, or still waiting. */
  function Await(attempts: seq<ReceiveResult>): (o: Outcome)
    ensures o.Waiting? <==> AllFailed(attempts)
    ensures forall k :: IsFirstSuccess(attempts, k) ==>
              o == Returned(attempts[k].response.success, attempts[k].response.balance)
  {
    if |attempts| == 0 then Waiting
    else if attempts[0].success then
      Returned(attempts[0].response.success, attempts[0].response.balance)
    else
      assert forall k :: IsFirstSuccess(attempts, k) ==> IsFirstSuccess(attempts[1..], k - 1);
      Await(attempts[1..])
  }

  /** The stub. It sends exactly one `Transfer` request carrying the
      arguments unchanged, before receiving anything; it then consumes
      attempts, skipping failed ones, and returns at the first success. */
  method OnClient(token: Token, toLogin: string, amount: int32,
                  attempts: seq<ReceiveResult>)
    returns (trace: seq<Event>, outcome: Outcome)
    ensures |trace| >= 1 && trace[0] == Sent(TransferRequest(Request(token, toLogin, amount)))
    ensures |trace| - 1 == Consumed(attempts)
    ensures forall i :: 1 <= i < |trace| ==> trace[i] == Received(attempts[i - 1])
    ensures outcome == Await(attempts)
    ensures outcome.Waiting? <==> AllFailed(attempts)
    ensures forall k :: IsFirstSuccess(attempts, k) ==>
              && |trace| == k + 2
              && outcome == Returned(attempts[k].response.success, attempts[k].response.balance)
  {
    trace := [Sent(TransferRequest(Request(token, toLogin, amount)))];
    var i := 0;
    while i < |attempts|
      invariant 0 <= i <= |attempts|
      invariant |trace| == i + 1
      invariant trace[0] == Sent(TransferRequest(Request(token, toLogin, amount)))
      invariant forall j :: 1 <= j < |trace| ==> trace[j] == Received(attempts[j - 1])
      invariant forall j :: 0 <= j < i ==> !attempts[j].success
      invariant Await(attempts) == Await(attempts[i..])
    {
      assert attempts[i..][1..] == attempts[i + 1..];
      var received := attempts[i];
      trace := trace + [Received(received)];
      i := i + 1;
      if received.success {
        outcome := Returned(received.response.success, received.response.balance);
        ConsumedStopsAtFirst(attempts, i - 1);
        return;
      }
    }
    outcome := Waiting;
    ConsumedAllWhenNoneSucceeds(attempts);
  }

  lemma ConsumedStopsAtFirst(attempts: seq<ReceiveResult>, k: int)
    requires IsFirstSuccess(attempts, k)
    ensures Consumed(attempts) == k + 1
    decreases k
  {
  }

  lemma ConsumedAllWhenNoneSucceeds(attempts: seq<ReceiveResult>)
    requires AllFailed(attempts)
    ensures Consumed(attempts) == |attempts|
    decreases |attempts|
  {
  }

  /** Once a response has been received, whatever the connection delivers
      afterwards is never read: the stub has already returned. */
  lemma {:induction false} LaterDeliveriesIgnored(attempts: seq<ReceiveResult>, later: seq<ReceiveResult>)
    requires Await(attempts).Returned?
    ensures Await(attempts + later) == Await(attempts)
    decreases |attempts|
  {
    if !attempts[0].success {
      assert (attempts + later)[1..] == attempts[1..] + later;
      LaterDeliveriesIgnored(attempts[1..], later);
    }
  }

  /** Failed attempts are skipped without trace in the outcome: the stub
      answers as if they had never happened. */
  lemma {:induction false} FailuresSkipped(failures: seq<ReceiveResult>, rest: seq<ReceiveResult>)
    requires AllFailed(failures)
    ensures Await(failures + rest) == Await(rest)
    decreases |failures|
  {
    if |failures| == 0 {
      assert failures + rest == rest;
    } else {
      assert !(failures + rest)[0].success;
      assert (failures + rest)[1..] == failures[1..] + rest;
      FailuresSkipped(failures[1..], rest);
    }
  }
}
