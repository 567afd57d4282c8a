/** One complete transfer exchange: the request the client stub sends is
    the one the handler answers, and the handler's single response, once
    delivered, is what the stub returns. */
module Exchange {
  import opened Messages
  import Server = TransferServer
  import Client = TransferClient

  /** The response the handler sends for a request. */
  function ServerReply(req: Request, accounts: map<string, Server.Account>,
                       tryLogin: Server.LoginFn, tryTransfer: Server.TransferFn): Response
    requires tryLogin(req.token).Some?
  {
    Server.Reply(Server.OnServer(req, accounts, tryLogin, tryTransfer))
  }

  /** Whatever failed receive attempts come before the handler's response,
      and whatever follows it, the stub returns the handler's `Success` and
      the caller's balance it reported: success exactly when the target
      exists and the transfer routine returned false, and the caller's
      untouched balance when the target does not exist. */
  lemma {:induction false} RoundTrip(token: Token, toLogin: string, amount: int32,
                                     accounts: map<string, Server.Account>,
                                     tryLogin: Server.LoginFn, tryTransfer: Server.TransferFn,
                                     lost: seq<ReceiveResult>, later: seq<ReceiveResult>)
    requires tryLogin(token).Some?
    requires Client.AllFailed(lost)
    ensures var req := Request(token, toLogin, amount);
            var reply := ServerReply(req, accounts, tryLogin, tryTransfer);
            var o := Client.Await(lost + [ReceiveResponse(TransferResponse(reply))] + later);
            && o == Client.Returned(reply.success, reply.balance)
            && (o.success <==>
                  toLogin in accounts
                  && !tryTransfer(tryLogin(token).value, accounts[toLogin], amount).returned)
            && (toLogin !in accounts ==> o.balance == tryLogin(token).value.account.balance)
  {
    var req := Request(token, toLogin, amount);
    var reply := ServerReply(req, accounts, tryLogin, tryTransfer);
    var delivered := [ReceiveResponse(TransferResponse(reply))];
    assert lost + delivered + later == lost + (delivered + later);
    Client.FailuresSkipped(lost, delivered + later);
    assert (delivered + later)[0] == ReceiveResult(true, reply);
  }

  /** The stub's own request, echoed back on the connection, is never
      taken for the answer: a run of echoed requests followed by the
      handler's response still yields that response. */
  lemma {:induction false} EchoedRequestsSkipped(echoed: seq<Request>, reply: Response)
    ensures var deliveries := seq(|echoed|, i requires 0 <= i < |echoed| => ReceiveResponse(TransferRequest(echoed[i])));
            Client.Await(deliveries + [ReceiveResponse(TransferResponse(reply))])
              == Client.Returned(reply.success, reply.balance)
  {
    var deliveries := seq(|echoed|, i requires 0 <= i < |echoed| => ReceiveResponse(TransferRequest(echoed[i])));
    assert Client.AllFailed(deliveries);
    Client.FailuresSkipped(deliveries, [ReceiveResponse(TransferResponse(reply))]);
  }
}
