/** The server side of the transfer command (`Transfer.OnServer`): one
    request in, exactly one response out. The session registry and the
    account's transfer routine are not part of this model; they enter as
    function-typed parameters whose results are taken as given. */
module TransferServer {
  import opened Messages

  /** An account as the handler sees it: a login and a balance. */
  datatype Account = Account(login: string, balance: int32)

  /** The session a token resolves to (`Server.Account.LoggedIn`). */
  datatype LoggedIn = LoggedIn(token: Token, account: Account)

  /** What `LoggedIn.TryTransfer` reports: the bool it returns, and the
      caller's account as that call leaves it. */
  datatype TransferCall = TransferCall(returned: bool, caller: Account)

  datatype Option<T> = None | Some(value: T)

  /** The session lookup (`LoggedIn.TryLogin`); `None` when it fails. */
  type LoginFn = Token -> Option<LoggedIn>

  /** The transfer routine: (session, target account, amount). */
  type TransferFn = (LoggedIn, Account, int32) -> TransferCall

  /** The observable actions of one run of the handler, in order. */
  datatype Event =
    | Login(token: Token)
    | LookUp(login: string)
    | Attempt(target: Account, amount: int32)
    | Send(response: Response)

  const TargetNotFound: string := "Target not found"
  const NotEnoughFunds: string := "Not enough funds"
  /** Spelled as the handler spells it. */
  const TransferSucceded: string := "Transfer Succeded"

  /** The run sends one response, and it is the last thing it does. */
  ghost predicate SendsOnceLast(trace: seq<Event>)
  {
    && |trace| > 0
    && forall i :: 0 <= i < |trace| ==> (trace[i].Send? <==> i == |trace| - 1)
  }

  /** The run never calls the transfer routine. */
  ghost predicate NoAttempt(trace: seq<Event>)
  {
    forall e :: e in trace ==> !e.Attempt?
  }

  /** The response a run sent (its last event). */
  function Reply(trace: seq<Event>): Response
    requires |trace| > 0 && trace[|trace| - 1].Send?
  {
    trace[|trace| - 1].response
  }

  /** The handler. It resolves the caller's session, looks up the target
      login, and answers:
        - target unknown: failure, "Target not found", and the caller's
          balance as it was, without calling the transfer routine;
        - transfer routine returned true: failure, "Not enough funds";
        - transfer routine returned false: success, "Transfer Succeded";
      the last two reporting the caller's balance as the routine left it.
      A failed login is left to the caller of this model: the handler
      ignores TryLogin's result, and what it then reads is outside this model. */
  function OnServer(req: Request, accounts: map<string, Account>,
                    tryLogin: LoginFn, tryTransfer: TransferFn): (trace: seq<Event>)
    requires tryLogin(req.token).Some?
    ensures SendsOnceLast(trace)
    ensures trace[0] == Login(req.token) && trace[1] == LookUp(req.toLogin)
    ensures Reply(trace).success <==>
              req.toLogin in accounts
              && !tryTransfer(tryLogin(req.token).value, accounts[req.toLogin], req.amount).returned
    ensures req.toLogin !in accounts ==>
              && NoAttempt(trace)
              && Reply(trace) == Response(false, TargetNotFound, tryLogin(req.token).value.account.balance)
    ensures req.toLogin in accounts ==>
              var session := tryLogin(req.token).value;
              var call := tryTransfer(session, accounts[req.toLogin], req.amount);
              && |trace| == 4
              && trace[2] == Attempt(accounts[req.toLogin], req.amount)
              && Reply(trace).balance == call.caller.balance
              && Reply(trace).message == (if call.returned then NotEnoughFunds else TransferSucceded)
  {
    var session := tryLogin(req.token).value;
    var prefix := [Login(req.token), LookUp(req.toLogin)];
    if req.toLogin !in accounts then
      prefix + [Send(Response(false, TargetNotFound, session.account.balance))]
    else
      var target := accounts[req.toLogin];
      var call := tryTransfer(session, target, req.amount);
      var attempted := prefix + [Attempt(target, req.amount)];
      if call.returned then
        attempted + [Send(Response(false, NotEnoughFunds, call.caller.balance))]
      else
        attempted + [Send(Response(true, TransferSucceded, call.caller.balance))]
  }

  /** The three answers are told apart by their text: the message names
      the branch taken, and success is reported in exactly one of them. */
  lemma MessageNamesBranch(req: Request, accounts: map<string, Account>,
                           tryLogin: LoginFn, tryTransfer: TransferFn)
    requires tryLogin(req.token).Some?
    ensures var r := Reply(OnServer(req, accounts, tryLogin, tryTransfer));
            && (r.message == TargetNotFound <==> req.toLogin !in accounts)
            && (r.message == TransferSucceded <==> r.success)
            && (r.message == NotEnoughFunds <==> (req.toLogin in accounts && !r.success))
  {
  }

  /** With the target unknown the handler's run depends on the account
      store only through that failed lookup, and it never calls the transfer
      routine. Swapping the store for any other that also lacks the target,
      or the routine for any other, leaves the whole run unchanged, and so
      also the reported caller balance. */
  lemma UnknownTargetIgnoresStoreAndTransfer(req: Request,
                                            accounts: map<string, Account>, otherAccounts: map<string, Account>,
                                            tryLogin: LoginFn,
                                            tryTransfer: TransferFn, otherTransfer: TransferFn)
    requires tryLogin(req.token).Some?
    requires req.toLogin !in accounts && req.toLogin !in otherAccounts
    ensures OnServer(req, accounts, tryLogin, tryTransfer)
         == OnServer(req, otherAccounts, tryLogin, otherTransfer)
  {
  }
}
