# Funds-transfer command, modelled in Dafny

This project models the `Transfer` command of the banking protocol in
`Rozproszone/src/Projekt1/Server/Server/Logic/Logic.Transfer.cs`. The command
is one request/response exchange between a client and a server over a
socket connection:

- the client stub `OnClient` sends one `Request(Token, ToLogin, Amount)`
  tagged `"Transfer"`. It then loops on a typed receive of a
  `Response(Success, Message, Balance)` tagged `"TransferResp"`. It skips every
  failed receive and returns `(Success, Balance)` of the first response;
- the server handler `OnServer` resolves the caller's session and looks
  up the target login in the account store. It calls the session's transfer
  routine and sends exactly one response.

Files:

- `messages.dfy` (module `Messages`): the request and response records.
  It holds their command tags, the two wire messages, and the typed receive,
  which accepts a message only when its tag is `"TransferResp"`. C#'s `int` is
  the newtype `int32`. The command does no arithmetic, so no wrap-around
  arises.
- `server.dfy` (module `TransferServer`): `OnServer` as a pure function. It
  returns the sequence of actions one request produces: login, target lookup,
  transfer attempt, send.
- `client.dfy` (module `TransferClient`): `OnClient` as a method with a loop
  over a finite sequence of receive attempts. It also gives the reference
  meaning `Await` and lemmas about skipping and stopping.
- `exchange.dfy` (module `Exchange`): the two sides put together.

The collaborators that are outside this model are parameters. `LoggedIn.TryLogin`
is a function from token to an optional session. `LoggedIn.TryTransfer` is a
function from (session, target account, amount) to the bool it returns and
the caller's account as it leaves it. Their results are taken as given. The
socket is a sequence of receive results on the client side and the recorded
`Send` action on the server side.

Behaviour kept as the code has it:

- `TryTransfer` returning `true` produces the failure response
  `"Not enough funds"`. Returning `false` produces the success response.
- The success text is spelled `"Transfer Succeded"`, as the handler spells it.
- With the target unknown, the reported balance is the caller's balance
  before anything happens. In the other two branches it is the caller's
  balance as the transfer routine leaves it. It is never read from the
  target account.
- The client has no timeout and no other exit from its loop. When every
  attempt in the given sequence fails, the outcome is `Waiting`, meaning the
  stub has not returned.

## Model

| member | source | states |
|---|---|---|
| Messages.ReceiveResponse | Rozproszone/src/Projekt1/Server/Server/Logic/Logic.Transfer.cs:10-17 | under the assumed channel behaviour, a typed receive of a response succeeds exactly when the message is a `TransferResp` (its tag differs from the request's `Transfer`), and then hands over the response unchanged |
| TransferServer.OnServer | Rozproszone/src/Projekt1/Server/Server/Logic/Logic.Transfer.cs:46-77 | given a successful login, the run starts by resolving the token and looking up the target. It sends exactly one response, as its last action. Success is true iff the target exists and `TryTransfer` returned false. An absent target gives `(false, "Target not found", caller's balance)` with no transfer attempt. Otherwise one attempt on that target with that amount is made, and the reply carries the caller's balance as the routine left it and "Not enough funds" / "Transfer Succeded" by the returned bool |
| TransferServer.MessageNamesBranch | Rozproszone/src/Projekt1/Server/Server/Logic/Logic.Transfer.cs:56-76 | the reply's message identifies the branch: "Target not found" iff the target is absent, "Transfer Succeded" iff success, "Not enough funds" iff the target exists and the reply is a failure |
| TransferServer.UnknownTargetIgnoresStoreAndTransfer | Rozproszone/src/Projekt1/Server/Server/Logic/Logic.Transfer.cs:56-63 | with the target absent, the run does not depend on the account store's other contents or on the transfer routine at all, so no transfer is attempted and the balance is the caller's |
| TransferClient.Consumed | Rozproszone/src/Projekt1/Server/Server/Logic/Logic.Transfer.cs:33-43 | the loop consumes the attempts up to and including the first successful one, or all of them when none succeeds |
| TransferClient.ConsumedStopsAtFirst | Rozproszone/src/Projekt1/Server/Server/Logic/Logic.Transfer.cs:35-42 | if attempt k is the first success, exactly k+1 attempts are consumed |
| TransferClient.ConsumedAllWhenNoneSucceeds | Rozproszone/src/Projekt1/Server/Server/Logic/Logic.Transfer.cs:33-40 | if every attempt fails, all of them are consumed |
| TransferClient.Await | Rozproszone/src/Projekt1/Server/Server/Logic/Logic.Transfer.cs:33-43 | the outcome is `Waiting` iff every attempt failed. Otherwise it is `(Success, Balance)` of the first successful attempt |
| TransferClient.OnClient | Rozproszone/src/Projekt1/Server/Server/Logic/Logic.Transfer.cs:21-44 | the first and only send is `Transfer` carrying the given token, login and amount unchanged, before any receive. The receives that follow are exactly the consumed attempts, in order. The result equals the reference `Await` of the attempts: the first success's `(Success, Balance)`, after exactly k+1 receives, or `Waiting` iff all fail |
| TransferClient.LaterDeliveriesIgnored | Rozproszone/src/Projekt1/Server/Server/Logic/Logic.Transfer.cs:35-42 | once a response has been received, anything delivered afterwards does not change the outcome |
| TransferClient.FailuresSkipped | Rozproszone/src/Projekt1/Server/Server/Logic/Logic.Transfer.cs:35-40 | failed receive attempts before the rest leave the outcome as if they had not happened |
| Exchange.RoundTrip | Rozproszone/src/Projekt1/Server/Server/Logic/Logic.Transfer.cs:21-77 | whatever failed attempts precede the handler's one response and whatever follows it, `Await`, and so `OnClient`, returns that response's success and balance. Success holds iff the target exists and `TryTransfer` returned false. With the target absent, the balance is the caller's pre-call balance |
| Exchange.EchoedRequestsSkipped | Rozproszone/src/Projekt1/Server/Server/Logic/Logic.Transfer.cs:10-43 | `Transfer` requests delivered to the stub are never taken for the answer: `Await`, and so `OnClient`, returns the first `TransferResp` after them |

## Left out

- Internals of `LoggedIn.TryLogin`, `LoggedIn.TryTransfer` and `Server.Account.DataBase` are not part of this model. Their results are parameters. So the model says nothing about debit and credit amounts, conservation of total funds, non-negative balances, validation of zero or negative amounts, or self-transfer.
- TransferServer.OnServer: requires a successful login. The handler ignores `TryLogin`'s result, and what the session then holds depends on code that is not part of this model. No "not authenticated" response exists in the code, so none is modelled.
- Socket serialisation, framing and transport errors in `Sockets.Handler` are outside this model. A failed `SendMessage` on the server side is not modelled.
- Messages.ReceiveResponse: an assumed model of `TryRecieveMessage<T>`, whose code is outside this model. It takes the typed receive to accept a message exactly when its command tag is the expected one, and `Exchange.EchoedRequestsSkipped` rests on that assumption. As a modelling choice, a receive attempt that yields no response is one more failed attempt. A send or receive that throws on the client side ends `OnClient` with an exception, and `TransferClient.Outcome` has no case for that.
- `async`/`Task` scheduling, and concurrent transfers on shared accounts, are left out. Each exchange is modelled sequentially.
- TransferClient.OnClient: the source loop never ends when no response arrives. The model stops at the end of the finite attempt sequence with outcome `Waiting`, which stands for "still blocked".
- Web-host wiring (`src/Host/Program.cs`) and identity/HTML registration (`src/Host/Identity/Identity.Register.cs`) have no logic of the transfer command and are not modelled.
