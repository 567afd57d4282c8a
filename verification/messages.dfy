/** The messages of the funds-transfer command: the `Transfer` request a
    client sends, the `TransferResp` response a server sends back, the
    command tags that name them on the wire, and the typed receive that
    accepts a delivered message only when its tag is the one expected. */
module Messages {

  /** C#'s `int`: a signed 32-bit integer. The transfer command does no
      arithmetic of its own, so no wrap-around needs to be written out. */
  newtype int32 = x: int | -0x8000_0000 <= x < 0x8000_0000

  /** The session credential a client presents; opaque to this command. */
  datatype Token = Token(id: string)

  /** `Transfer.Request`: who is asking, to whom, how much. */
  datatype Request = Request(token: Token, toLogin: string, amount: int32)

  /** `Transfer.Response`: outcome flag, display text, and a balance. */
  datatype Response = Response(success: bool, message: string, balance: int32)

  /** The command tags of the two record types. */
  const RequestCommand: string := "Transfer"
  const ResponseCommand: string := "TransferResp"

  /** A message of this command as it travels on the connection. */
  datatype Message =
    | TransferRequest(request: Request)
    | TransferResponse(response: Response)

  /** The tag a message carries on the wire. */
  function Command(m: Message): string
  {
    match m
    case TransferRequest(_) => RequestCommand
    case TransferResponse(_) => ResponseCommand
  }

  /** What `TryRecieveMessage<Response>` hands back: a flag and, when the
      flag is set, the decoded response. On failure the response is the
      record type's default and carries no information. */
  datatype ReceiveResult = ReceiveResult(success: bool, response: Response)

  const NoResponse: Response := Response(false, "", 0)

  /** A receive attempt that yielded no response. This model lets every
      such attempt, whatever its cause on the connection, be a failed
      attempt that the caller may retry. */
  const Failed: ReceiveResult := ReceiveResult(false, NoResponse)

  /** Typed receive of a `Response`, as this model assumes the channel
      performs it: accepted exactly when the wire tag is
      `TransferResp`, in which case the payload is passed on unchanged. A
      `Transfer` request echoed on the connection is never mistaken for a
      response, because the two tags differ. */
  function ReceiveResponse(m: Message): (r: ReceiveResult)
    ensures r.success <==> m.TransferResponse?
    ensures r.success ==> r.response == m.response
  {
    if Command(m) == ResponseCommand then ReceiveResult(true, m.response)
    else Failed
  }
}
