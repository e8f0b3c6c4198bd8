/** The slice of the host chain's standard types that the authorization
    contracts use: addresses, messages, sub-messages, responses, replies and the
    shared error type. */
module Cosmos {
  import opened Results

  /** An address, compared and ordered by its text. */
  type Addr = string

  /** A proposed chain message. The contracts never look inside one except
      through the message filter's converter, so it is kept as its encoding. */
  datatype CosmosMsg = CosmosMsg(encoded: string)

  datatype Attribute = Attribute(key: string, value: string)

  /** When the host calls the emitting contract back about a sub-message. */
  datatype ReplyOn = Always | Error | Success | Never

  /** A contract execution with no funds attached whose body is the
      `UpdateExecutedAuthorizationState { msgs, sender }` message: the only kind
      of sub-message these contracts emit. */
  datatype WasmExecute = WasmExecute(contractAddr: Addr, msgs: seq<CosmosMsg>, sender: Addr)

  datatype SubMsg = SubMsg(id: nat, msg: WasmExecute, replyOn: ReplyOn, gasLimit: Option<nat>)

  /** What a successful execution hands back to the host: the sub-messages to
      dispatch after it, in order, and its event attributes. */
  datatype Response = Response(messages: seq<SubMsg>, attributes: seq<Attribute>) {

    function AddAttribute(key: string, value: string): (r: Response)
      ensures r.messages == messages
      ensures r.attributes == attributes + [Attribute(key, value)]
    {
      Response(messages, attributes + [Attribute(key, value)])
    }

    function AddSubmessages(subMsgs: seq<SubMsg>): (r: Response)
      ensures r.messages == messages + subMsgs
      ensures r.attributes == attributes
    {
      Response(messages + subMsgs, attributes)
    }
  }

  /** `Response::default()`. */
  const EmptyResponse: Response := Response([], [])

  /** The outcome of a dispatched sub-message as reported to the reply handler;
      `rendered` stands for the debug rendering of the success payload. */
  datatype SubMsgResult = SubMsgOk(rendered: string) | SubMsgErr(reason: string)

  datatype Reply = Reply(id: nat, result: SubMsgResult)

  /** The message filter's own error variants. */
  datatype FilterError = NotFound | UnauthorizedBecause

  /** `AuthorizationError`: a standard-library error (storage, parsing, an
      unknown reply id, an unimplemented entry point), `Unauthorized`, or a
      contract-specific error. Error texts are not modelled. */
  datatype AuthError = Std | Unauthorized | ContractError(err: FilterError)
}
