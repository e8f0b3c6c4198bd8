/** The protocol every authorization contract implements: the two standard
    messages, the reply type of the `IsAuthorized` query, and the default
    behaviour of the shared interface (query dispatch, state-update fan-out to
    children, reply handling). A contract supplies its hooks (`is_authorized`,
    `get_sub_authorizations`, optionally `update_own_state`, and its extension
    handlers) as arguments; the defaults are written once, here. */
module Authorization {
  import opened Results
  import opened Cosmos
  import opened Json

  /** The correlation id every child update carries. */
  const UPDATE_REPLY_ID: nat := 1000

  /** The id the default update fan-out tags its sub-messages with. */
  function GetUpdateReplyId(): (id: nat)
    ensures id == 1000
  {
    UPDATE_REPLY_ID
  }

  /** Child updates only call the parent back when they fail. */
  function DefaultReplyOn(): (on: ReplyOn)
    ensures on == ReplyOn.Error
  {
    ReplyOn.Error
  }

  /** The standard execute message, with a contract-specific extension. */
  datatype ExecuteMsg<E> =
    | UpdateExecutedAuthorizationState(msgs: seq<CosmosMsg>, sender: Addr)
    | Extension(ext: E)

  /** The standard query message, with a contract-specific extension. */
  datatype QueryMsg<Q> =
    | IsAuthorized(msgs: seq<CosmosMsg>, sender: Addr)
    | QueryExtension(query: Q)

  /** The extension type of a contract that has none. */
  datatype Empty = Empty

  datatype IsAuthorizedResponse = IsAuthorizedResponse(authorized: bool)

  /** The JSON form of an `IsAuthorizedResponse`: `{"authorized": b}`. */
  function EncodeIsAuthorizedResponse(resp: IsAuthorizedResponse): Value {
    Object(map["authorized" := Bool(resp.authorized)])
  }

  /** Reading a query reply as an `IsAuthorizedResponse`; other fields are ignored. */
  function DecodeIsAuthorizedResponse(v: Value): Option<IsAuthorizedResponse> {
    if v.Object? && "authorized" in v.fields && v.fields["authorized"].Bool? then
      Some(IsAuthorizedResponse(v.fields["authorized"].b))
    else
      None
  }

  /** Reading a query reply as a bare boolean. */
  function DecodeBool(v: Value): Option<bool> {
    if v.Bool? then Some(v.b) else None
  }

  lemma IsAuthorizedResponseRoundTrip(resp: IsAuthorizedResponse)
    ensures DecodeIsAuthorizedResponse(EncodeIsAuthorizedResponse(resp)) == Some(resp)
  {
  }

  /** A reply in the standard form is never a bare boolean. */
  lemma IsAuthorizedResponseIsNotBool(v: Value)
    requires DecodeIsAuthorizedResponse(v).Some?
    ensures DecodeBool(v) == None
  {
  }

  /** How a contract reaches its children synchronously: the raw reply of child
      `addr` to `IsAuthorized { msgs, sender }`, or `None` when the query fails. */
  type Querier = (Addr, seq<CosmosMsg>, Addr) -> Option<Value>

  /** The `IsAuthorized` query: the decision `is_authorized` returned, with any
      error turned into `false`. It never fails. */
  function QueryAuthorizations(decision: Result<bool, AuthError>): (reply: Value)
    ensures DecodeIsAuthorizedResponse(reply) == Some(IsAuthorizedResponse(decision == Ok(true)))
  {
    EncodeIsAuthorizedResponse(IsAuthorizedResponse(decision.GetOr(false)))
  }

  /** The default own-state hook: succeeds, emits nothing, stores nothing. */
  function UpdateOwnState(msgs: seq<CosmosMsg>, sender: Addr, originalSender: Addr): (r: Result<Response, AuthError>)
    ensures r.Ok? && r.value.messages == [] && r.value.attributes == []
  {
    Ok(EmptyResponse)
  }

  /** `subMsgs` holds, for each child in order, one update addressed to it that
      carries `msgs` and `sender`, has the correlation id and reports back only
      on error. */
  predicate DispatchesTo(subMsgs: seq<SubMsg>, children: seq<Addr>, msgs: seq<CosmosMsg>, sender: Addr) {
    && |subMsgs| == |children|
    && forall i :: 0 <= i < |subMsgs| ==>
         subMsgs[i] == SubMsg(UPDATE_REPLY_ID, WasmExecute(children[i], msgs, sender), ReplyOn.Error, None)
  }

  function ChildUpdates(children: seq<Addr>, msgs: seq<CosmosMsg>, sender: Addr): (subMsgs: seq<SubMsg>)
    ensures DispatchesTo(subMsgs, children, msgs, sender)
  {
    if |children| == 0 then
      []
    else
      var head := SubMsg(GetUpdateReplyId(), WasmExecute(children[0], msgs, sender), DefaultReplyOn(), None);
      [head] + ChildUpdates(children[1..], msgs, sender)
  }

  /** `generate_child_update_msgs`: one update per sub-authorization, or the
      error `get_sub_authorizations` returned. */
  function GenerateChildUpdateMsgs(subAuthorizations: Result<seq<Addr>, AuthError>, msgs: seq<CosmosMsg>, originalSender: Addr)
    : (r: Result<seq<SubMsg>, AuthError>)
    ensures subAuthorizations.Err? ==> r == Err(subAuthorizations.error)
    ensures subAuthorizations.Ok? ==> r.Ok? && DispatchesTo(r.value, subAuthorizations.value, msgs, originalSender)
  {
    match subAuthorizations
    case Err(e) => Err(e)
    case Ok(children) => Ok(ChildUpdates(children, msgs, originalSender))
  }

  /** The default `update_authorization_state`: run the own-state hook, then
      append one update per child to its response. A failing hook aborts before
      any fan-out. */
  function UpdateAuthorizationState(
    ownState: Result<Response, AuthError>,
    subAuthorizations: Result<seq<Addr>, AuthError>,
    msgs: seq<CosmosMsg>,
    originalSender: Addr
  ): (r: Result<Response, AuthError>)
    ensures ownState.Err? ==> r == Err(ownState.error)
    ensures ownState.Ok? && subAuthorizations.Err? ==> r == Err(subAuthorizations.error)
    ensures ownState.Ok? && subAuthorizations.Ok? ==>
      && r.Ok?
      && r.value.attributes == ownState.value.attributes
      && |ownState.value.messages| <= |r.value.messages|
      && r.value.messages[..|ownState.value.messages|] == ownState.value.messages
      && DispatchesTo(r.value.messages[|ownState.value.messages|..], subAuthorizations.value, msgs, originalSender)
  {
    match ownState
    case Err(e) => Err(e)
    case Ok(response) =>
      match GenerateChildUpdateMsgs(subAuthorizations, msgs, originalSender)
      case Err(e) => Err(e)
      case Ok(subMsgs) =>
        var r := response.AddSubmessages(subMsgs);
        assert r.messages[..|response.messages|] == response.messages;
        assert r.messages[|response.messages|..] == subMsgs;
        Ok(r)
  }

  /** The default update for a contract that keeps the own-state hook: its
      response is exactly the child updates. */
  lemma DefaultUpdateIsFanOut(subAuthorizations: seq<Addr>, msgs: seq<CosmosMsg>, sender: Addr, originalSender: Addr)
    ensures
      var r := UpdateAuthorizationState(UpdateOwnState(msgs, sender, originalSender), Ok(subAuthorizations), msgs, originalSender);
      && r.Ok?
      && r.value.attributes == []
      && DispatchesTo(r.value.messages, subAuthorizations, msgs, originalSender)
  {
    var r := UpdateAuthorizationState(UpdateOwnState(msgs, sender, originalSender), Ok(subAuthorizations), msgs, originalSender);
    assert r.value.messages[0..] == r.value.messages;
  }

  /** `sub_message_reply`: a child update's outcome only annotates the reply
      response; the handler never fails and dispatches nothing. */
  function SubMessageReply(reply: Reply): (r: Result<Response, AuthError>)
    ensures r.Ok? && r.value.messages == [] && |r.value.attributes| == 1
    ensures reply.result.SubMsgErr? ==> r.value.attributes[0] == Attribute("update_error", reply.result.reason)
    ensures reply.result.SubMsgOk? ==> r.value.attributes[0] == Attribute("update_success", reply.result.rendered)
  {
    match reply.result
    case SubMsgErr(reason) => Ok(EmptyResponse.AddAttribute("update_error", reason))
    case SubMsgOk(rendered) => Ok(EmptyResponse.AddAttribute("update_success", rendered))
  }

  /** The `execute` entry point. `update(msgs, sender, caller)` is the contract's
      `update_authorization_state`, handed the immediate caller as its last
      argument; it reads the store but never writes it. `extension` handles the
      contract's own messages and may change its state. */
  function Execute<S, E>(
    state: S,
    caller: Addr,
    msg: ExecuteMsg<E>,
    update: (seq<CosmosMsg>, Addr, Addr) -> Result<Response, AuthError>,
    extension: (S, Addr, E) -> Result<(S, Response), AuthError>
  ): (r: Result<(S, Response), AuthError>)
    ensures msg.UpdateExecutedAuthorizationState? ==>
      && (r.Ok? <==> update(msg.msgs, msg.sender, caller).Ok?)
      && (r.Ok? ==> r.value == (state, update(msg.msgs, msg.sender, caller).value))
      && (r.Err? ==> r.error == update(msg.msgs, msg.sender, caller).error)
    ensures msg.Extension? ==> r == extension(state, caller, msg.ext)
  {
    match msg
    case UpdateExecutedAuthorizationState(msgs, sender) =>
      (match update(msgs, sender, caller)
       case Ok(response) => Ok((state, response))
       case Err(e) => Err(e))
    case Extension(ext) => extension(state, caller, ext)
  }

  /** The `query` entry point. The `IsAuthorized` arm never fails and always
      answers in the standard form. */
  function Query<Q>(
    msg: QueryMsg<Q>,
    isAuthorized: (seq<CosmosMsg>, Addr) -> Result<bool, AuthError>,
    extension: Q -> Result<Value, AuthError>
  ): (r: Result<Value, AuthError>)
    ensures msg.IsAuthorized? ==>
      && r.Ok?
      && DecodeIsAuthorizedResponse(r.value) == Some(IsAuthorizedResponse(isAuthorized(msg.msgs, msg.sender) == Ok(true)))
    ensures msg.QueryExtension? ==> r == extension(msg.query)
  {
    match msg
    case IsAuthorized(msgs, sender) => Ok(QueryAuthorizations(isAuthorized(msgs, sender)))
    case QueryExtension(q) => extension(q)
  }

  /** The interface's unimplemented extension handlers, for contracts that
      declare no extension: calling one aborts. */
  function UnimplementedExecuteExtension<S>(state: S, caller: Addr, ext: Empty): (r: Result<(S, Response), AuthError>)
    ensures r == Err(Std)
  {
    Err(Std)
  }

  function UnimplementedQueryExtension(q: Empty): (r: Result<Value, AuthError>)
    ensures r == Err(Std)
  {
    Err(Std)
  }

  /** A child's decision as AnyOf reads it: the `authorized` field of its reply,
      `None` when the query or the decoding fails. */
  function ChildResponse(querier: Querier, child: Addr, msgs: seq<CosmosMsg>, sender: Addr): (verdict: Option<bool>)
    ensures verdict.Some? <==>
      querier(child, msgs, sender).Some? && DecodeIsAuthorizedResponse(querier(child, msgs, sender).value).Some?
    ensures verdict.Some? ==> DecodeIsAuthorizedResponse(querier(child, msgs, sender).value) == Some(IsAuthorizedResponse(verdict.value))
  {
    match querier(child, msgs, sender)
    case None => None
    case Some(reply) =>
      match DecodeIsAuthorizedResponse(reply)
      case None => None
      case Some(resp) => Some(resp.authorized)
  }

  /** A child's decision read as a bare boolean, as AllOf does. */
  function ChildBool(querier: Querier, child: Addr, msgs: seq<CosmosMsg>, sender: Addr): (verdict: Option<bool>)
    ensures verdict.Some? <==> querier(child, msgs, sender).Some? && querier(child, msgs, sender).value.Bool?
    ensures verdict.Some? ==> querier(child, msgs, sender).value == Bool(verdict.value)
  {
    match querier(child, msgs, sender)
    case None => None
    case Some(reply) => DecodeBool(reply)
  }
}
