/** The satisfies-any contract (AnyOf): a batch is authorized when at least one
    child authorizes it. Its update re-checks the caller and the decision before
    fanning the update out to every child. */
module SatisfiesAny {
  import opened Results
  import opened Cosmos
  import opened Json
  import Authorization
  import opened ChildSet

  /** `admin` manages the children; `parent` may relay updates for others. */
  datatype State = State(admin: Addr, parent: Addr, children: ChildList)

  datatype InstantiateMsg = InstantiateMsg(admin: Addr, parent: Addr, children: seq<Addr>)

  /** Some child's verdict is `Some(true)` (Rust's `any`). */
  function AnyAuthorizes(children: seq<Addr>, verdict: Addr -> Option<bool>): (r: bool)
    ensures r <==> exists i :: 0 <= i < |children| && verdict(children[i]) == Some(true)
  {
    if |children| == 0 then false
    else verdict(children[0]).GetOr(false) || AnyAuthorizes(children[1..], verdict)
  }

  /** `is_authorized`: false with no children; otherwise true exactly when some
      child answers `authorized: true`. A failed query counts as false. */
  function IsAuthorized(st: State, querier: Authorization.Querier, msgs: seq<CosmosMsg>, sender: Addr): (r: Result<bool, AuthError>)
    ensures |st.children| == 0 ==> r == Ok(false)
    ensures r == Ok(exists i :: 0 <= i < |st.children| &&
                      Authorization.ChildResponse(querier, st.children[i], msgs, sender) == Some(true))
  {
    if |st.children| == 0 then
      Ok(false)
    else
      Ok(AnyAuthorizes(st.children, (a: Addr) => Authorization.ChildResponse(querier, a, msgs, sender)))
  }

  /** The children in ascending address order, each once. */
  function GetSubAuthorizations(st: State): (r: Result<seq<Addr>, AuthError>)
    ensures r.Ok? && Ascending(r.value)
    ensures forall a :: a in r.value <==> a in st.children
  {
    Ok(st.children)
  }

  /** The overriding `update_authorization_state`. A caller may only name
      another sender when it is the parent; the batch must still be authorized
      for the named sender; then every child, whatever its own decision, gets an
      update naming that sender. Otherwise `Unauthorized` and nothing is sent. */
  function UpdateAuthorizationState(st: State, querier: Authorization.Querier, msgs: seq<CosmosMsg>, sender: Addr, realSender: Addr)
    : (r: Result<Response, AuthError>)
    ensures sender != realSender && realSender != st.parent ==> r == Err(Unauthorized)
    ensures (sender == realSender || realSender == st.parent) && IsAuthorized(st, querier, msgs, sender) == Ok(false) ==>
      r == Err(Unauthorized)
    ensures (sender == realSender || realSender == st.parent) && IsAuthorized(st, querier, msgs, sender) == Ok(true) ==>
      && r.Ok?
      && r.value.attributes == []
      && Authorization.DispatchesTo(r.value.messages, st.children, msgs, sender)
  {
    if sender != realSender && realSender != st.parent then
      Err(Unauthorized)
    else
      match IsAuthorized(st, querier, msgs, sender)
      case Err(e) => Err(e)
      case Ok(authorized) =>
        if authorized then
          match Authorization.GenerateChildUpdateMsgs(GetSubAuthorizations(st), msgs, sender)
          case Err(e) => Err(e)
          case Ok(subMsgs) => Ok(EmptyResponse.AddSubmessages(subMsgs))
        else
          Err(Unauthorized)
  }

  /** `execute_extension`: only the admin may add or remove children. */
  function ExecuteExtension(st: State, caller: Addr, msg: ChildSet.ExecuteMsg): (r: Result<(State, Response), AuthError>)
    ensures caller != st.admin ==> r == Err(Unauthorized)
    ensures caller == st.admin ==>
      && r.Ok?
      && r.value.0.admin == st.admin && r.value.0.parent == st.parent
      && r.value == (st.(children := Apply(st.children, msg).0), Apply(st.children, msg).1)
  {
    if caller != st.admin then
      Err(Unauthorized)
    else
      var (children, response) := Apply(st.children, msg);
      Ok((st.(children := children), response))
  }

  /** The `reply` entry point: the update correlation id goes to the shared
      handler, which never fails; any other id is an error. */
  function HandleReply(reply: Reply): (r: Result<Response, AuthError>)
    ensures reply.id == Authorization.UPDATE_REPLY_ID ==> r == Authorization.SubMessageReply(reply) && r.Ok?
    ensures reply.id != Authorization.UPDATE_REPLY_ID ==> r == Err(Std)
  {
    if reply.id == Authorization.GetUpdateReplyId() then Authorization.SubMessageReply(reply) else Err(Std)
  }

  /** Instantiation stores admin and parent and saves each listed child once. */
  function Instantiate(msg: InstantiateMsg): (r: (State, Response))
    ensures r.0.admin == msg.admin && r.0.parent == msg.parent
    ensures forall a :: a in r.0.children <==> a in msg.children
    ensures r.1 == EmptyResponse.AddAttribute("action", "instantiate")
  {
    (State(msg.admin, msg.parent, FromSeq(msg.children)), EmptyResponse.AddAttribute("action", "instantiate"))
  }

  /** The `execute` entry point: the overriding update, and the admin's child
      management. */
  function Execute(st: State, querier: Authorization.Querier, caller: Addr, msg: Authorization.ExecuteMsg<ChildSet.ExecuteMsg>)
    : (r: Result<(State, Response), AuthError>)
    ensures msg.UpdateExecutedAuthorizationState? && msg.sender != caller && caller != st.parent ==>
      r == Err(Unauthorized)
    ensures msg.UpdateExecutedAuthorizationState? && (msg.sender == caller || caller == st.parent) ==>
      && (r.Ok? <==> IsAuthorized(st, querier, msg.msgs, msg.sender) == Ok(true))
      && (r.Err? ==> r.error == Unauthorized)
      && (r.Ok? ==> r.value.0 == st && r.value.1.attributes == []
                    && Authorization.DispatchesTo(r.value.1.messages, st.children, msg.msgs, msg.sender))
    ensures msg.Extension? && caller != st.admin ==> r == Err(Unauthorized)
    ensures msg.Extension? && caller == st.admin ==>
      r == Ok((st.(children := Apply(st.children, msg.ext).0), Apply(st.children, msg.ext).1))
  {
    Authorization.Execute(
      st, caller, msg,
      (msgs: seq<CosmosMsg>, sender: Addr, realSender: Addr) => UpdateAuthorizationState(st, querier, msgs, sender, realSender),
      ExecuteExtension)
  }

  /** The `query` entry point: `IsAuthorized` answers whether some child
      answers `authorized: true`. */
  function Query(st: State, querier: Authorization.Querier, msg: Authorization.QueryMsg<Authorization.Empty>): (r: Result<Value, AuthError>)
    ensures msg.IsAuthorized? ==>
      && r.Ok?
      && Authorization.DecodeIsAuthorizedResponse(r.value) ==
         Some(Authorization.IsAuthorizedResponse(
                exists i :: 0 <= i < |st.children| &&
                  Authorization.ChildResponse(querier, st.children[i], msg.msgs, msg.sender) == Some(true)))
    ensures msg.QueryExtension? ==> r == Err(Std)
  {
    Authorization.Query(
      msg,
      (msgs: seq<CosmosMsg>, sender: Addr) => IsAuthorized(st, querier, msgs, sender),
      Authorization.UnimplementedQueryExtension)
  }

  /** An update sent by the sender itself, or relayed by the parent, succeeds
      exactly when the batch is authorized; it then leaves the state unchanged
      and sends one update per child naming the sender. A corollary of the
      contract of `Execute`. */
  lemma UpdateSucceedsIffAuthorized(st: State, querier: Authorization.Querier, caller: Addr, msgs: seq<CosmosMsg>, sender: Addr)
    requires caller == sender || caller == st.parent
    ensures
      var r := Execute(st, querier, caller, Authorization.UpdateExecutedAuthorizationState(msgs, sender));
      && (r.Ok? <==> IsAuthorized(st, querier, msgs, sender) == Ok(true))
      && (r.Ok? ==> r.value.0 == st && Authorization.DispatchesTo(r.value.1.messages, st.children, msgs, sender))
      && (r.Err? ==> r.error == Unauthorized)
  {
  }

  /** Anyone else naming a different sender is refused. A corollary of the
      contract of `Execute`. */
  lemma ForgedSenderRefused(st: State, querier: Authorization.Querier, caller: Addr, msgs: seq<CosmosMsg>, sender: Addr)
    requires caller != sender && caller != st.parent
    ensures Execute(st, querier, caller, Authorization.UpdateExecutedAuthorizationState(msgs, sender)) == Err(Unauthorized)
  {
  }

  /** A child that does not answer `authorized: true` (including one whose
      query fails) does not affect the decision: removing it changes nothing. */
  lemma NonAuthorizingChildIsNeutral(st: State, querier: Authorization.Querier, msgs: seq<CosmosMsg>, sender: Addr, c: Addr)
    requires Authorization.ChildResponse(querier, c, msgs, sender) != Some(true)
    ensures IsAuthorized(st.(children := Remove(st.children, c)), querier, msgs, sender) == IsAuthorized(st, querier, msgs, sender)
  {
    var removed := Remove(st.children, c);
    var verdict := (a: Addr) => Authorization.ChildResponse(querier, a, msgs, sender);
    if exists i :: 0 <= i < |st.children| && verdict(st.children[i]) == Some(true) {
      var i :| 0 <= i < |st.children| && verdict(st.children[i]) == Some(true);
      assert st.children[i] in removed;
      var k :| 0 <= k < |removed| && removed[k] == st.children[i];
      assert verdict(removed[k]) == Some(true);
    }
    if exists k :: 0 <= k < |removed| && verdict(removed[k]) == Some(true) {
      var k :| 0 <= k < |removed| && verdict(removed[k]) == Some(true);
      assert removed[k] in st.children;
    }
  }

  /** The reply to a child update never fails, whatever the child's outcome. */
  lemma UpdateReplyNeverFails(result: SubMsgResult)
    ensures HandleReply(Reply(Authorization.UPDATE_REPLY_ID, result)).Ok?
  {
  }

  /** Anyone but the admin is refused and no state comes back. A corollary of
      the contract of `Execute`. */
  lemma NonAdminRefused(st: State, querier: Authorization.Querier, caller: Addr, ext: ChildSet.ExecuteMsg)
    requires caller != st.admin
    ensures Execute(st, querier, caller, Authorization.Extension(ext)) == Err(Unauthorized)
  {
  }
}
