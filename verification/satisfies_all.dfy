/** The satisfies-all contract (AllOf): a batch is authorized when every child
    authorizes it. It keeps the default update: no caller check, no
    re-decision, one update per child. */
module SatisfiesAll {
  import opened Results
  import opened Cosmos
  import opened Json
  import Authorization
  import opened ChildSet
  import Basic

  /** `parent` manages the children. */
  datatype State = State(parent: Addr, children: ChildList)

  datatype InstantiateMsg = InstantiateMsg(parent: Addr, children: seq<Addr>)

  /** Every child's verdict is `Some(true)` (Rust's `all`). */
  function AllAuthorize(children: seq<Addr>, verdict: Addr -> Option<bool>): (r: bool)
    ensures r <==> forall i :: 0 <= i < |children| ==> verdict(children[i]) == Some(true)
  {
    if |children| == 0 then true
    else verdict(children[0]).GetOr(false) && AllAuthorize(children[1..], verdict)
  }

  /** `is_authorized` as written: each child's reply is read as a bare boolean,
      a failed query or decoding counting as false. */
  function IsAuthorizedAsWritten(st: State, querier: Authorization.Querier, msgs: seq<CosmosMsg>, sender: Addr): (r: Result<bool, AuthError>)
    ensures r == Ok(forall i :: 0 <= i < |st.children| ==>
                      Authorization.ChildBool(querier, st.children[i], msgs, sender) == Some(true))
  {
    Ok(AllAuthorize(st.children, (a: Addr) => Authorization.ChildBool(querier, a, msgs, sender)))
  }

  /** `is_authorized` reading each child's reply as the `IsAuthorizedResponse`
      every contract answers with: true exactly when every child answers
      `authorized: true`, so vacuously true without children. A failed query
      counts as false. */
  function IsAuthorized(st: State, querier: Authorization.Querier, msgs: seq<CosmosMsg>, sender: Addr): (r: Result<bool, AuthError>)
    ensures |st.children| == 0 ==> r == Ok(true)
    ensures r == Ok(forall i :: 0 <= i < |st.children| ==>
                      Authorization.ChildResponse(querier, st.children[i], msgs, sender) == Some(true))
  {
    Ok(AllAuthorize(st.children, (a: Addr) => Authorization.ChildResponse(querier, a, msgs, sender)))
  }

  /** The children in ascending address order, each once. */
  function GetSubAuthorizations(st: State): (r: Result<seq<Addr>, AuthError>)
    ensures r.Ok? && Ascending(r.value)
    ensures forall a :: a in r.value <==> a in st.children
  {
    Ok(st.children)
  }

  /** `execute_extension`: only the parent may add or remove children. */
  function ExecuteExtension(st: State, caller: Addr, msg: ChildSet.ExecuteMsg): (r: Result<(State, Response), AuthError>)
    ensures caller != st.parent ==> r == Err(Unauthorized)
    ensures caller == st.parent ==>
      && r.Ok?
      && r.value.0.parent == st.parent
      && r.value == (st.(children := Apply(st.children, msg).0), Apply(st.children, msg).1)
  {
    if caller != st.parent then
      Err(Unauthorized)
    else
      var (children, response) := Apply(st.children, msg);
      Ok((st.(children := children), response))
  }

  /** Instantiation stores the parent and saves each listed child once. */
  function Instantiate(msg: InstantiateMsg): (r: (State, Response))
    ensures r.0.parent == msg.parent
    ensures forall a :: a in r.0.children <==> a in msg.children
    ensures r.1 == EmptyResponse.AddAttribute("action", "instantiate")
  {
    (State(msg.parent, FromSeq(msg.children)), EmptyResponse.AddAttribute("action", "instantiate"))
  }

  /** The `execute` entry point: the default update, and the parent's child
      management. */
  function Execute(st: State, caller: Addr, msg: Authorization.ExecuteMsg<ChildSet.ExecuteMsg>): (r: Result<(State, Response), AuthError>)
    ensures msg.UpdateExecutedAuthorizationState? ==>
      && r.Ok?
      && r.value.0 == st
      && r.value.1.attributes == []
      && Authorization.DispatchesTo(r.value.1.messages, st.children, msg.msgs, caller)
    ensures msg.Extension? && caller != st.parent ==> r == Err(Unauthorized)
    ensures msg.Extension? && caller == st.parent ==>
      r == Ok((st.(children := Apply(st.children, msg.ext).0), Apply(st.children, msg.ext).1))
  {
    Authorization.Execute(
      st, caller, msg,
      (msgs: seq<CosmosMsg>, sender: Addr, originalSender: Addr) =>
        Authorization.UpdateAuthorizationState(
          Authorization.UpdateOwnState(msgs, sender, originalSender), GetSubAuthorizations(st), msgs, originalSender),
      ExecuteExtension)
  }

  /** The `query` entry point as written: `IsAuthorized` answers whether every
      child's reply is the JSON boolean `true`. */
  function Query(st: State, querier: Authorization.Querier, msg: Authorization.QueryMsg<Authorization.Empty>): (r: Result<Value, AuthError>)
    ensures msg.IsAuthorized? ==>
      && r.Ok?
      && Authorization.DecodeIsAuthorizedResponse(r.value) ==
         Some(Authorization.IsAuthorizedResponse(
                forall i :: 0 <= i < |st.children| ==>
                  Authorization.ChildBool(querier, st.children[i], msg.msgs, msg.sender) == Some(true)))
    ensures msg.QueryExtension? ==> r == Err(Std)
  {
    Authorization.Query(
      msg,
      (msgs: seq<CosmosMsg>, sender: Addr) => IsAuthorizedAsWritten(st, querier, msgs, sender),
      Authorization.UnimplementedQueryExtension)
  }

  /** The `query` entry point with the corrected decision: `IsAuthorized`
      answers whether every child answers `authorized: true`. */
  function QueryCorrected(st: State, querier: Authorization.Querier, msg: Authorization.QueryMsg<Authorization.Empty>): (r: Result<Value, AuthError>)
    ensures msg.IsAuthorized? ==>
      && r.Ok?
      && Authorization.DecodeIsAuthorizedResponse(r.value) ==
         Some(Authorization.IsAuthorizedResponse(
                forall i :: 0 <= i < |st.children| ==>
                  Authorization.ChildResponse(querier, st.children[i], msg.msgs, msg.sender) == Some(true)))
    ensures msg.QueryExtension? ==> r == Err(Std)
  {
    Authorization.Query(
      msg,
      (msgs: seq<CosmosMsg>, sender: Addr) => IsAuthorized(st, querier, msgs, sender),
      Authorization.UnimplementedQueryExtension)
  }

  /** An update from any caller succeeds without a fresh decision, leaves the
      state unchanged and sends every child an update that names the caller,
      not the sender the message declared. A corollary of the contract of
      `Execute`. */
  lemma UpdateForwardsCaller(st: State, caller: Addr, msgs: seq<CosmosMsg>, sender: Addr)
    ensures
      var r := Execute(st, caller, Authorization.UpdateExecutedAuthorizationState(msgs, sender));
      && r.Ok?
      && r.value.0 == st
      && r.value.1.attributes == []
      && Authorization.DispatchesTo(r.value.1.messages, st.children, msgs, caller)
  {
    Authorization.DefaultUpdateIsFanOut(st.children, msgs, sender, caller);
  }

  /** One child that is present and fails to answer makes the conjunction false. */
  lemma FailingChildForcesFalse(st: State, querier: Authorization.Querier, msgs: seq<CosmosMsg>, sender: Addr, c: Addr)
    requires c in st.children
    requires querier(c, msgs, sender).None?
    ensures IsAuthorized(st, querier, msgs, sender) == Ok(false)
  {
    var i :| 0 <= i < |st.children| && st.children[i] == c;
    assert Authorization.ChildResponse(querier, st.children[i], msgs, sender).None?;
  }

  /** Anyone but the parent is refused and no state comes back. A corollary of
      the contract of `Execute`. */
  lemma NonParentRefused(st: State, caller: Addr, ext: ChildSet.ExecuteMsg)
    requires caller != st.parent
    ensures Execute(st, caller, Authorization.Extension(ext)) == Err(Unauthorized)
  {
  }

  /** As written, a child that answers in the standard form never counts as
      authorizing, so no batch is authorized once there is a child. */
  lemma AsWrittenRejectsStandardReplies(st: State, querier: Authorization.Querier, msgs: seq<CosmosMsg>, sender: Addr)
    requires |st.children| > 0
    requires forall a :: a in st.children && querier(a, msgs, sender).Some? ==>
      Authorization.DecodeIsAuthorizedResponse(querier(a, msgs, sender).value).Some?
    ensures IsAuthorizedAsWritten(st, querier, msgs, sender) == Ok(false)
  {
    var c := st.children[0];
    assert c in st.children;
    if querier(c, msgs, sender).Some? {
      Authorization.IsAuthorizedResponseIsNotBool(querier(c, msgs, sender).value);
    }
  }

  /** Querying a deployed basic contract. */
  function BasicQuerier(): Authorization.Querier {
    (a: Addr, msgs: seq<CosmosMsg>, s: Addr) => Basic.Query(Authorization.IsAuthorized(msgs, s)).ToOption()
  }

  /** An AllOf whose only child is a basic contract, which authorizes
      everything: as written it authorizes nothing, and its query answers
      `authorized: false`; read as the standard reply it authorizes every
      batch. */
  lemma BasicChildCounterexample(parent: Addr, child: Addr, msgs: seq<CosmosMsg>, sender: Addr)
    ensures IsAuthorizedAsWritten(State(parent, [child]), BasicQuerier(), msgs, sender) == Ok(false)
    ensures IsAuthorized(State(parent, [child]), BasicQuerier(), msgs, sender) == Ok(true)
    ensures
      var r := Query(State(parent, [child]), BasicQuerier(), Authorization.IsAuthorized(msgs, sender));
      r.Ok? && Authorization.DecodeIsAuthorizedResponse(r.value) == Some(Authorization.IsAuthorizedResponse(false))
    ensures
      var r := QueryCorrected(State(parent, [child]), BasicQuerier(), Authorization.IsAuthorized(msgs, sender));
      r.Ok? && Authorization.DecodeIsAuthorizedResponse(r.value) == Some(Authorization.IsAuthorizedResponse(true))
  {
    Basic.QueryAuthorizesAll(msgs, sender);
    AsWrittenRejectsStandardReplies(State(parent, [child]), BasicQuerier(), msgs, sender);
  }
}
