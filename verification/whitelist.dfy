/** The whitelist contract: a batch is authorized exactly when its sender is in
    a set the owner maintains; the messages themselves are not looked at. */
module Whitelist {
  import opened Results
  import opened Cosmos
  import opened Json
  import Authorization

  /** The owner (the DAO) and the set of authorized addresses, keyed by their text. */
  datatype State = State(owner: Addr, authorized: set<string>)

  datatype InstantiateMsg = InstantiateMsg(dao: Addr)

  datatype ExecuteMsg = Allow(addr: string) | Remove(addr: string)

  function IsAuthorized(st: State, msgs: seq<CosmosMsg>, sender: Addr): (r: Result<bool, AuthError>)
    ensures r.Ok? && (r.value <==> sender in st.authorized)
  {
    Ok(sender in st.authorized)
  }

  function GetSubAuthorizations(st: State): (r: Result<seq<Addr>, AuthError>)
    ensures r == Ok([])
  {
    Ok([])
  }

  /** `Allow` adds and `Remove` deletes an address (absent is no error); both
      are refused to anyone but the owner. */
  function ExecuteExtension(st: State, caller: Addr, msg: ExecuteMsg): (r: Result<(State, Response), AuthError>)
    ensures caller != st.owner ==> r == Err(Unauthorized)
    ensures caller == st.owner ==> r.Ok? && r.value.0.owner == st.owner
    ensures caller == st.owner && msg.Allow? ==>
      r.value == (st.(authorized := st.authorized + {msg.addr}), EmptyResponse.AddAttribute("action", "allow"))
    ensures caller == st.owner && msg.Remove? ==>
      r.value == (st.(authorized := st.authorized - {msg.addr}), EmptyResponse.AddAttribute("action", "remove"))
  {
    match msg
    case Allow(addr) =>
      if caller != st.owner then Err(Unauthorized)
      else Ok((st.(authorized := st.authorized + {addr}), EmptyResponse.AddAttribute("action", "allow")))
    case Remove(addr) =>
      if caller != st.owner then Err(Unauthorized)
      else Ok((st.(authorized := st.authorized - {addr}), EmptyResponse.AddAttribute("action", "remove")))
  }

  /** Instantiation makes `dao` the owner; nobody is authorized yet. */
  function Instantiate(msg: InstantiateMsg): (r: (State, Response))
    ensures r.0.owner == msg.dao
    ensures forall a :: a !in r.0.authorized
    ensures r.1 == EmptyResponse.AddAttribute("action", "instantiate")
  {
    (State(msg.dao, {}), EmptyResponse.AddAttribute("action", "instantiate"))
  }

  /** The `execute` entry point: an update dispatches nothing; `Allow` and
      `Remove` are the owner's alone. */
  function Execute(st: State, caller: Addr, msg: Authorization.ExecuteMsg<ExecuteMsg>): (r: Result<(State, Response), AuthError>)
    ensures msg.UpdateExecutedAuthorizationState? ==> r == Ok((st, EmptyResponse))
    ensures msg.Extension? && caller != st.owner ==> r == Err(Unauthorized)
    ensures msg.Extension? && caller == st.owner && msg.ext.Allow? ==>
      r == Ok((st.(authorized := st.authorized + {msg.ext.addr}), EmptyResponse.AddAttribute("action", "allow")))
    ensures msg.Extension? && caller == st.owner && msg.ext.Remove? ==>
      r == Ok((st.(authorized := st.authorized - {msg.ext.addr}), EmptyResponse.AddAttribute("action", "remove")))
  {
    Authorization.Execute(
      st, caller, msg,
      (msgs: seq<CosmosMsg>, sender: Addr, originalSender: Addr) =>
        Authorization.UpdateAuthorizationState(
          Authorization.UpdateOwnState(msgs, sender, originalSender), GetSubAuthorizations(st), msgs, originalSender),
      ExecuteExtension)
  }

  /** The `query` entry point: `IsAuthorized` answers whether the sender is in
      the set. */
  function Query(st: State, msg: Authorization.QueryMsg<Authorization.Empty>): (r: Result<Value, AuthError>)
    ensures msg.IsAuthorized? ==>
      r.Ok? && Authorization.DecodeIsAuthorizedResponse(r.value) ==
               Some(Authorization.IsAuthorizedResponse(msg.sender in st.authorized))
    ensures msg.QueryExtension? ==> r == Err(Std)
  {
    Authorization.Query(
      msg,
      (msgs: seq<CosmosMsg>, sender: Addr) => IsAuthorized(st, msgs, sender),
      Authorization.UnimplementedQueryExtension)
  }

  /** After the owner allows an address, every batch from it is authorized and
      no other address's standing changes. */
  lemma AllowAuthorizes(st: State, addr: Addr, msgs: seq<CosmosMsg>)
    ensures
      var r := Execute(st, st.owner, Authorization.Extension(Allow(addr)));
      && r.Ok?
      && IsAuthorized(r.value.0, msgs, addr) == Ok(true)
      && forall other :: other != addr ==> IsAuthorized(r.value.0, msgs, other) == IsAuthorized(st, msgs, other)
  {
  }

  /** After the owner removes an address, no batch from it is authorized; removing
      an absent address succeeds and changes nothing. */
  lemma RemoveDeauthorizes(st: State, addr: Addr, msgs: seq<CosmosMsg>)
    ensures
      var r := Execute(st, st.owner, Authorization.Extension(Remove(addr)));
      && r.Ok?
      && IsAuthorized(r.value.0, msgs, addr) == Ok(false)
      && (addr !in st.authorized ==> r.value.0 == st)
  {
  }

  /** Anyone but the owner is refused and no state comes back. A corollary of
      the contract of `Execute`. */
  lemma NonOwnerRefused(st: State, caller: Addr, ext: ExecuteMsg)
    requires caller != st.owner
    ensures Execute(st, caller, Authorization.Extension(ext)) == Err(Unauthorized)
  {
  }

  /** With no children, an update succeeds, dispatches nothing and changes
      nothing. A corollary of the contract of `Execute`. */
  lemma UpdateDispatchesNothing(st: State, caller: Addr, msgs: seq<CosmosMsg>, sender: Addr)
    ensures Execute(st, caller, Authorization.UpdateExecutedAuthorizationState(msgs, sender)) == Ok((st, EmptyResponse))
  {
    Authorization.DefaultUpdateIsFanOut([], msgs, sender, caller);
  }
}
