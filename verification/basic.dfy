/** The basic contract: authorizes every batch from every sender. */
module Basic {
  import opened Results
  import opened Cosmos
  import opened Json
  import Authorization

  /** The contract keeps no state. */
  datatype State = State

  function IsAuthorized(msgs: seq<CosmosMsg>, sender: Addr): (r: Result<bool, AuthError>)
    ensures r == Ok(true)
  {
    Ok(true)
  }

  function GetSubAuthorizations(): (r: Result<seq<Addr>, AuthError>)
    ensures r == Ok([])
  {
    Ok([])
  }

  function Instantiate(): (r: (State, Response))
    ensures r.1 == EmptyResponse.AddAttribute("action", "instantiate")
  {
    (State, EmptyResponse.AddAttribute("action", "instantiate"))
  }

  /** The `execute` entry point: an update from anyone succeeds and dispatches
      nothing; the contract declares no extension. */
  function Execute(st: State, caller: Addr, msg: Authorization.ExecuteMsg<Authorization.Empty>): (r: Result<(State, Response), AuthError>)
    ensures msg.UpdateExecutedAuthorizationState? ==> r == Ok((st, EmptyResponse))
    ensures msg.Extension? ==> r == Err(Std)
  {
    Authorization.Execute(
      st, caller, msg,
      (msgs: seq<CosmosMsg>, sender: Addr, originalSender: Addr) =>
        Authorization.UpdateAuthorizationState(
          Authorization.UpdateOwnState(msgs, sender, originalSender), GetSubAuthorizations(), msgs, originalSender),
      Authorization.UnimplementedExecuteExtension)
  }

  /** The `query` entry point: every `IsAuthorized` query answers `true`. */
  function Query(msg: Authorization.QueryMsg<Authorization.Empty>): (r: Result<Value, AuthError>)
    ensures msg.IsAuthorized? ==>
      r.Ok? && Authorization.DecodeIsAuthorizedResponse(r.value) == Some(Authorization.IsAuthorizedResponse(true))
    ensures msg.QueryExtension? ==> r == Err(Std)
  {
    Authorization.Query(msg, IsAuthorized, Authorization.UnimplementedQueryExtension)
  }

  /** An update from any caller, naming any sender, succeeds with no
      sub-messages. A corollary of the contract of `Execute`. */
  lemma UpdateFromAnyone(caller: Addr, msgs: seq<CosmosMsg>, sender: Addr)
    ensures Execute(State, caller, Authorization.UpdateExecutedAuthorizationState(msgs, sender)) == Ok((State, EmptyResponse))
  {
    Authorization.DefaultUpdateIsFanOut([], msgs, sender, caller);
  }

  /** The `IsAuthorized` query answers `authorized: true` for any batch and
      sender. A corollary of the contract of `Query`. */
  lemma QueryAuthorizesAll(msgs: seq<CosmosMsg>, sender: Addr)
    ensures
      var r := Query(Authorization.IsAuthorized(msgs, sender));
      r.Ok? && Authorization.DecodeIsAuthorizedResponse(r.value) == Some(Authorization.IsAuthorizedResponse(true))
  {
  }
}
