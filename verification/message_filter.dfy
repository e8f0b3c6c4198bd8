/** The message-filter contract: per-address lists of rules (JSON patterns),
    a batch being matched when one rule matches every message of it, and an
    Allow/Reject kind that decides what a match means. The JSON helpers it
    relies on are passed in as a `Codec`. */
module MessageFilter {
  import opened Results
  import opened Cosmos
  import opened Json
  import Authorization

  /** `Allow`: only matching batches are authorized. `Reject`: every batch is
      authorized unless a rule matches it. */
  datatype Kind = Allow | Reject

  datatype Config = Config(parent: Addr, kind: Kind)

  /** A stored rule: the pattern's JSON text and the address it applies to. */
  datatype Matcher = Matcher(matcher: string, addr: Addr)

  /** The contract's storage: its configuration and the rule list of each
      address that ever had a rule added. */
  datatype State = State(config: Config, matchers: map<Addr, seq<Matcher>>)

  /** The JSON helpers of the filter: converting a chain message and a stored
      pattern text to JSON (either may fail), and the structural match of a
      candidate against a pattern. Their definitions are not part of this model. */
  datatype Codec = Codec(
    msgToValue: CosmosMsg -> Option<Value>,
    strToValue: string -> Option<Value>,
    deepPartialMatch: (Value, Value) -> bool)

  datatype InstantiateMsg = InstantiateMsg(parent: Addr, kind: Kind)

  datatype ExecuteMsg =
    | AddAuthorization(addr: Addr, msg: string)
    | RemoveAuthorization(addr: Addr, msg: string)

  datatype QueryMsg = GetAuthorizations(sender: Addr)

  /** The decision when no rule applies. */
  function DefaultAuthorization(config: Config): (authorized: bool)
    ensures authorized <==> config.kind == Reject
  {
    match config.kind
    case Allow => false
    case Reject => true
  }

  /** The default as an execution outcome: Allow refuses, Reject lets through. */
  function DefaultResponse(config: Config): (r: Result<Response, AuthError>)
    ensures config.kind == Allow ==> r == Err(Unauthorized)
    ensures config.kind == Reject ==> r.Ok? && r.value.messages == [] && |r.value.attributes| > 0 && r.value.attributes[0] == Attribute("allowed", "true")
  {
    match config.kind
    case Allow => Err(Unauthorized)
    case Reject =>
      Ok(EmptyResponse
         .AddAttribute("allowed", "true")
         .AddAttribute("reason", "No authorizations rejected the request. Allowing."))
  }

  lemma DefaultResponseAgrees(config: Config)
    ensures DefaultResponse(config).Ok? <==> DefaultAuthorization(config)
  {
  }

  /** Converting every element, or `None` if any one fails. */
  function ConvertAll<T>(convert: T -> Option<Value>, xs: seq<T>): (r: Option<seq<Value>>)
    ensures r.Some? <==> forall i :: 0 <= i < |xs| ==> convert(xs[i]).Some?
    ensures r.Some? ==> |r.value| == |xs| && forall i :: 0 <= i < |xs| ==> convert(xs[i]) == Some(r.value[i])
  {
    if |xs| == 0 then
      Some([])
    else
      match convert(xs[0])
      case None => None
      case Some(v) =>
        match ConvertAll(convert, xs[1..])
        case None => None
        case Some(vs) => Some([v] + vs)
  }

  /** Every candidate matches `pattern` (Rust's `all`). */
  function MatchesAll(deepPartialMatch: (Value, Value) -> bool, candidates: seq<Value>, pattern: Value): (r: bool)
    ensures r <==> forall i :: 0 <= i < |candidates| ==> deepPartialMatch(candidates[i], pattern)
  {
    if |candidates| == 0 then true
    else deepPartialMatch(candidates[0], pattern) && MatchesAll(deepPartialMatch, candidates[1..], pattern)
  }

  /** Some pattern is matched by every candidate (Rust's `any` of `all`). */
  function SomeRuleMatchesAll(deepPartialMatch: (Value, Value) -> bool, candidates: seq<Value>, patterns: seq<Value>): (r: bool)
    ensures r <==> exists j :: 0 <= j < |patterns| && forall i :: 0 <= i < |candidates| ==> deepPartialMatch(candidates[i], patterns[j])
  {
    if |patterns| == 0 then false
    else MatchesAll(deepPartialMatch, candidates, patterns[0]) || SomeRuleMatchesAll(deepPartialMatch, candidates, patterns[1..])
  }

  /** Message `m` converts, rule `rule` converts, and the first matches the second. */
  predicate RuleMatches(codec: Codec, m: CosmosMsg, rule: Matcher) {
    match (codec.msgToValue(m), codec.strToValue(rule.matcher))
    case (Some(candidate), Some(pattern)) => codec.deepPartialMatch(candidate, pattern)
    case _ => false
  }

  /** `rule` matches every message of the batch. */
  ghost predicate RuleMatchesBatch(codec: Codec, msgs: seq<CosmosMsg>, rule: Matcher) {
    forall i :: 0 <= i < |msgs| ==> RuleMatches(codec, msgs[i], rule)
  }

  /** The batch is matched: one rule matches every one of its messages. */
  ghost predicate Matched(codec: Codec, msgs: seq<CosmosMsg>, rules: seq<Matcher>) {
    exists j :: 0 <= j < |rules| && RuleMatchesBatch(codec, msgs, rules[j])
  }

  /** Some message or some rule of the list fails to convert to JSON. */
  ghost predicate ConversionFails(codec: Codec, msgs: seq<CosmosMsg>, rules: seq<Matcher>) {
    || (exists i :: 0 <= i < |msgs| && codec.msgToValue(msgs[i]).None?)
    || (exists j :: 0 <= j < |rules| && codec.strToValue(rules[j].matcher).None?)
  }

  /** `is_authorized`: the kind's default for an address without a rule list;
      an error if anything fails to convert; otherwise a match decides
      `true` under Allow and `false` under Reject, and no match gives the
      default. */
  function IsAuthorized(st: State, codec: Codec, msgs: seq<CosmosMsg>, sender: Addr): (r: Result<bool, AuthError>)
    ensures sender !in st.matchers ==> r == Ok(DefaultAuthorization(st.config))
    ensures sender in st.matchers && ConversionFails(codec, msgs, st.matchers[sender]) ==>
      r == Err(ContractError(UnauthorizedBecause))
    ensures sender in st.matchers && !ConversionFails(codec, msgs, st.matchers[sender]) ==>
      r == Ok(Matched(codec, msgs, st.matchers[sender]) <==> st.config.kind == Allow)
  {
    if sender !in st.matchers then
      Ok(DefaultAuthorization(st.config))
    else
      var rules := st.matchers[sender];
      match ConvertAll(codec.msgToValue, msgs)
      case None => Err(ContractError(UnauthorizedBecause))
      case Some(candidates) =>
        match ConvertAll((rule: Matcher) => codec.strToValue(rule.matcher), rules)
        case None =>
          Err(ContractError(UnauthorizedBecause))
        case Some(patterns) =>
          var matched := SomeRuleMatchesAll(codec.deepPartialMatch, candidates, patterns);
          MatchedAgrees(codec, msgs, rules, candidates, patterns);
          if matched then
            (match st.config.kind
             case Allow => Ok(true)
             case Reject => Ok(false))
          else
            Ok(DefaultAuthorization(st.config))
  }

  /** On converted inputs the computed match is the `Matched` predicate. */
  lemma MatchedAgrees(codec: Codec, msgs: seq<CosmosMsg>, rules: seq<Matcher>, candidates: seq<Value>, patterns: seq<Value>)
    requires |candidates| == |msgs| && forall i :: 0 <= i < |msgs| ==> codec.msgToValue(msgs[i]) == Some(candidates[i])
    requires |patterns| == |rules| && forall j :: 0 <= j < |rules| ==> codec.strToValue(rules[j].matcher) == Some(patterns[j])
    ensures SomeRuleMatchesAll(codec.deepPartialMatch, candidates, patterns) <==> Matched(codec, msgs, rules)
  {
    assert forall i, j :: 0 <= i < |msgs| && 0 <= j < |rules| ==>
      (RuleMatches(codec, msgs[i], rules[j]) <==> codec.deepPartialMatch(candidates[i], patterns[j]));
  }

  /** The filter has no children. */
  function GetSubAuthorizations(st: State): (r: Result<seq<Addr>, AuthError>)
    ensures r == Ok([])
  {
    Ok([])
  }

  /** The rule list of `addr`, empty when it has none. */
  function RulesOf(st: State, addr: Addr): (rules: seq<Matcher>)
    ensures addr in st.matchers ==> rules == st.matchers[addr]
    ensures addr !in st.matchers ==> rules == []
  {
    if addr in st.matchers then st.matchers[addr] else []
  }

  /** `addr`'s list changed to `rules`, every other address untouched. */
  ghost predicate OnlyListChanged(before: State, after: State, addr: Addr, rules: seq<Matcher>) {
    && after.config == before.config
    && addr in after.matchers
    && after.matchers[addr] == rules
    && forall a :: a != addr ==>
         && (a in after.matchers <==> a in before.matchers)
         && (a in before.matchers ==> after.matchers[a] == before.matchers[a])
  }

  /** `AddAuthorization`: a pattern text that does not convert is refused;
      otherwise the rule goes at the end of the address's list (created if
      absent), duplicates included. */
  function ExecuteAddAuthorization(st: State, codec: Codec, addr: Addr, matcher: string): (r: Result<(State, Response), AuthError>)
    ensures codec.strToValue(matcher).None? ==> r == Err(Std)
    ensures codec.strToValue(matcher).Some? ==>
      && r.Ok?
      && OnlyListChanged(st, r.value.0, addr, RulesOf(st, addr) + [Matcher(matcher, addr)])
      && r.value.1 == EmptyResponse.AddAttribute("action", "allow_message")
  {
    if codec.strToValue(matcher).None? then
      Err(Std)
    else
      var rule := Matcher(matcher, addr);
      var rules := if addr in st.matchers then st.matchers[addr] + [rule] else [rule];
      Ok((st.(matchers := st.matchers[addr := rules]), EmptyResponse.AddAttribute("action", "allow_message")))
  }

  /** The index of the first rule whose pattern text equals `matcher`
      (Rust's `position`). */
  function Position(rules: seq<Matcher>, matcher: string): (r: Option<nat>)
    ensures r.None? <==> forall i :: 0 <= i < |rules| ==> rules[i].matcher != matcher
    ensures r.Some? ==>
      && r.value < |rules|
      && rules[r.value].matcher == matcher
      && forall i :: 0 <= i < r.value ==> rules[i].matcher != matcher
  {
    if |rules| == 0 then None
    else if rules[0].matcher == matcher then Some(0)
    else
      match Position(rules[1..], matcher)
      case None => None
      case Some(i) => Some(i + 1)
  }

  /** `RemoveAuthorization`: deletes the first rule of the address with an equal
      pattern text, keeping the order of the others; `NotFound` when the address
      has no list or no such rule. An emptied list stays stored. */
  function ExecuteRemoveAuthorization(st: State, addr: Addr, matcher: string): (r: Result<(State, Response), AuthError>)
    ensures (addr !in st.matchers || Position(st.matchers[addr], matcher).None?) ==>
      r == Err(ContractError(NotFound))
    ensures addr in st.matchers && Position(st.matchers[addr], matcher).Some? ==>
      var rules := st.matchers[addr];
      var i := Position(rules, matcher).value;
      && r.Ok?
      && OnlyListChanged(st, r.value.0, addr, rules[..i] + rules[i + 1..])
      && r.value.1 == EmptyResponse.AddAttribute("action", "removed")
  {
    if addr !in st.matchers then
      Err(ContractError(NotFound))
    else
      var rules := st.matchers[addr];
      match Position(rules, matcher)
      case None => Err(ContractError(NotFound))
      case Some(i) =>
        Ok((st.(matchers := st.matchers[addr := rules[..i] + rules[i + 1..]]), EmptyResponse.AddAttribute("action", "removed")))
  }

  /** `execute_extension`: only the parent may change rules; anyone else is
      refused and nothing changes. */
  function ExecuteExtension(st: State, codec: Codec, caller: Addr, msg: ExecuteMsg): (r: Result<(State, Response), AuthError>)
    ensures caller != st.config.parent ==> r == Err(ContractError(UnauthorizedBecause))
    ensures caller == st.config.parent && msg.AddAuthorization? ==> r == ExecuteAddAuthorization(st, codec, msg.addr, msg.msg)
    ensures caller == st.config.parent && msg.RemoveAuthorization? ==> r == ExecuteRemoveAuthorization(st, msg.addr, msg.msg)
  {
    if caller != st.config.parent then
      Err(ContractError(UnauthorizedBecause))
    else
      match msg
      case AddAuthorization(addr, matcher) => ExecuteAddAuthorization(st, codec, addr, matcher)
      case RemoveAuthorization(addr, matcher) => ExecuteRemoveAuthorization(st, addr, matcher)
  }

  function EncodeMatcher(m: Matcher): Value {
    Object(map["matcher" := String(m.matcher), "addr" := String(m.addr)])
  }

  function DecodeMatcher(v: Value): Option<Matcher> {
    if && v.Object?
       && "matcher" in v.fields && v.fields["matcher"].String?
       && "addr" in v.fields && v.fields["addr"].String?
    then Some(Matcher(v.fields["matcher"].s, v.fields["addr"].s))
    else None
  }

  function EncodeMatchers(rules: seq<Matcher>): (items: seq<Value>)
    ensures |items| == |rules|
  {
    if |rules| == 0 then [] else [EncodeMatcher(rules[0])] + EncodeMatchers(rules[1..])
  }

  function DecodeMatchers(items: seq<Value>): Option<seq<Matcher>> {
    if |items| == 0 then
      Some([])
    else
      match (DecodeMatcher(items[0]), DecodeMatchers(items[1..]))
      case (Some(m), Some(ms)) => Some([m] + ms)
      case _ => None
  }

  /** The JSON form of `AuthorizationsResponse { authorizations }`. */
  function EncodeAuthorizationsResponse(rules: seq<Matcher>): Value {
    Object(map["authorizations" := Array(EncodeMatchers(rules))])
  }

  function DecodeAuthorizationsResponse(v: Value): Option<seq<Matcher>> {
    if v.Object? && "authorizations" in v.fields && v.fields["authorizations"].Array? then
      DecodeMatchers(v.fields["authorizations"].items)
    else
      None
  }

  lemma {:induction false} MatchersRoundTrip(rules: seq<Matcher>)
    ensures DecodeMatchers(EncodeMatchers(rules)) == Some(rules)
  {
    if |rules| > 0 {
      MatchersRoundTrip(rules[1..]);
      assert EncodeMatchers(rules)[1..] == EncodeMatchers(rules[1..]);
      assert [rules[0]] + rules[1..] == rules;
    }
  }

  /** `query_extension`: the stored rule list of `sender`, or an empty list. */
  function QueryExtension(st: State, q: QueryMsg): (r: Result<Value, AuthError>)
    ensures r.Ok? && DecodeAuthorizationsResponse(r.value) == Some(RulesOf(st, q.sender))
  {
    var rules := RulesOf(st, q.sender);
    MatchersRoundTrip(rules);
    Ok(EncodeAuthorizationsResponse(rules))
  }

  /** Instantiation stores the parent and kind; no address has rules yet. */
  function Instantiate(msg: InstantiateMsg): (r: (State, Response))
    ensures r.0.config == Config(msg.parent, msg.kind)
    ensures forall a :: a !in r.0.matchers
    ensures r.1 == EmptyResponse.AddAttribute("action", "instantiate")
  {
    (State(Config(msg.parent, msg.kind), map[]), EmptyResponse.AddAttribute("action", "instantiate"))
  }

  /** The `execute` entry point, with the default update (no children). */
  function Execute(st: State, codec: Codec, caller: Addr, msg: Authorization.ExecuteMsg<ExecuteMsg>): (r: Result<(State, Response), AuthError>)
    ensures msg.UpdateExecutedAuthorizationState? ==> r == Ok((st, EmptyResponse))
    ensures msg.Extension? && caller != st.config.parent ==> r == Err(ContractError(UnauthorizedBecause))
    ensures msg.Extension? && caller == st.config.parent && msg.ext.AddAuthorization? ==>
      r == ExecuteAddAuthorization(st, codec, msg.ext.addr, msg.ext.msg)
    ensures msg.Extension? && caller == st.config.parent && msg.ext.RemoveAuthorization? ==>
      r == ExecuteRemoveAuthorization(st, msg.ext.addr, msg.ext.msg)
  {
    Authorization.Execute(
      st, caller, msg,
      (msgs: seq<CosmosMsg>, sender: Addr, originalSender: Addr) =>
        Authorization.UpdateAuthorizationState(
          Authorization.UpdateOwnState(msgs, sender, originalSender), GetSubAuthorizations(st), msgs, originalSender),
      (s: State, c: Addr, e: ExecuteMsg) => ExecuteExtension(s, codec, c, e))
  }

  /** The `query` entry point. */
  function Query(st: State, codec: Codec, msg: Authorization.QueryMsg<QueryMsg>): (r: Result<Value, AuthError>)
    ensures msg.IsAuthorized? ==>
      && r.Ok?
      && Authorization.DecodeIsAuthorizedResponse(r.value) ==
         Some(Authorization.IsAuthorizedResponse(IsAuthorized(st, codec, msg.msgs, msg.sender) == Ok(true)))
    ensures msg.QueryExtension? ==>
      r.Ok? && DecodeAuthorizationsResponse(r.value) == Some(RulesOf(st, msg.query.sender))
  {
    Authorization.Query(
      msg,
      (msgs: seq<CosmosMsg>, sender: Addr) => IsAuthorized(st, codec, msgs, sender),
      (q: QueryMsg) => QueryExtension(st, q))
  }
}
