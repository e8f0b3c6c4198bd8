/** Properties of the message filter that relate several calls: the rule-list
    invariant, add/remove interplay, the vacuous empty batch, and the
    documented wildcard pattern. */
module MessageFilterProperties {
  import opened Results
  import opened Cosmos
  import opened Json
  import Authorization
  import opened MessageFilter

  /** Every rule stored under an address names that address. */
  ghost predicate WellKeyed(st: State) {
    forall a, i :: a in st.matchers && 0 <= i < |st.matchers[a]| ==> st.matchers[a][i].addr == a
  }

  lemma InstantiateWellKeyed(msg: InstantiateMsg)
    ensures WellKeyed(Instantiate(msg).0)
  {
  }

  /** No successful execution breaks `WellKeyed`. */
  lemma ExecutePreservesWellKeyed(st: State, codec: Codec, caller: Addr, msg: Authorization.ExecuteMsg<ExecuteMsg>)
    requires WellKeyed(st)
    ensures Execute(st, codec, caller, msg).Ok? ==> WellKeyed(Execute(st, codec, caller, msg).value.0)
  {
    if msg.Extension? && caller == st.config.parent && Execute(st, codec, caller, msg).Ok? {
      var after := Execute(st, codec, caller, msg).value.0;
      match msg.ext
      case AddAuthorization(addr, matcher) =>
        assert after.matchers[addr] == RulesOf(st, addr) + [Matcher(matcher, addr)];
      case RemoveAuthorization(addr, matcher) =>
        var rules := st.matchers[addr];
        var i := Position(rules, matcher).value;
        assert after.matchers[addr] == rules[..i] + rules[i + 1..];
        forall k | 0 <= k < |after.matchers[addr]|
          ensures after.matchers[addr][k].addr == addr
        {
          if k < i {
            assert after.matchers[addr][k] == rules[k];
          } else {
            assert after.matchers[addr][k] == rules[k + 1];
          }
        }
    }
  }

  /** Only the parent can change rules: any other caller's extension message
      fails and no state is returned. A corollary of the contract of
      `MessageFilter.Execute`. */
  lemma NonParentExtensionFails(st: State, codec: Codec, caller: Addr, ext: ExecuteMsg)
    requires caller != st.config.parent
    ensures Execute(st, codec, caller, Authorization.Extension(ext)) == Err(ContractError(UnauthorizedBecause))
  {
  }

  /** The filter has no children, so an update from anyone succeeds, dispatches
      nothing and leaves the state as it was. A corollary of the contract of
      `MessageFilter.Execute`. */
  lemma UpdateDispatchesNothing(st: State, codec: Codec, caller: Addr, msgs: seq<CosmosMsg>, sender: Addr)
    ensures Execute(st, codec, caller, Authorization.UpdateExecutedAuthorizationState(msgs, sender)) == Ok((st, EmptyResponse))
  {
    Authorization.DefaultUpdateIsFanOut([], msgs, sender, caller);
  }

  /** Adding a rule and then removing its pattern text restores the list when
      the text was not in it before. If the address had no list at all, an
      empty list is left behind. */
  lemma {:induction false} AddThenRemove(st: State, codec: Codec, addr: Addr, matcher: string)
    requires codec.strToValue(matcher).Some?
    requires forall i :: 0 <= i < |RulesOf(st, addr)| ==> RulesOf(st, addr)[i].matcher != matcher
    ensures
      var added := ExecuteAddAuthorization(st, codec, addr, matcher).value.0;
      var removed := ExecuteRemoveAuthorization(added, addr, matcher);
      && removed.Ok?
      && (addr in st.matchers ==> removed.value.0 == st)
      && (addr !in st.matchers ==> removed.value.0 == st.(matchers := st.matchers[addr := []]))
  {
    var rules := RulesOf(st, addr);
    var added := ExecuteAddAuthorization(st, codec, addr, matcher).value.0;
    var grown := rules + [Matcher(matcher, addr)];
    assert added.matchers[addr] == grown;
    PositionOfAppended(rules, Matcher(matcher, addr));
    var removed := ExecuteRemoveAuthorization(added, addr, matcher).value.0;
    assert grown[..|rules|] + grown[|rules| + 1..] == rules;
    assert removed.matchers[addr] == rules;
    assert removed.matchers == st.matchers[addr := rules];
    if addr in st.matchers {
      assert removed.matchers == st.matchers;
    }
  }

  /** A rule appended to a list without its pattern text is found at the end. */
  lemma {:induction false} PositionOfAppended(rules: seq<Matcher>, rule: Matcher)
    requires forall i :: 0 <= i < |rules| ==> rules[i].matcher != rule.matcher
    ensures Position(rules + [rule], rule.matcher) == Some(|rules|)
  {
    if |rules| > 0 {
      PositionOfAppended(rules[1..], rule);
      assert (rules + [rule])[1..] == rules[1..] + [rule];
    }
  }

  /** An empty batch is matched exactly when the address has at least one rule,
      so it takes the kind's decision then and the default otherwise. */
  lemma EmptyBatch(st: State, codec: Codec, sender: Addr)
    requires sender in st.matchers
    requires forall j :: 0 <= j < |st.matchers[sender]| ==> codec.strToValue(st.matchers[sender][j].matcher).Some?
    ensures IsAuthorized(st, codec, [], sender) ==
      Ok(if |st.matchers[sender]| > 0 then st.config.kind == Allow else st.config.kind == Reject)
  {
    var rules := st.matchers[sender];
    if |rules| > 0 {
      MatchedBy(codec, [], rules, 0);
    }
  }

  /** A rule matching every message of the batch makes it matched. */
  lemma MatchedBy(codec: Codec, msgs: seq<CosmosMsg>, rules: seq<Matcher>, j: nat)
    requires j < |rules|
    requires forall i :: 0 <= i < |msgs| ==> RuleMatches(codec, msgs[i], rules[j])
    ensures Matched(codec, msgs, rules)
  {
    assert RuleMatchesBatch(codec, msgs, rules[j]);
  }

  /** An address whose last rule was removed still has its messages converted:
      it gets the default only when they all convert, unlike an address that
      never had a list. */
  lemma EmptiedListStillConverts(st: State, codec: Codec, msgs: seq<CosmosMsg>, sender: Addr)
    requires sender in st.matchers && st.matchers[sender] == []
    ensures (forall i :: 0 <= i < |msgs| ==> codec.msgToValue(msgs[i]).Some?) ==>
      IsAuthorized(st, codec, msgs, sender) == Ok(DefaultAuthorization(st.config))
    ensures (exists i :: 0 <= i < |msgs| && codec.msgToValue(msgs[i]).None?) ==>
      IsAuthorized(st, codec, msgs, sender) == Err(ContractError(UnauthorizedBecause))
  {
  }

  /** The pattern `{key: {}}`. */
  function Wildcard(key: string): Value {
    Object(map[key := Object(map[])])
  }

  /** The matcher's documented short-circuit: `{key: {}}` matches every object
      that has the field `key`, whatever is under it. */
  ghost predicate EmptyObjectIsWildcard(deepPartialMatch: (Value, Value) -> bool) {
    forall candidate: Value, key: string ::
      candidate.Object? && key in candidate.fields ==> deepPartialMatch(candidate, Wildcard(key))
  }

  /** A rule `{key: {}}` matches any batch of messages that all have the field
      `key`, so the kind alone decides: Allow authorizes, Reject refuses. */
  lemma WildcardRuleDecides(st: State, codec: Codec, msgs: seq<CosmosMsg>, sender: Addr, j: nat, key: string)
    requires EmptyObjectIsWildcard(codec.deepPartialMatch)
    requires sender in st.matchers && j < |st.matchers[sender]|
    requires codec.strToValue(st.matchers[sender][j].matcher) == Some(Wildcard(key))
    requires forall k :: 0 <= k < |st.matchers[sender]| ==> codec.strToValue(st.matchers[sender][k].matcher).Some?
    requires forall i :: 0 <= i < |msgs| ==>
      && codec.msgToValue(msgs[i]).Some?
      && codec.msgToValue(msgs[i]).value.Object?
      && key in codec.msgToValue(msgs[i]).value.fields
    ensures IsAuthorized(st, codec, msgs, sender) == Ok(st.config.kind == Allow)
  {
    var rules := st.matchers[sender];
    forall i | 0 <= i < |msgs|
      ensures RuleMatches(codec, msgs[i], rules[j])
    {
      assert codec.deepPartialMatch(codec.msgToValue(msgs[i]).value, Wildcard(key));
    }
    MatchedBy(codec, msgs, rules, j);
  }

  /** A Reject filter authorizes an address without rules; once its parent adds
      the rule `{"bank": {}}` for it, a batch of bank messages is refused. */
  lemma RejectFilterBlocksBank(st: State, codec: Codec, msgs: seq<CosmosMsg>, sender: Addr, pattern: string)
    requires EmptyObjectIsWildcard(codec.deepPartialMatch)
    requires st.config.kind == Reject && sender !in st.matchers
    requires codec.strToValue(pattern) == Some(Wildcard("bank"))
    requires forall i :: 0 <= i < |msgs| ==>
      && codec.msgToValue(msgs[i]).Some?
      && codec.msgToValue(msgs[i]).value.Object?
      && "bank" in codec.msgToValue(msgs[i]).value.fields
    ensures IsAuthorized(st, codec, msgs, sender) == Ok(true)
    ensures
      var added := Execute(st, codec, st.config.parent, Authorization.Extension(AddAuthorization(sender, pattern)));
      && added.Ok?
      && IsAuthorized(added.value.0, codec, msgs, sender) == Ok(false)
  {
    var added := Execute(st, codec, st.config.parent, Authorization.Extension(AddAuthorization(sender, pattern)));
    assert added.value.0.matchers[sender] == [Matcher(pattern, sender)];
    WildcardRuleDecides(added.value.0, codec, msgs, sender, 0, "bank");
  }

  /** The `IsAuthorized` query answers the decision, with errors read as `false`.
      A corollary of the contract of `MessageFilter.Query`. */
  lemma QueryAnswersDecision(st: State, codec: Codec, msgs: seq<CosmosMsg>, sender: Addr)
    ensures
      var r := Query(st, codec, Authorization.IsAuthorized(msgs, sender));
      && r.Ok?
      && Authorization.DecodeIsAuthorizedResponse(r.value) ==
         Some(Authorization.IsAuthorizedResponse(IsAuthorized(st, codec, msgs, sender) == Ok(true)))
  {
  }

  /** The `GetAuthorizations` query answers the stored list, or an empty one.
      A corollary of the contract of `MessageFilter.Query`. */
  lemma QueryListsRules(st: State, codec: Codec, sender: Addr)
    ensures
      var r := Query(st, codec, Authorization.QueryExtension(GetAuthorizations(sender)));
      && r.Ok?
      && DecodeAuthorizationsResponse(r.value) == Some(RulesOf(st, sender))
  {
  }
}
