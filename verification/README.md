# Composable authorization modules, modelled in Dafny

The system answers one question for a DAO-like host: is this batch of chain
messages authorized for this sender? Each answer comes from an authorization
contract, and contracts compose:

- **basic** authorizes everything;
- **whitelist** authorizes the senders in an owner-maintained set;
- **message-filter** keeps, per sender, a list of JSON rules; a batch is
  *matched* when one rule matches every message of it, and an Allow/Reject
  kind decides what a match means;
- **satisfies-any** (AnyOf) authorizes when some child does;
- **satisfies-all** (AllOf) authorizes when every child does.

All of them implement the shared `Authorization` interface. It turns the
`IsAuthorized` query into a decision that never fails: an error becomes
`false`. After an authorized batch executes, an
`UpdateExecutedAuthorizationState` message fans out. The default update runs
the contract's own-state hook, then emits one update sub-message per child.
satisfies-any overrides it: it refuses a caller that is neither the declared
sender nor its parent, re-decides the batch for the declared sender, and only
then fans out, with no own-state step. Every update
sub-message has reply id 1000 and reports back only on error. The reply handler
records the outcome as an attribute and never fails.

The model is functional:

- Each contract's storage is an immutable datatype.
- Each entry point is a pure function returning the new state and a `Response`
  (sub-messages plus attributes) or an `AuthError`.
- The interface's default methods are written once, in module `Authorization`.
  They take the contract's hooks as arguments. Each contract module wires its
  own hooks into `Authorization.Execute` and `Authorization.Query`.
- A composite's child set is a key-value map ranged in ascending key order. It
  is modelled as `ChildSet.ChildList`: the strictly ascending list of child
  addresses. The order is code-point lexicographic, which is the UTF-8 byte
  order the store uses.
- Synchronous queries to children go through a `Querier` parameter. It returns
  a child's raw JSON reply, or `None` when the query fails.
- The filter's JSON helpers (`msg_to_value`, `str_to_value`,
  `deep_partial_match`) are function fields of a `Codec` parameter. The
  matcher is constrained only where a lemma needs the documented wildcard
  behaviour: `{key: {}}` matches every object that has `key`
  (`MessageFilterProperties.EmptyObjectIsWildcard`).

Behaviours of the code worth knowing:

- satisfies-all does not override the update. So it has no caller check and no
  re-decision.
- Under the default update, children receive the immediate caller as the
  sender, not the sender declared in the message. The execute entry point
  passes `info.sender` as the `original_sender` argument
  (`SatisfiesAll.UpdateForwardsCaller`).
- Removing an absent child or whitelist entry is a silent no-op.
- Removing a missing rule is `NotFound`.
- A message-filter address whose last rule was removed keeps an empty list.
  Its messages are still converted, so a conversion failure is still an error
  (`MessageFilterProperties.EmptiedListStillConverts`).

## Model

| member | source | states |
|---|---|---|
| `Authorization.GetUpdateReplyId` | packages/cw-authorizations/src/interface.rs:51-53 | the correlation id of child updates is 1000 |
| `Authorization.DefaultReplyOn` | packages/cw-authorizations/src/interface.rs:55-57 | child updates call back only on error |
| `Authorization.IsAuthorizedResponseRoundTrip` | packages/cw-authorizations/src/msg.rs:36-39 | an `IsAuthorizedResponse` reads back as itself from its JSON form |
| `Authorization.IsAuthorizedResponseIsNotBool` | contracts/satisfies-all/src/contract.rs:55-64 | a reply in the standard `{"authorized": b}` form never decodes as a bare boolean |
| `Authorization.QueryAuthorizations` | packages/cw-authorizations/src/interface.rs:28-37 | the reply carries `authorized = true` exactly when the decision is `Ok(true)`; an error becomes `false` and is never surfaced |
| `Authorization.UpdateOwnState` | packages/cw-authorizations/src/interface.rs:40-48 | the default own-state hook always succeeds with an empty response (no sub-messages, no attributes) |
| `Authorization.ChildUpdates` | packages/cw-authorizations/src/interface.rs:70-89 | exactly one update per child, in the children's order, each addressed to that child with id 1000, reply-on-error, no gas limit and the same `msgs` and sender |
| `Authorization.GenerateChildUpdateMsgs` | packages/cw-authorizations/src/interface.rs:63-92 | fails with the error of `get_sub_authorizations` when that fails; otherwise one update per sub-authorization as above |
| `Authorization.UpdateAuthorizationState` | packages/cw-authorizations/src/interface.rs:94-107 | a failing own-state step fails the call with no fan-out; a failing child listing fails it; otherwise the own-state response is kept as a prefix and the child updates follow it |
| `Authorization.DefaultUpdateIsFanOut` | packages/cw-authorizations/src/interface.rs:94-107 | with the default hook the update response is exactly the child updates, with no attributes |
| `Authorization.SubMessageReply` | packages/cw-authorizations/src/interface.rs:109-114 | the reply handler always succeeds and dispatches nothing; an error reply adds `update_error` with the error text, a success adds `update_success` with the rendered result |
| `Authorization.Execute` | packages/cw-authorizations/src/interface.rs:117-132 | the update message goes to the update hook with the immediate caller as last argument, and state is unchanged on success; an extension goes to the extension handler |
| `Authorization.Query` | packages/cw-authorizations/src/interface.rs:144-156 | `IsAuthorized` always succeeds with the standard reply of the decision; an extension goes to the extension handler |
| `Authorization.UnimplementedExecuteExtension` | packages/cw-authorizations/src/interface.rs:134-142 | the unimplemented default extension handler aborts |
| `Authorization.UnimplementedQueryExtension` | packages/cw-authorizations/src/interface.rs:158-160 | the unimplemented default query extension aborts |
| `Authorization.ChildResponse` | contracts/satisfies-any/src/contract.rs:65-75 | a child's verdict, read as an `IsAuthorizedResponse`, is present exactly when the query succeeds and its reply decodes, and is then the reply's `authorized` field |
| `Authorization.ChildBool` | contracts/satisfies-all/src/contract.rs:56-64 | a child's verdict, read as a bare boolean, is present exactly when the query succeeds with a JSON boolean, and is then that boolean |
| `ChildSet.Insert` | contracts/satisfies-any/src/contract.rs:131 | saving a child keeps the list ascending, adds the address and keeps every other child |
| `ChildSet.Remove` | contracts/satisfies-any/src/contract.rs:135 | removing a child keeps the list ascending, drops only that address and accepts an absent one |
| `ChildSet.InsertIdempotent` | contracts/satisfies-all/src/contract.rs:94 | saving a child that is already present leaves the list identical |
| `ChildSet.RemoveAbsent` | contracts/satisfies-all/src/contract.rs:98 | removing an absent child leaves the list identical |
| `ChildSet.AscendingUnique` | contracts/satisfies-any/src/contract.rs:79-87 | the ascending child list is determined by the set of children alone |
| `ChildSet.FromSeq` | contracts/satisfies-any/src/contract.rs:32-34 | saving each listed child in turn yields an ascending list of exactly the listed addresses |
| `ChildSet.FromSeqCanonical` | contracts/satisfies-all/src/contract.rs:27-31 | the order and repetitions of the instantiation list do not affect the stored children |
| `ChildSet.Apply` | contracts/satisfies-all/src/contract.rs:92-101 | `AddChild` inserts and `RemoveChild` deletes the one address, with attribute `action` = `allow` / `remove` |
| `MessageFilter.DefaultAuthorization` | contracts/message-filter/src/state.rs:43-48 | the default decision is `true` exactly for the Reject kind |
| `MessageFilter.DefaultResponse` | contracts/message-filter/src/state.rs:28-41 | Allow gives `Unauthorized`; Reject succeeds with first attribute `allowed` = `true` |
| `MessageFilter.DefaultResponseAgrees` | contracts/message-filter/src/state.rs:28-48 | the default response succeeds exactly when the default decision is `true` |
| `MessageFilter.ConvertAll` | contracts/message-filter/src/contract.rs:57-72 | converting a list succeeds exactly when every element converts, and then yields the converted elements in order |
| `MessageFilter.MatchesAll` | contracts/message-filter/src/contract.rs:75-80 | true exactly when every candidate matches the pattern |
| `MessageFilter.SomeRuleMatchesAll` | contracts/message-filter/src/contract.rs:74-81 | true exactly when some pattern is matched by every candidate |
| `MessageFilter.MatchedAgrees` | contracts/message-filter/src/contract.rs:74-81 | on converted inputs the computed match is the `Matched` predicate: some rule matches every message |
| `MessageFilter.IsAuthorized` | contracts/message-filter/src/contract.rs:41-90 | no rule list gives the kind's default; any message or rule failing to convert gives `UnauthorizedBecause`; otherwise the decision is `true` exactly when "matched" coincides with the Allow kind |
| `MessageFilter.GetSubAuthorizations` | contracts/message-filter/src/contract.rs:92-97 | the filter has no children |
| `MessageFilter.ExecuteAddAuthorization` | contracts/message-filter/src/contract.rs:142-170 | a rule text that does not convert is refused; otherwise the rule is appended to that address's list, which is created if absent; the configuration and every other address's list are unchanged |
| `MessageFilter.Position` | contracts/message-filter/src/contract.rs:185-187 | the index of the first rule with an equal pattern text, absent exactly when there is none |
| `MessageFilter.ExecuteRemoveAuthorization` | contracts/message-filter/src/contract.rs:172-205 | no list or no equal rule gives `NotFound`; otherwise exactly the first equal rule is deleted, the others keep their order, and the other lists are unchanged |
| `MessageFilter.ExecuteExtension` | contracts/message-filter/src/contract.rs:99-124 | a caller other than the parent is refused with `UnauthorizedBecause`; the parent's messages go to add / remove |
| `MessageFilter.MatchersRoundTrip` | contracts/message-filter/src/msg.rs:28-31 | a rule list reads back as itself from its JSON form |
| `MessageFilter.QueryExtension` | contracts/message-filter/src/contract.rs:126-138 | `GetAuthorizations` answers the stored list of the sender, or an empty list |
| `MessageFilter.Instantiate` | contracts/message-filter/src/contract.rs:20-31 | instantiation stores parent and kind and no address has rules |
| `MessageFilterProperties.InstantiateWellKeyed` | contracts/message-filter/src/contract.rs:20-31 | a fresh filter satisfies the invariant that every rule stored under an address names that address |
| `MessageFilterProperties.ExecutePreservesWellKeyed` | contracts/message-filter/src/contract.rs:150-203 | no successful execution breaks that invariant |
| `MessageFilterProperties.NonParentExtensionFails` | contracts/message-filter/src/contract.rs:106-114 | through the entry point, any extension from a non-parent fails, so no rule list changes |
| `MessageFilterProperties.UpdateDispatchesNothing` | contracts/message-filter/src/contract.rs:92-97 | an update from anyone succeeds, leaves the state and dispatches nothing |
| `MessageFilterProperties.AddThenRemove` | contracts/message-filter/src/contract.rs:150-203 | adding a new rule text and removing it restores the state, except that an address with no list is left with an empty one |
| `MessageFilterProperties.EmptyBatch` | contracts/message-filter/src/contract.rs:74-81 | an empty batch is matched exactly when the address has at least one rule |
| `MessageFilterProperties.EmptiedListStillConverts` | contracts/message-filter/src/contract.rs:48-64 | an address with an empty stored list gets the default only if every message converts, and an error otherwise |
| `MessageFilterProperties.WildcardRuleDecides` | contracts/message-filter/src/state.rs:53-67 | with the documented wildcard behaviour, a rule `{key: {}}` matches any batch whose messages all have `key`, so Allow authorizes and Reject refuses |
| `MessageFilterProperties.RejectFilterBlocksBank` | contracts/message-filter/src/state.rs:65-66 | a Reject filter authorizes a sender without rules, and refuses its bank messages once the parent adds `{"bank": {}}` for it |
| `MessageFilterProperties.QueryAnswersDecision` | contracts/message-filter/src/contract.rs:230-233 | the filter's `IsAuthorized` query answers its decision, errors read as `false` |
| `MessageFilterProperties.QueryListsRules` | contracts/message-filter/src/contract.rs:126-138 | through the query entry point, `GetAuthorizations` answers the stored list or an empty one |
| `MessageFilter.Execute` | contracts/message-filter/src/contract.rs:220-229 | an update succeeds, keeps the state and dispatches nothing; an extension from a non-parent is `UnauthorizedBecause`; the parent's add / remove messages behave as `ExecuteAddAuthorization` / `ExecuteRemoveAuthorization` state |
| `MessageFilter.Query` | contracts/message-filter/src/contract.rs:230-233 | `IsAuthorized` answers the filter's decision with errors read as `false`; `GetAuthorizations` answers the sender's stored list or an empty one |
| `Whitelist.IsAuthorized` | contracts/whitelist/src/contract.rs:28-39 | the decision is `true` exactly when the sender is in the set, whatever the messages |
| `Whitelist.GetSubAuthorizations` | contracts/whitelist/src/contract.rs:41-43 | the whitelist has no children |
| `Whitelist.ExecuteExtension` | contracts/whitelist/src/contract.rs:45-74 | a non-owner is refused with `Unauthorized`; for the owner `Allow` adds and `Remove` deletes the address and the owner is unchanged |
| `Whitelist.Instantiate` | contracts/whitelist/src/contract.rs:77-88 | the owner is the given DAO and the set starts empty |
| `Whitelist.AllowAuthorizes` | contracts/whitelist/src/contract.rs:53-62 | after the owner allows an address it is authorized for any batch, and no other address's decision changes |
| `Whitelist.RemoveDeauthorizes` | contracts/whitelist/src/contract.rs:63-72 | after the owner removes an address it is not authorized; removing an absent one succeeds and changes nothing |
| `Whitelist.NonOwnerRefused` | contracts/whitelist/src/contract.rs:52-72 | any extension from a non-owner fails with `Unauthorized` and no state comes back |
| `Whitelist.UpdateDispatchesNothing` | contracts/whitelist/src/contract.rs:41-43 | an update succeeds, leaves the state and dispatches nothing |
| `Whitelist.Execute` | contracts/whitelist/src/contract.rs:90-99 | an update succeeds, keeps the state and dispatches nothing; an extension from a non-owner is `Unauthorized`; the owner's `Allow` / `Remove` adds / deletes the address with action `allow` / `remove` |
| `Whitelist.Query` | contracts/whitelist/src/contract.rs:100-103 | `IsAuthorized` answers whether the sender is in the set; the extension query aborts |
| `Basic.IsAuthorized` | contracts/basic/src/lib.rs:17-24 | every batch from every sender is authorized |
| `Basic.GetSubAuthorizations` | contracts/basic/src/lib.rs:26-28 | the basic contract has no children |
| `Basic.Instantiate` | contracts/basic/src/lib.rs:35-43 | instantiation only adds the `instantiate` action attribute |
| `Basic.UpdateFromAnyone` | contracts/basic/src/tests.rs:41-50 | an update from any caller naming any sender succeeds with no sub-messages |
| `Basic.QueryAuthorizesAll` | contracts/basic/src/tests.rs:52-62 | the query answers `authorized: true` for any batch, the empty one included |
| `Basic.Execute` | contracts/basic/src/lib.rs:45-53 | an update succeeds, keeps the state and dispatches nothing; the extension aborts |
| `Basic.Query` | contracts/basic/src/lib.rs:55-58 | `IsAuthorized` answers `authorized: true`; the extension query aborts |
| `SatisfiesAny.AnyAuthorizes` | contracts/satisfies-any/src/contract.rs:65-76 | true exactly when some child's verdict is `true` |
| `SatisfiesAny.IsAuthorized` | contracts/satisfies-any/src/contract.rs:46-77 | false with no children; otherwise true exactly when some child answers `authorized: true`, a failed query counting as false |
| `SatisfiesAny.GetSubAuthorizations` | contracts/satisfies-any/src/contract.rs:79-87 | the children in ascending order, exactly the stored ones, without duplicates |
| `SatisfiesAny.UpdateAuthorizationState` | contracts/satisfies-any/src/contract.rs:89-114 | a caller other than the declared sender and the parent is refused; a batch not authorized for the declared sender is refused; otherwise every child, whatever its own decision, gets one update naming the declared sender |
| `SatisfiesAny.ExecuteExtension` | contracts/satisfies-any/src/contract.rs:116-139 | a non-admin is refused with `Unauthorized`; for the admin the child list changes as `ChildSet.Apply` says and admin and parent are unchanged |
| `SatisfiesAny.HandleReply` | contracts/satisfies-any/src/contract.rs:169-181 | reply id 1000 goes to the shared handler and succeeds; any other id is an error |
| `SatisfiesAny.Instantiate` | contracts/satisfies-any/src/contract.rs:24-36 | admin and parent are stored and the children are exactly the listed addresses |
| `SatisfiesAny.UpdateSucceedsIffAuthorized` | contracts/satisfies-any/src/contract.rs:96-113 | for the sender itself or the parent, the update succeeds exactly when the batch is authorized; then the state is unchanged and each child gets one update; a failure is `Unauthorized` |
| `SatisfiesAny.ForgedSenderRefused` | contracts/satisfies-any/src/contract.rs:96-101 | through the entry point, a caller naming another sender without being the parent is refused |
| `SatisfiesAny.NonAuthorizingChildIsNeutral` | contracts/satisfies-any/src/contract.rs:65-76 | removing a child that does not authorize, or whose query fails, never changes the decision |
| `SatisfiesAny.UpdateReplyNeverFails` | contracts/satisfies-any/src/contract.rs:172-174 | the reply to a child update succeeds whatever the child's outcome |
| `SatisfiesAny.NonAdminRefused` | contracts/satisfies-any/src/contract.rs:123-128 | through the entry point, any extension from a non-admin fails and no state comes back |
| `SatisfiesAny.Execute` | contracts/satisfies-any/src/contract.rs:154-162 | an update from a caller that is neither the declared sender nor the parent is `Unauthorized`; otherwise it succeeds exactly when the batch is authorized for the declared sender, then keeps the state and sends every child an update naming that sender, and else fails with `Unauthorized`; extensions are the admin's alone and change the children as `ChildSet.Apply` says |
| `SatisfiesAny.Query` | contracts/satisfies-any/src/contract.rs:164-167 | `IsAuthorized` answers whether some child answers `authorized: true`; the extension query aborts |
| `SatisfiesAll.AllAuthorize` | contracts/satisfies-all/src/contract.rs:55-65 | true exactly when every child's verdict is `true` |
| `SatisfiesAll.IsAuthorizedAsWritten` | contracts/satisfies-all/src/contract.rs:42-66 | the decision as written: true exactly when every child's reply is the JSON boolean `true` |
| `SatisfiesAll.IsAuthorized` | contracts/satisfies-all/src/contract.rs:42-66 | the corrected decision: true with no children; otherwise true exactly when every child answers `authorized: true`, a failed query counting as false |
| `SatisfiesAll.GetSubAuthorizations` | contracts/satisfies-all/src/contract.rs:68-76 | the children in ascending order, exactly the stored ones, without duplicates |
| `SatisfiesAll.ExecuteExtension` | contracts/satisfies-all/src/contract.rs:78-102 | a non-parent is refused with `Unauthorized`; for the parent the child list changes as `ChildSet.Apply` says |
| `SatisfiesAll.Instantiate` | contracts/satisfies-all/src/contract.rs:21-33 | the parent is stored and the children are exactly the listed addresses, duplicates collapsed |
| `SatisfiesAll.UpdateForwardsCaller` | packages/cw-authorizations/src/interface.rs:125-127 | an update from any caller succeeds with no decision, keeps the state and sends every child one update naming the caller, not the declared sender |
| `SatisfiesAll.FailingChildForcesFalse` | contracts/satisfies-all/src/contract.rs:55-65 | one stored child whose query fails makes the decision false |
| `SatisfiesAll.NonParentRefused` | contracts/satisfies-all/src/contract.rs:85-90 | through the entry point, any extension from a non-parent fails and no state comes back |
| `SatisfiesAll.AsWrittenRejectsStandardReplies` | contracts/satisfies-all/src/contract.rs:55-64 | as written, once there is a child whose replies are in the standard form, no batch is authorized |
| `SatisfiesAll.BasicChildCounterexample` | contracts/satisfies-all/src/contract.rs:55-64 | with one basic child: the as-written decision and the `Query` entry point answer `false` for every batch, the corrected decision and `QueryCorrected` answer `true` |
| `SatisfiesAll.Execute` | contracts/satisfies-all/src/contract.rs:117-125 | an update from anyone succeeds, keeps the state and sends every child an update naming the caller; extensions are the parent's alone and change the children as `ChildSet.Apply` says |
| `SatisfiesAll.Query` | contracts/satisfies-all/src/contract.rs:127-130 | as written: `IsAuthorized` answers whether every child's reply is the JSON boolean `true`; the extension query aborts |
| `SatisfiesAll.QueryCorrected` | contracts/satisfies-all/src/contract.rs:127-130 | with the corrected decision: `IsAuthorized` answers whether every child answers `authorized: true`; the extension query aborts |

## Findings

| source | as written | input that shows it | evidently intended | confidence | as-written member | corrected member |
|---|---|---|---|---|---|---|
| contracts/satisfies-all/src/contract.rs:55-64 | each child's reply to `IsAuthorized` is decoded as a bare `bool`, with a failed decode read as `false`; every contract answers `{"authorized": b}` (packages/cw-authorizations/src/interface.rs:34-36) | an AllOf with one child that is a basic contract, any batch, any sender: the child answers `{"authorized": true}`, the decode fails, and the AllOf answers `false` | read the reply as an `IsAuthorizedResponse` and take `.authorized`, as satisfies-any does at contracts/satisfies-any/src/contract.rs:65-75 | not executed; high | `SatisfiesAll.BasicChildCounterexample` | `SatisfiesAll.IsAuthorized` |

The as-written decision is `SatisfiesAll.IsAuthorizedAsWritten`.
`SatisfiesAll.AsWrittenRejectsStandardReplies` generalises the counterexample
to every AllOf with at least one child. The `SatisfiesAll.Query` entry point
keeps the as-written decision. `SatisfiesAll.QueryCorrected` is the same entry
point with the corrected `SatisfiesAll.IsAuthorized`.

## Left out

- The bodies of `msg_to_value`, `str_to_value` and `deep_partial_match`: utils.rs is not part of this model. They are the fields of `MessageFilter.Codec`. Only the documented `{key: {}}` wildcard is assumed, and only by the lemmas that name it.
- Storage failures: a missing configuration, parent or admin item, and a failing key range. States exist only after instantiation, so these errors never arise. A rule list that fails to load is treated as absent, as the source's `is_err()` test does.
- Version bookkeeping (`set_contract_version`), the entry-point attributes, and message serialisation. The exceptions are the two query replies, `IsAuthorizedResponse` and the filter's `AuthorizationsResponse`, which are kept as JSON values.
- The failure of `wasm_execute` to serialise a child update: the model never fails there.
- Real remote queries and asynchronous sub-message execution. Queries are the `Querier` parameter. Sub-messages are only emitted. satisfies-all, message-filter, whitelist and basic have no `reply` entry point, and what the host does when a reply-on-error update sent by satisfies-all fails is not modelled.
- Error texts and the debug rendering of a successful sub-message result. `SubMsgOk` carries that rendering as an opaque string.
- The error returned when `AddAuthorization` gets a rule text that does not convert is modelled as `Std`. It is whatever the `?` conversion of the JSON helper's error yields, and that helper is not part of this model.
- The `unimplemented!()` default extension handlers panic in the source. The model returns `Std`. This affects basic's execute extension and the query extension of whitelist, basic, satisfies-any and satisfies-all.
- The `admin` item of satisfies-all's storage: it is never written or read.
- The message filter converts each message and rule twice (a check, then an unwrap). The model converts once, which gives the same result because conversion is a pure function.
- Gas limits (always none), funds (always none) and migrations.
