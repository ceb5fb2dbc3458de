# calvin-constrained, modelled in Dafny

calvin-constrained is a small Calvin runtime for constrained devices. It hosts
actors that fire on tokens arriving through port queues, and it talks to a
peer Calvin runtime over a framed message transport. This project models the
core of that runtime in Dafny and proves properties of the model:

- the token queues: the `cc_fifo.c` ring with its three counters and the
  sequence-numbered acknowledge variant, and the older `fifo.c` ring;
- the tokens and the shared string-keyed lists, uuids and JSON scanners
  (`cc_token.c`, `cc_common.c`, `common.c`);
- the MicroPython action engine (`actor.py`), with two actors written for it
  (`HTTPGet.py` and the `ReplicaIdentity.py` test actor);
- the C actors' `fire`, `init`, `set_state` and `get_attributes`;
- the scheduler and the actor, port, link and tunnel state machines of both
  API generations (`cc_actor.c`, `cc_port.c`, `cc_link.c`, `cc_tunnel.c`,
  `actor.c`, `port.c`, `link.c`);
- the node's pending-message tables (`cc_node.c`, `node.c`);
- message framing and reassembly (`cc_transport.c`, `transport.c`), the
  lwIP receive buffer and address conversion, and the Spritzer URI parser;
- the capability registry and three capabilities (timer, trigger flag,
  attribute lookup).

There is one Dafny module per modelled source file. Objects the C code
updates in place (fifos, ports, actors, lists, tables, capability objects)
are classes whose methods change their fields. Each method is proved against
a specification function over the object's contents. Pure helpers are
functions with lemmas. Message encoding, the network, clocks, `rand()` and the
hardware behind capabilities become method parameters: whether a send
succeeded, what a read returned, which allocations succeed.

The source holds two generations of the runtime. The newer API is the
`cc_`-prefixed files under `runtime/north`, with `calvinsys/`, `actors/`
and `libmpy/`. The older one is the files at the top level (`fifo.c`,
`common.c`, `node.c`, `link.c`, `port.c`, `actor.c`, `transport.c`) with
`actors/actor_identity.c`. Where a header disagrees with its `.c` file, the
model follows the `.c` file, with one exception: the results of the
`cc_list_*` functions are read by their declarations in `cc_common.h`, as
every call site uses them. Each such case is listed under "## Left out".

## Model

| member | source | states |
|---|---|---|
| CcToken.SetData | runtime/north/cc_token.c:23-27 | the slot holds exactly the given value and size afterwards, and every other slot is unchanged |
| CcToken.Free | runtime/north/cc_token.c:75-82 | a token that owns a buffer (value set, size non-zero) hands that buffer back and becomes empty; any other token is left as it is and nothing is released |
| CcToken.DecodeUint | runtime/north/cc_token.c:63-73 | decoding succeeds exactly when the value is tagged as an unsigned integer, and then yields that integer |
| CcToken.EncodeRoundTrip | runtime/north/cc_token.c:29-43 | the encoding is a two-entry map whose "type" entry comes first; reading its "data" entry back gives the token's value when the size is non-zero and nil when it is zero |
| CcFifo.AlignedSlotsDistinct | runtime/north/cc_fifo.c:145-194 | in a ring whose slot count divides 2^32, fewer than N consecutive positions fall on distinct slots, even across the counter wrap |
| CcFifo.UnalignedWrapCollision | runtime/north/cc_fifo.c:183-194 | in a ring of 5 slots, positions 2^32 - 1 and 0 share a slot, so a write at 0 overwrites an unread token |
| CcFifo.UnalignedSlotsCollide | runtime/north/cc_fifo.c:145-194 | in every ring whose size N divides neither 2^32 nor 2^32 + 1, two positions fewer than N - 1 apart, one before and one after the counter wraps, share a slot, so a write overwrites a token not yet read |
| CcFifo.CommitGuardAsWritten | runtime/north/cc_fifo.c:154-166 | the commit test as written: the committed counter is below the tentative one as plain 32-bit values, with no regard for wrap |
| CcFifo.CommitGuardMeansPeeked | runtime/north/cc_fifo.c:154-166 | the corrected commit test `readPos != tentativeReadPos` holds exactly when at least one token is peeked |
| CcFifo.CommitRefusedAcrossWrap | runtime/north/cc_fifo.c:154-166 | the test as written refuses the commit of a token peeked at position 2^32 - 1, although one is peeked |
| CcFifo.StaleCancelAcceptedAsWritten | runtime/north/cc_fifo.c:232-239 | the NACK test as written accepts a sequence number below the committed counter and rewinds the peek counter behind it |
| CcFifo.CancelRefusedAsWritten | runtime/north/cc_fifo.c:232-239 | the invalid-NACK test as written: the sequence number is at or above the tentative counter and below the committed one, as plain 32-bit values |
| CcFifo.CancelRefusedOnlyAcrossWrap | runtime/north/cc_fifo.c:232-239 | the test as written refuses a NACK only when the peek counter is numerically below the committed counter, that is after the peek counter alone has wrapped |
| CcFifo.CancelRefusedAfterWrap | runtime/north/cc_fifo.c:232-239 | with the committed counter at 2^32 - 1, two tokens peeked and a NACK for 5, the test as written refuses, as the corrected test does |
| CcFifo.CancelAcceptedMeaning | runtime/north/cc_fifo.c:232-239 | the corrected NACK test accepts exactly the positions from the committed counter up to the peek counter |
| CcFifo.Fifo.Contents | runtime/north/cc_fifo.c:173-181 | the uncommitted tokens, oldest first; there are fewer of them than the ring has slots |
| CcFifo.Fifo.constructor | runtime/north/cc_fifo.c:23-124 | a fresh ring of N slots with all three counters at 0 and no tokens |
| CcFifo.Fifo.TokensAvailableMeaning | runtime/north/cc_fifo.c:178-181 | `fifo_tokens_available(n)` holds exactly when at least n uncommitted tokens are not yet peeked |
| CcFifo.Fifo.SlotsAvailableMeaning | runtime/north/cc_fifo.c:173-176 | `fifo_slots_available(n)` holds exactly when n more tokens fit beside the uncommitted ones in the N - 1 usable slots |
| CcFifo.Fifo.Peek | runtime/north/cc_fifo.c:145-152 | returns the oldest token not yet peeked, advances only the peek counter by one, and keeps the contents |
| CcFifo.Fifo.Cancel | runtime/north/cc_fifo.c:140-143 | rewinds the peek counter to the committed counter; the contents are unchanged and nothing is peeked |
| CcFifo.Fifo.CancelCommit | runtime/north/cc_fifo.c:168-171 | the same rewind as `fifo_cancel` |
| CcFifo.Fifo.ClearSlot | runtime/north/cc_fifo.c:154-166 | the slot is emptied, and its buffer is released exactly when freeing was asked for and the token owns one |
| CcFifo.Fifo.Retire | runtime/north/cc_fifo.c:154-166 | drops the oldest uncommitted token, advances the committed counter by one, and releases the token's buffer only when asked to |
| CcFifo.Fifo.CommitRead | runtime/north/cc_fifo.c:154-166 | with a token peeked, the oldest token leaves the queue, is freed or detached, and the peeked count drops by one; with none peeked nothing changes |
| CcFifo.Fifo.CommitReadAsWritten | runtime/north/cc_fifo.c:154-166 | commits exactly when `readPos < tentativeReadPos` as plain numbers; otherwise nothing changes |
| CcFifo.Fifo.Write | runtime/north/cc_fifo.c:183-194 | succeeds exactly when a slot is free; then the token is appended at the write slot and only the write counter moves; otherwise nothing changes |
| CcFifo.Fifo.ComPeek | runtime/north/cc_fifo.c:196-200 | a peek that also returns the pre-peek peek counter as the sequence number |
| CcFifo.Fifo.ComWrite | runtime/north/cc_fifo.c:202-212 | refuses a sequence number below the write counter without writing; any other is accepted and written when a slot is free |
| CcFifo.Fifo.ComCommitRead | runtime/north/cc_fifo.c:214-230 | commits and frees the oldest token exactly when the number equals the committed counter and lies below the peek counter; otherwise nothing changes |
| CcFifo.Fifo.ComCancelRead | runtime/north/cc_fifo.c:232-239 | rewinds the peek counter to the number when it lies between the committed and the peek counter, else changes nothing; the contents stay |
| CcFifo.Fifo.ComCancelReadAsWritten | runtime/north/cc_fifo.c:232-239 | takes the number as the peek counter unless `tentativeReadPos <= seq < readPos`, a test met only once the peek counter has wrapped past 2^32 and the committed counter has not |
| CcFifo.PeekCancel | runtime/north/cc_fifo.c:140-152 | a peek followed by a cancel returns the oldest token and leaves all three counters and the contents as they were |
| CcCommon.UuidFormat | runtime/north/cc_common.c:23-39 | a generated id is the prefix, 8-4-4-4-12 groups of lower-case hex digits with dashes between them, and a NUL |
| CcCommon.GenUuid | runtime/north/cc_common.c:23-39 | the buffer's first prefix-plus-37 characters become the uuid text made from the given `rand()` values; the rest of the buffer is untouched; the older common.c:23-39 does the same |
| CcCommon.UuidIsHigherAsWritten | runtime/north/cc_common.c:41-57 | returns the comparison exactly as written, index by index from the end |
| CcCommon.HigherAsWritten | runtime/north/cc_common.c:41-57 | `cc_uuid_is_higher` as written: a longer id is higher; of equal lengths, id1 is higher when at ANY index up to and including the terminator it has the greater character, since the scan from the end returns at the first such index it meets |
| CcCommon.HigherAsWrittenNotAntisymmetric | runtime/north/cc_common.c:41-57 | as written, "ab" is higher than "ba" and "ba" is higher than "ab"; the older common.c:41-57 does the same |
| CcCommon.HigherAsymmetric | runtime/north/cc_common.c:41-57 | with the corrected comparison, at most one of two ids is higher than the other |
| CcCommon.HigherTotal | runtime/north/cc_common.c:41-57 | with the corrected comparison, of two different ids one is higher than the other |
| CcCommon.UuidIsHigher | runtime/north/cc_common.c:41-57 | the corrected comparison: a longer id is higher; of two of equal length, the first differing index from the start decides; the older common.c:41-57 has the same end-first scan as runtime/north/cc_common.c, with the same defect |
| CcCommon.FirstPrefixOf | runtime/north/cc_common.c:119-133 | the first node whose id is a prefix of the key; no earlier node has that property, and None means no node has it |
| CcCommon.FirstStartingWith | runtime/north/cc_common.c:148-159 | the first node whose id agrees with the query on its first n characters; None means no node does |
| CcCommon.StrNEqIsPrefix | runtime/north/cc_common.c:161-172 | `strncmp(id, key, strlen(id)) == 0` holds exactly when the id is a prefix of the key |
| CcCommon.LookupAppended | runtime/north/cc_common.c:59-110 | a node appended under a key that no earlier id is a prefix of is what a later lookup of that key finds |
| CcCommon.LookupAppendedOther | runtime/north/cc_common.c:59-110 | appending a node whose id is not a prefix of a key leaves that key's lookup unchanged |
| CcCommon.RemoveAppended | runtime/north/cc_common.c:119-133 | removing the key of a node just appended, with no earlier node matching, gives back the original list |
| CcCommon.CcList.constructor | runtime/north/cc_common.c:59-85 | the empty list |
| CcCommon.CcList.AddN | runtime/north/cc_common.c:87-105 | appends one node at the tail, whose id is the first `len` characters of the id and which owns that copy; the older common.c:59-77 copies the id the same way but its `list_add` records no ownership of the copy |
| CcCommon.CcList.Add | runtime/north/cc_common.c:107-110 | appends one node at the tail with the caller's id, not owned by the list; the older common.c:79-103 does the same |
| CcCommon.CcList.Remove | runtime/north/cc_common.c:119-133 | unlinks exactly the first node whose id is a prefix of the key, keeping the others in order; without one the list is unchanged; the older common.c:105-119 does the same |
| CcCommon.CcList.Count | runtime/north/cc_common.c:135-146 | the number of nodes; the older common.c:121-132 does the same |
| CcCommon.CcList.GetN | runtime/north/cc_common.c:148-159 | the data of the first node agreeing with the query on n characters, or None when there is none; the older common.c:134-145 does the same |
| CcCommon.CcList.Get | runtime/north/cc_common.c:161-172 | the data of the first node whose id is a prefix of the key, or None when there is none; the older common.c:147-158 does the same |
| CcCommon.CcList.GetNode | runtime/north/cc_common.c:161-172 | the whole first node whose id is a prefix of the key, as the actors use the result |
| CcCommon.FindKey | runtime/north/cc_common.c:174-206 | the first position where the key occurs in the text, or None when it never does |
| CcCommon.JsonStringValue | runtime/north/cc_common.c:174-206 | the text between the next two '"' after the key and the character that follows it; None when the key is missing or fewer than two '"' follow |
| CcCommon.ScanQuoted | runtime/north/cc_common.c:174-206 | the quote scan stops at the quoted text `QuotedValue` names, or reports that there is none |
| CcCommon.JsonString | runtime/north/cc_common.c:174-206 | the quoted value after the key's first occurrence, as start and length inside the text |
| CcCommon.QuotedValueAt | runtime/north/cc_common.c:174-206 | the two quotes the scan finds delimit the value `QuotedValue` names |
| CcCommon.NoQuotedValue | runtime/north/cc_common.c:174-206 | with at most one '"' left there is no quoted value |
| CcCommon.JsonDictValue | runtime/north/cc_common.c:208-251 | with the brace counter started at the first '{' after the key: the balanced group that brace opens; None when the key is missing, no '{' follows, or the group never closes |
| CcCommon.ScanDict | runtime/north/cc_common.c:208-251 | the brace-counting scan returns the group `DictValue` names, or None exactly when there is none |
| CcCommon.JsonDict | runtime/north/cc_common.c:208-251 | the balanced brace group after the key's first occurrence, as start and length |
| CcCommon.DictValueAt | runtime/north/cc_common.c:208-251 | a group that starts at the first '{' after the position and ends where its braces first balance is the one `DictValue` names |
| CcCommon.NoDictValue | runtime/north/cc_common.c:208-251 | when the scan finds no group, `DictValue` names none |
| CcCommon.DictScanAsWritten | runtime/north/cc_common.c:225-245 | the scan of `cc_get_json_dict_value` as written: a `size_t` brace counter that every '}' decrements modulo 2^64, also before the first '{'; the value ends where the counter returns to 0 after the first '{' |
| CcCommon.JsonDictValueAsWritten | runtime/north/cc_common.c:208-251 | returns what the scan as written returns, the counter counting from the key on |
| CcCommon.DictUnderflowAsWritten | runtime/north/cc_common.c:208-251 | with key `"k"` in `[{"k":1},{}]` the scan as written returns "{" alone, where the brace group after the key is `{}` |
| ManagedAttributes.GetStr | runtime/north/cc_common.c:161-172 | the string stored under the key, or None when the key is missing or its value is not a string |
| ManagedAttributes.EntryFound | runtime/north/cc_common.c:87-172 | an entry appended where no earlier id is a prefix of its key is what its key finds |
| ManagedAttributes.EntryFoundOther | runtime/north/cc_common.c:87-172 | an entry whose key is not a prefix of another key leaves that key's lookup unchanged |
| ManagedAttributes.FoundAfter | runtime/north/cc_common.c:161-172 | when no earlier entry matches, the first later entry whose id is a prefix of the key is the one found |
| ManagedAttributes.SameLengthNotShadowed | runtime/north/cc_common.c:161-172 | an entry whose id has the same length as a key but differs from it does not shadow the key: an entry appended under the key after it is the one `cc_list_get` finds |
| ActorPy.NotReadyTouchesNothing | libmpy/modules/calvin/actor/actor.py:55-62 | an action whose inputs lack a token or whose outputs lack a slot does not fire, reports whether the outputs had room, and leaves every queue and the state as they were |
| ActorPy.FalseGuardTouchesNothing | libmpy/modules/calvin/actor/actor.py:104-110 | a false `@stateguard` returns `(False, True, ())` and leaves the configuration unchanged, so the body never runs |
| ActorPy.PeekAllOthers | libmpy/modules/calvin/actor/actor.py:66-69 | peeking the action's inputs leaves every port it does not name untouched |
| ActorPy.PeekAllArgs | libmpy/modules/calvin/actor/actor.py:66-69 | with every input ready and named once, the arguments are the next unpeeked token of each input in `action_input` order, and each of those ports has one more token peeked |
| ActorPy.CancelAllOthers | libmpy/modules/calvin/actor/actor.py:84-87 | cancelling leaves the ports not named untouched |
| ActorPy.CancelAllNamed | libmpy/modules/calvin/actor/actor.py:84-87 | every named input port has its peeks cancelled and every other port is untouched |
| ActorPy.InvalidProductionRestoresInputs | libmpy/modules/calvin/actor/actor.py:72-87 | a production whose length differs from the number of outputs raises, writes no output, and leaves every input queue as it was before the action |
| ActorPy.CommitAllOthers | libmpy/modules/calvin/actor/actor.py:78-80 | committing leaves the ports not named untouched |
| ActorPy.CommitAllNamed | libmpy/modules/calvin/actor/actor.py:78-80 | with distinct names, each named input is committed once and every other port is untouched |
| ActorPy.WriteAllOthers | libmpy/modules/calvin/actor/actor.py:88-90 | writing the production leaves the ports not named untouched |
| ActorPy.WriteAllAppends | libmpy/modules/calvin/actor/actor.py:88-90 | writing pairwise to distinct ports with room appends each produced value to its own port |
| ActorPy.ValidProductionCommitsAndWrites | libmpy/modules/calvin/actor/actor.py:72-92 | a valid production returns `(True, True, inputs)`, every input port loses exactly its oldest token, and each produced value is appended to its output port; a None result counts as the empty production |
| ActorPy.NoFireNoChange | libmpy/modules/calvin/actor/actor.py:54-110 | an action that neither fires nor raises leaves the configuration as it was |
| ActorPy.PassPriority | libmpy/modules/calvin/actor/actor.py:190-206 | a pass fires the first action in priority order that fires in the configuration the pass started from, every earlier one having declined; a pass that fires nothing changes nothing |
| ActorPy.FireLoopDidFire | libmpy/modules/calvin/actor/actor.py:190-206 | once the loop stops, its result is the accumulated flag or'ed with whether the first pass fired |
| ActorPy.FireReturnsOr | libmpy/modules/calvin/actor/actor.py:190-206 | `fire` returns the OR of all `did_fire` values: true exactly when the first pass fired; and it stops only after a pass that fires nothing |
| ActorPy.FireLoopStopsQuiet | libmpy/modules/calvin/actor/actor.py:190-206 | the loop ends only in a configuration where a whole pass fires nothing |
| ActorPy.FireWithoutActionsRaises | libmpy/modules/calvin/actor/actor.py:190-206 | an actor with no actions raises when fired, since `did_fire` is read before any assignment |
| ActorPy.ManageWrapper.Call | libmpy/modules/calvin/actor/actor.py:28-39 | the attributes present before `init` are excluded; without an include list the managed set becomes what `init` added minus the exclusions; with one it stays the include list |
| ActorPy.Manage | libmpy/modules/calvin/actor/actor.py:21-27 | refuses (None) exactly when an argument is given that is not a list; otherwise returns a wrapper holding the two lists as sets |
| ActorPy.ManagedState | libmpy/modules/calvin/actor/actor.py:208-214 | defined exactly when every managed key is an attribute; then it maps exactly the managed keys to their values |
| ActorPy.PyActor.PeekInputs | libmpy/modules/calvin/actor/actor.py:66-69 | the arguments and the new in-ports are those of peeking the named ports in order |
| ActorPy.PyActor.CommitInputs | libmpy/modules/calvin/actor/actor.py:78-80 | the in-ports become those after committing each named port |
| ActorPy.PyActor.CancelInputs | libmpy/modules/calvin/actor/actor.py:84-86 | the in-ports become those after cancelling each named port |
| ActorPy.PyActor.WriteOutputs | libmpy/modules/calvin/actor/actor.py:88-90 | the out-ports become those after writing the values pairwise |
| ActorPy.PyActor.Condition | libmpy/modules/calvin/actor/actor.py:54-92 | the outcome and the new configuration are those the `@condition` specification gives for the old configuration |
| ActorPy.PyActor.Act | libmpy/modules/calvin/actor/actor.py:104-110 | the outcome and the new configuration are those of the guard followed by the condition |
| ActorPy.PyActor.Pass | libmpy/modules/calvin/actor/actor.py:195-204 | one pass over the priority list ends as the pass specification says, the actor holding its configuration |
| ActorPy.PyActor.Fire | libmpy/modules/calvin/actor/actor.py:190-206 | the result and the new configuration are those of the fire specification with the given pass budget |
| HttpGet.Init | libmpy/modules/actors/net/HTTPGet.py:35-37 | no response is stored after `init` |
| HttpGet.ManagedAfterInit | libmpy/modules/actors/net/HTTPGet.py:33-37 | `@manage()` with no lists manages exactly the two attributes `init` adds |
| HttpGet.ReplyGuardsExclusive | libmpy/modules/actors/net/HTTPGet.py:49-61 | the two reply guards are never both true, and one of them holds whenever a response is stored |
| HttpGet.NewRequestGuardFirst | libmpy/modules/actors/net/HTTPGet.py:39-42 | when the command object cannot be written, `new_request` consumes nothing even if every input has a token |
| HttpGet.NewRequestFires | libmpy/modules/actors/net/HTTPGet.py:39-42 | with a writable command object and a token on each of the four inputs, `new_request` fires, exhausting the four inputs, and leaves the out-ports alone |
| HttpGet.NewRequestConsumes | libmpy/modules/actors/net/HTTPGet.py:39-42 | a firing of `new_request` consumes exactly the oldest token of each of its four inputs |
| HttpGet.NewRequestSends | libmpy/modules/actors/net/HTTPGet.py:39-42 | the request written to the command object holds the four oldest tokens under "url", "params", "headers" and "auth" |
| HttpGet.HandleReplyStores | libmpy/modules/actors/net/HTTPGet.py:44-47 | `handle_reply` fires exactly when the command object has a reply, stores it as the response and touches no port |
| HttpGet.ReplyWithBodyEmits | libmpy/modules/actors/net/HTTPGet.py:49-54 | with a stored response that has a body and room on the outputs, emits status, headers and body, one per port, and clears the response |
| HttpGet.ReplyWithoutBodyEmits | libmpy/modules/actors/net/HTTPGet.py:56-61 | with a stored response without a body, emits status and headers, leaves the data port alone and clears the response |
| HttpGet.NewRequestFirst | libmpy/modules/actors/net/HTTPGet.py:63 | when a pass fires an action other than `new_request`, `new_request` could not fire in that configuration |
| ReplicaIdentityPy.Init | test/actors/mpy-cross/test/ReplicaIdentity.py:28-30 | `index` starts at 0 and `dump` is the argument |
| ReplicaIdentityPy.ManagedAfterInit | test/actors/mpy-cross/test/ReplicaIdentity.py:27-30 | `@manage(['dump', 'index'])` manages exactly those two attributes, whatever `init` adds |
| ReplicaIdentityPy.DidReplicate | test/actors/mpy-cross/test/ReplicaIdentity.py:42-43 | overwrites `index` and leaves the other attribute alone |
| ReplicaIdentityPy.PrependFires | test/actors/mpy-cross/test/ReplicaIdentity.py:35-40 | one firing consumes the oldest input token and appends "index:input" to the output |
| ReplicaIdentityPy.OnePass | test/actors/mpy-cross/test/ReplicaIdentity.py:35-40 | one pass over an actor with input waiting and room on the output fires `prepend` |
| ReplicaIdentityPy.LoopFires | libmpy/modules/calvin/actor/actor.py:190-206 | a pass that fires moves one token and the loop goes on to the next pass |
| ReplicaIdentityPy.LoopEnds | libmpy/modules/calvin/actor/actor.py:190-206 | with no input left the next pass fires nothing and the loop ends |
| ReplicaIdentityPy.FireDrains | test/actors/mpy-cross/test/ReplicaIdentity.py:35-40 | one `fire` with room for every input drains the input, emitting each input prefixed with the index in order, and reports a firing exactly when there was input |
| ReplicaIdentityPy.TestStrings | test/actors/mpy-cross/test/ReplicaIdentity.py:47-52 | the inputs 1, 2, 3 prefixed with index 0 read "0:1", "0:2", "0:3" |
| ReplicaIdentityPy.TestSet | test/actors/mpy-cross/test/ReplicaIdentity.py:47-52 | the actor's own test vector: inputs 1, 2, 3 give "0:1", "0:2", "0:3" in one `fire`, which reports that it fired |
| StdIdentity.AttributesRoundTrip | actors/std/cc_actor_identity.c:28-131 | restoring from the entries `get_attributes` appends, with no earlier entry matching "dump", gives back the saved flag |
| StdIdentity.Identity.constructor | actors/std/cc_actor_identity.c:133-142 | a new actor on the given queues with no instance state |
| StdIdentity.Identity.Init | actors/std/cc_actor_identity.c:28-52 | succeeds exactly when "dump" is present and holds a bool, and then stores that bool; otherwise the state is unchanged |
| StdIdentity.Identity.SetState | actors/std/cc_actor_identity.c:54-57 | behaves exactly like `init` |
| StdIdentity.Identity.Fire | actors/std/cc_actor_identity.c:59-80 | without an input token or an output slot returns false and touches no queue; otherwise the next input token is appended unchanged to the output, the oldest input token is committed without being freed, and the result is true |
| StdIdentity.Identity.GetAttributes | actors/std/cc_actor_identity.c:88-131 | fails without a state; otherwise appends "dump" with the flag and "last" with nil |
| CcIdentity.GetAttributes | actors/cc_actor_identity.c:89-122 | appends "dump" with the flag and "last" with nil |
| CcIdentity.Register | actors/cc_actor_identity.c:124-144 | appends the type "std.Identity" with the identity's functions to the actor-type list |
| CcIdentity.RegisteredTypeFound | actors/cc_actor_identity.c:124-144 | after registering, a lookup of "std.Identity" finds the identity type when no earlier type name is a prefix of it |
| ReplicaIdentityC.DefaultState | actors/test/cc_actor_replica_identity.c:30-57 | with neither entry present the state is `dump` false and `index` 0 |
| ReplicaIdentityC.AttributesRoundTrip | actors/test/cc_actor_replica_identity.c:123-166 | restoring from the entries `get_attributes` appends gives back the saved state |
| ReplicaIdentityC.LabelFields | actors/test/cc_actor_replica_identity.c:69-115 | the label has exactly one ':', with the decimal index before it and the decimal number after it |
| ReplicaIdentityC.LabelFits | actors/test/cc_actor_replica_identity.c:69-115 | both the intended and the as-written label fit the 30-character buffer with the terminator |
| ReplicaIdentityC.LabelAsWritten | actors/test/cc_actor_replica_identity.c:91 | the label as `%d:%d` prints it: both unsigned 32-bit values read as signed, in decimal, joined by ':' |
| ReplicaIdentityC.LabelAsWrittenAgrees | actors/test/cc_actor_replica_identity.c:69-115 | below 2^31 the `%d` conversion prints the same text as the unsigned one |
| ReplicaIdentityC.LabelAsWrittenNegative | actors/test/cc_actor_replica_identity.c:69-115 | the number 2^32 - 1 is printed "0:-1" as written, while the corrected label has no minus sign |
| ReplicaIdentityC.ReplicaIdentity.Init | actors/test/cc_actor_replica_identity.c:30-57 | always succeeds; `dump` and `index` take their entries when present and well-typed, and default to false and 0 otherwise |
| ReplicaIdentityC.ReplicaIdentity.DidReplicate | actors/test/cc_actor_replica_identity.c:64-67 | overwrites the index and nothing else |
| ReplicaIdentityC.ReplicaIdentity.Fire | actors/test/cc_actor_replica_identity.c:69-115 | nothing changes without an input token and an output slot; a next input that is not an unsigned integer is peeked and put back, the peek counter rewound to the committed one, and the result is false; otherwise the label "index:number" is appended to the output and the oldest input token is committed; the label is the corrected unsigned `ReplicaIdentityC.Label` (see Findings), where the source prints the number with `%d` |
| ReplicaIdentityC.ReplicaIdentity.GetAttributes | actors/test/cc_actor_replica_identity.c:123-166 | fails without a state; otherwise appends "dump" and "index" |
| Light.LightActor.Init | actors/io/cc_actor_light.c:26-49 | installs a cleared state, then the light object's id; a NULL object leaves the cleared state and fails |
| Light.LightActor.SetState | actors/io/cc_actor_light.c:51-80 | without a "light" entry fails and changes nothing; otherwise a cleared state is installed first, so an entry that is not a string fails and leaves it cleared |
| Light.LightActor.Fire | actors/io/cc_actor_light.c:82-100 | without an input token nothing happens; otherwise the next token is written to the light object; a refused write puts the token back, the peek counter rewound to the committed one so the token is readable again, and returns false; an accepted one commits and frees the oldest token and returns true |
| Light.LightActor.GetAttributes | actors/io/cc_actor_light.c:102-125 | appends the light object's id as a string under "light" |
| Light.LightActor.GetRequires | actors/io/cc_actor_light.c:127-135 | the actor requires exactly "io.light" |
| TriggeredTemperature.TemperatureActor.Init | actors/cc_actor_triggered_temperature.c:32-54 | the state is installed only when the temperature object opens, and the result says whether it did |
| TriggeredTemperature.TemperatureActor.SetState | actors/cc_actor_triggered_temperature.c:56-87 | installs the "temperature" entry when it is a string; otherwise fails and leaves the state alone |
| TriggeredTemperature.TemperatureActor.Fire | actors/cc_actor_triggered_temperature.c:89-120 | needs a readable object, a trigger token and an output slot, and does nothing otherwise; a failed read ends it before any peek; with a reading the trigger is consumed and freed and the reading appended to the output |
| TriggeredTemperature.TemperatureActor.GetAttributes | actors/cc_actor_triggered_temperature.c:128-148 | appends the object id as a string under "temperature" |
| TriggeredTemperature.TemperatureActor.GetRequires | actors/cc_actor_triggered_temperature.c:150-158 | the actor requires exactly "io.temperature" |
| RegistryAttribute.RegistryActor.Init | actors/context/cc_actor_registry_attribute.c:29-61 | without an "attribute" entry fails before opening anything; the state holds the object id only when the open and the write of the value both succeed |
| RegistryAttribute.RegistryActor.SetState | actors/context/cc_actor_registry_attribute.c:63-92 | installs the "registry" entry when it is a string; otherwise fails and leaves the state alone |
| RegistryAttribute.RegistryActor.Fire | actors/context/cc_actor_registry_attribute.c:94-130 | without a state reports no firing; otherwise needs a readable object, a trigger and an output slot; with a reading the trigger is consumed and the value appended to the output |
| RegistryAttribute.RegistryActor.FireAsWritten | actors/context/cc_actor_registry_attribute.c:94-130 | as written, without a state it returns `CC_FAIL` as a bool, so a firing is reported although nothing moved |
| RegistryAttribute.RegistryActor.GetAttributes | actors/context/cc_actor_registry_attribute.c:132-159 | fails without a state; otherwise appends the object id as a string under "registry" |
| RegistryAttribute.RegistryActor.GetRequires | actors/context/cc_actor_registry_attribute.c:167-175 | the actor requires exactly "sys.attribute.indexed" |
| RegistryAttribute.StatelessFiringReported | actors/context/cc_actor_registry_attribute.c:94-130 | the stateless firing is reported as a firing as written and as none as intended |
| CountTimer.Counts | actors/std/cc_actor_counttimer.c:221-322 | the run of count tokens from a start has exactly the given length |
| CountTimer.CountsConcat | actors/std/cc_actor_counttimer.c:221-322 | two consecutive runs of counts make one run |
| CountTimer.CountsDecode | actors/std/cc_actor_counttimer.c:221-322 | the i-th token of a run decodes to the start plus i: counts come out in order, none skipped or repeated |
| CountTimer.Buffer | actors/std/cc_actor_counttimer.c:39-133 | a buffer is found exactly when the key is present, and it holds the entry's value |
| CountTimer.SavedKeysApart | actors/std/cc_actor_counttimer.c:378-429 | no saved key is a prefix of another |
| CountTimer.SavedIds | actors/std/cc_actor_counttimer.c:378-429 | the saved entries carry "timer", "sleep", "start", "steps", "count" in that order |
| CountTimer.SavedKeyFound | actors/std/cc_actor_counttimer.c:135-219 | each saved key finds its own saved entry when no earlier entry matches it |
| CountTimer.AttributesRoundTrip | actors/std/cc_actor_counttimer.c:135-219 | restoring from the saved entries gives back the saved state, except that the restored actor is not stopped |
| CountTimer.LoadResultAsWritten | actors/std/cc_actor_counttimer.c:119-128 | what `init` and `set_state` report as written: an undecodable count returns `false`, which is `CC_SUCCESS`; every other outcome reports success only when all was loaded |
| CountTimer.UndecodableCountAccepted | actors/std/cc_actor_counttimer.c:39-133 | an undecodable count should fail the load, but as written `return false` reports success |
| CountTimer.StepReportedAsWritten | actors/std/cc_actor_counttimer.c:251-261 | what the firing reports as written: a failed reopen returns `CC_FAIL`, which read as a bool is true; every other outcome reports whether a token was written |
| CountTimer.FailedReopenReported | actors/std/cc_actor_counttimer.c:221-284 | a failed reopen writes nothing, but as written it is reported as a firing |
| CountTimer.CountTimerActor.GetBuffer | actors/std/cc_actor_counttimer.c:39-133 | the copy of the buffer under the key, as `Buffer` gives it |
| CountTimer.CountTimerActor.Load | actors/std/cc_actor_counttimer.c:39-133 | installs a zeroed state, copies "sleep", "start" and "steps", opens a one-shot timer with the sleep period, then decodes "count"; each missing piece stops it with the matching outcome |
| CountTimer.CountTimerActor.Init | actors/std/cc_actor_counttimer.c:39-133 | succeeds exactly when every entry is present, the timer opens and the count decodes |
| CountTimer.CountTimerActor.InitAsWritten | actors/std/cc_actor_counttimer.c:39-133 | as written, a count that is not an unsigned integer is reported as success, with the count left at zero |
| CountTimer.CountTimerActor.Reload | actors/std/cc_actor_counttimer.c:135-219 | like `Load`, but the timer id is restored from the "timer" string instead of opening a timer |
| CountTimer.CountTimerActor.SetState | actors/std/cc_actor_counttimer.c:135-219 | succeeds exactly when `Restored` finds a state in the entries, and installs it |
| CountTimer.CountTimerActor.SetStateAsWritten | actors/std/cc_actor_counttimer.c:135-219 | as written, an undecodable count is reported as success, with the count left at zero |
| CountTimer.CountTimerActor.NoPeriodic | actors/std/cc_actor_counttimer.c:221-284 | due while the count is below both `start + 3` and `steps` and the timer is readable; at `start + 2` the one-shot timer is replaced by a repeating one; then the count is written and advanced unless the out-port is full |
| CountTimer.CountTimerActor.StepPeriodic | actors/std/cc_actor_counttimer.c:286-322 | due while the count is below `steps` and the timer is readable; then the count is written and advanced, unless the out-port is full |
| CountTimer.CountTimerActor.Stop | actors/std/cc_actor_counttimer.c:324-345 | once the count equals `steps` the timer is closed and the actor stopped; a stopped actor is never stopped again |
| CountTimer.CountTimerActor.Fire | actors/std/cc_actor_counttimer.c:347-361 | the out-port receives exactly the counts passed, in order and at most two, the count never passes `steps`, and the result says whether a token was written or the actor stopped |
| CountTimer.CountTimerActor.FireAsWritten | actors/std/cc_actor_counttimer.c:347-361 | as written, a failed reopen of the timer is reported as a firing although nothing was written |
| CountTimer.CountTimerActor.GetAttributes | actors/std/cc_actor_counttimer.c:378-429 | appends the timer id, the three buffers and the encoded count, and the state's pointers to the buffers are cleared |
| CountTimer.CountTimerActor.GetRequires | actors/std/cc_actor_counttimer.c:431-444 | the actor requires both timer capabilities |
| LegacyIdentity.Init | actors/actor_identity.c:23-60 | `dump` comes from "_shadow_args" when present (and must then be added to the managed list), otherwise from the state; it fails when the entry is missing or not a bool, or an allocation fails |
| LegacyIdentity.ShadowArgsTakePrecedence | actors/actor_identity.c:23-60 | with shadow arguments present, the state's own "dump" plays no part |
| LegacyIdentity.Movable | actors/actor_identity.c:62-82 | the number of tokens `fire` moves is at most what the in-port has and what the out-port has room for, and equals one of them |
| LegacyIdentity.Fire | actors/actor_identity.c:62-82 | an in-port without a queue gives SUCCESS and moves nothing; otherwise the tokens move as `MoveAll` states |
| LegacyIdentity.MoveAll | actors/actor_identity.c:68-79 | the first k in-port tokens move in order to the out-port, k being what the out-port had room for; the moved tokens are not freed; the out-port frees exactly the stale tokens of the k slots it overwrites, in write order; SUCCESS exactly when every token moved |
| LegacyIdentity.MoveOne | actors/actor_identity.c:62-82 | one round: with room the oldest in-port token moves to the out-port and is committed without freeing, the out-port freeing only the stale token of the slot written and changing no other slot; without room it is rolled back and nothing changes |
| CcLink.Link.constructor | runtime/north/cc_link.c:25-53 | a link to the peer with no references |
| CcLink.FirstPeer | runtime/north/cc_link.c:106-119 | the first link whose peer id agrees with the query on n characters; no earlier link does, and None means none does |
| CcLink.Unlisted | runtime/north/cc_link.c:96-104 | removal by a key never adds a link: what is left is drawn from the original links and is no longer |
| CcLink.UnlistedOwn | runtime/north/cc_link.c:96-104 | removing by a link's own peer id takes out exactly that link when no earlier peer id is a prefix of it |
| CcLink.LinkTable.Get | runtime/north/cc_link.c:106-119 | the first link whose peer id starts with the first n characters of the query, or None exactly when there is none |
| CcLink.LinkTable.Create | runtime/north/cc_link.c:25-53 | a peer that already has a link gets it back and nothing changes; otherwise a new unreferenced link with the peer id's first n characters is appended, and a later lookup finds it |
| CcLink.LinkTable.RemoveRef | runtime/north/cc_link.c:96-104 | the count drops by one, wrapping as a `uint8_t`; a link reaching zero is unlisted by its peer id |
| CcLink.AddRef | runtime/north/cc_link.c:88-94 | one more reference, wrapping past 255; NULL is ignored |
| CcLink.FieldValue | runtime/north/cc_link.c:66-79 | a value found under the key is the data of an entry carrying that key |
| CcLink.SerializeRoundTrip | runtime/north/cc_link.c:55-79 | reading a serialized link gives back its peer id and proxy flag |
| CcLink.Deserialize | runtime/north/cc_link.c:66-79 | with both entries decoded the link is created from them as `link_create` would; a map missing either fails and changes nothing |
| CcLink.CreatedFound | runtime/north/cc_link.c:25-119 | a link created for a peer with no link is what a later lookup of that peer finds |
| CcTunnel.GeneratedId | runtime/north/cc_tunnel.c:91-145 | a generated tunnel id is 43 characters long and starts with "TUNNEL_" |
| CcTunnel.FirstOfPeer | runtime/north/cc_tunnel.c:31-44 | the first tunnel of the kind whose link's peer id agrees with the peer on n characters; None means there is none |
| CcTunnel.FirstWithIdMeaning | runtime/north/cc_tunnel.c:26-29 | the tunnel found is the first whose id matches, and None means no id matches |
| CcTunnel.UnlistedTunnel | runtime/north/cc_tunnel.c:180-186 | removal by a key never adds a tunnel: what is left is drawn from the original tunnels and is no longer |
| CcTunnel.AdoptedAsWritten | runtime/north/cc_tunnel.c:207-231 | the id a tunnel end keeps as written: it copies the peer's id when `cc_uuid_is_higher` as written, reading both terminators, ranks the peer's id higher, and keeps its own otherwise |
| CcTunnel.AdoptedAgrees | runtime/north/cc_tunnel.c:207-231 | with the corrected comparison, two ends holding different ids that each receive the other's TUNNEL_NEW request settle on the same id |
| CcTunnel.AdoptedAsWrittenDisagrees | runtime/north/cc_tunnel.c:207-231 | with the comparison as written, ends holding "ab" and "ba" swap ids and still disagree |
| CcTunnel.TunnelTable.GetFromId | runtime/north/cc_tunnel.c:26-29 | the first tunnel whose id starts with the first n characters of the id, or None exactly when there is none |
| CcTunnel.TunnelTable.GetFromPeerIdAndType | runtime/north/cc_tunnel.c:31-44 | the first tunnel of that kind whose link leads to the peer, or None exactly when there is none |
| CcTunnel.TunnelTable.Create | runtime/north/cc_tunnel.c:91-145 | an existing tunnel of that kind to that peer is returned unchanged; otherwise the peer's link is found or created, a new unreferenced tunnel with the given or a generated id is appended, and a tunnel not created ENABLED is PENDING when its request was sent |
| CcTunnel.TunnelTable.Free | runtime/north/cc_tunnel.c:180-186 | the tunnel is unlisted by its own id and its link loses a reference, being unlisted in turn at zero |
| CcTunnel.TunnelTable.RemoveRef | runtime/north/cc_tunnel.c:194-205 | NULL is ignored; otherwise the count drops by one, and a tunnel reaching zero is destroyed and freed |
| CcTunnel.TunnelTable.HandleTunnelNewRequest | runtime/north/cc_tunnel.c:207-231 | an ENABLED token tunnel to the peer is kept; one in another state takes the proposed id when it is the higher and becomes ENABLED; without one an ENABLED tunnel with the proposed id is created; the result is success; "higher" is the corrected comparison `CcCommon.UuidIsHigher` (see Findings), not the source's end-first scan |
| CcTunnel.AddTunnelRef | runtime/north/cc_tunnel.c:188-192 | one more reference, wrapping past 255; NULL is ignored |
| CcTunnel.RequestReply | runtime/north/cc_tunnel.c:51-89 | without a tunnel or with an unparsable reply fails and changes nothing; otherwise the tunnel takes the replied id, and status 200 makes it ENABLED, any other DISCONNECTED and a failure |
| CcTunnel.CreatedFoundByPeer | runtime/north/cc_tunnel.c:31-145 | a tunnel appended for a peer with none of that kind is what the lookup by peer and kind then finds |
| CcActor.Actor.SetState | runtime/north/cc_actor.c:182-188 | the actor takes the state and nothing else changes |
| CcActor.Actor.ConnectPorts | runtime/north/cc_actor.c:481-508 | every in-port and then every out-port not ENABLED is connected, in order; the actor ends ENABLED exactly when there was none and PENDING otherwise |
| CcActor.Actor.PortStateChanged | runtime/north/cc_actor.c:779-815 | the actor takes the state `StateFromPorts` dictates for the in-ports followed by the out-ports |
| CcActor.Actor.PortDisconnected | runtime/north/cc_actor.c:817-820 | the actor becomes PENDING |
| CcActor.Actor.Disconnect | runtime/north/cc_actor.c:822-839 | every in-port, then every out-port, is disconnected once, and the actor becomes PENDING |
| CcActor.Actor.Migrate | runtime/north/cc_actor.c:841-861 | the hook runs first when set, then every port is disconnected releasing its tunnel, then ACTOR_NEW is sent; the result is that of the send |
| CcActor.Actor.GetAttributes | runtime/north/cc_actor.c:360-443 | the result, the actor's id and name, and the list are those `Extract` gives |
| CcActor.PortStatesConcat | runtime/north/cc_actor.c:779-815 | the states of two port lists one after the other are the states of their concatenation |
| CcActor.StateFromPortsEnabled | runtime/north/cc_actor.c:779-815 | the actor is ENABLED exactly when every port is ENABLED |
| CcActor.StateFromPortsDoDelete | runtime/north/cc_actor.c:779-815 | the actor is DO_DELETE exactly when some port is DO_DELETE and every port before it is ENABLED |
| CcActor.StateFromFirst | runtime/north/cc_actor.c:779-815 | the first port decides unless it is ENABLED |
| CcActor.StateFromConcat | runtime/north/cc_actor.c:779-815 | scanning the in-ports then the out-ports decides as scanning them as one list |
| CcActor.NotEnabledNone | runtime/north/cc_actor.c:481-508 | connecting leaves the actor ENABLED exactly when a port-state change would make it ENABLED |
| CcActor.DisconnectAll | runtime/north/cc_actor.c:822-839 | every port of the list is disconnected in order, exactly once |
| CcActor.MigrateOrder | runtime/north/cc_actor.c:841-861 | a migration disconnects every port exactly once, each releasing its tunnel, after the hook and before the send |
| CcActor.IdNameExclusive | runtime/north/cc_actor.c:360-443 | no key is both the "_id" key and the "_name" key |
| CcActor.ExtractKeeps | runtime/north/cc_actor.c:360-443 | a successful extraction keeps the list it was given and appends only keepable entries: never "_shadow_args", and with private-only set only keys starting with '_' |
| CcActor.ExtractFailureFrees | runtime/north/cc_actor.c:360-443 | a failed extraction frees the list unless some key did not decode; it never returns PENDING |
| CcActor.ExtractByDefinition | runtime/north/cc_actor.c:360-443 | the extraction read by the definition of `cc_list_add_n` (runtime/north/cc_common.c:87-105) instead of its declaration: the first entry that is not skipped fails it and frees the list |
| CcActor.ExtractByDefinitionRejects | runtime/north/cc_actor.c:360-443 | read by the definition, a managed map with one ordinary entry fails to load and frees the list, where the declaration's reading, which `Extract` follows, keeps the entry |
| CcActor.CreateFromType | runtime/north/cc_actor.c:290-345 | a type registered under the first `typeLen` characters gives a PENDING actor with that type's functions; otherwise with Python support a module that loads gives a PENDING actor and a missing one a PENDING_IMPL actor once its request is sent; otherwise none |
| CcActor.FindType | runtime/north/cc_actor.c:290-345 | the functions of the first type agreeing with the name on `typeLen` characters, or None exactly when there is none |
| CcActor.IsOwnMaster | runtime/north/cc_actor.c:571-578 | an actor is refused exactly when its replication master's id equals its own |
| CcPort.TunnelWithId | runtime/north/cc_tunnel.c:26-29 | the tunnel found has an id agreeing with the query on n characters, and None means none has |
| CcPort.FirstPortWithIdMeaning | runtime/north/cc_port.c:295-316 | the port found is the first whose id matches, and None means no port of the list matches |
| CcPort.ListsOf | runtime/north/cc_port.c:295-316 | each actor contributes its in-port list and then its out-port list |
| CcPort.FindInScan | runtime/north/cc_port.c:295-316 | the lookup finds nothing exactly when no port of any actor has a matching id; what it finds has a matching id and belongs to one of the actors |
| CcPort.FindPortScan | runtime/north/cc_port.c:295-316 | `port_get` finds a port of one of the node's actors, and none only when no actor has a port with a matching id |
| CcPort.FirstNamed | runtime/north/cc_port.c:349-367 | the first port of the direction whose name starts with the given name; None means there is none |
| CcPort.GetFromName | runtime/north/cc_port.c:349-367 | searching the in-ports or the out-ports as the direction says, the first port of that direction whose name starts with the given name |
| CcPort.MoveToken | runtime/north/cc_port.c:510-524 | over a tunnel the token is peeked and rewound if not sent; to a local peer it is written and then committed without freeing, or cancelled when the peer is full; with neither it is rewound |
| CcPort.Node.PortGet | runtime/north/cc_port.c:295-316 | the port `FindIn` names, or None exactly when no port of any actor matches |
| CcPort.Node.DropTunnel | runtime/north/cc_port.c:488-500 | the port's tunnel, if any, loses a reference and the port forgets it |
| CcPort.Node.AttachById | runtime/north/cc_port.c:369-400 | the port takes the tunnel with the id, which gains a reference, or none when there is no such tunnel |
| CcPort.Node.Rebind | runtime/north/cc_port.c:369-400 | the port's old tunnel loses a reference and the port takes the tunnel with the given id, which gains one |
| CcPort.Node.SwitchTunnel | runtime/north/cc_port.c:369-400 | a port not already on a tunnel with the id is rebound to the tunnel with that id |
| CcPort.Node.Enable | runtime/north/cc_port.c:88-92 | the port is ENABLED and its actor's state is re-derived from its ports |
| CcPort.Node.AcceptConnect | runtime/north/cc_port.c:369-400 | the found port is bound to the named tunnel and becomes ENABLED, and its actor's state is re-derived |
| CcPort.Node.HandleConnect | runtime/north/cc_port.c:369-400 | no such port fails with no change; otherwise the port is bound to the named tunnel and ENABLED |
| CcPort.Node.AcceptDisconnect | runtime/north/cc_port.c:402-424 | the found port is disconnected and its actor told |
| CcPort.Node.HandleDisconnect | runtime/north/cc_port.c:402-424 | no such port fails with no change; otherwise the port is disconnected and its actor becomes PENDING |
| CcPort.Node.Disconnect | runtime/north/cc_port.c:488-500 | the tunnel loses the port's reference, the port forgets its local peer, is DISCONNECTED, and its peeks are cancelled with its tokens kept |
| CcPort.Node.KeepOrDrop | runtime/north/cc_port.c:426-444 | no tunnel: unchanged; a PENDING tunnel is kept; an ENABLED one is kept when the port connect went out, the port then being PENDING; any other drops its tunnel and is DISCONNECTED |
| CcPort.Node.ConnectLocal | runtime/north/cc_port.c:446-470 | the peer drops its tunnel and the two ports point at each other, both ENABLED and without a tunnel |
| CcPort.Node.AttachTunnel | runtime/north/cc_port.c:470-486 | the port takes the token tunnel to the peer runtime, or a new one; without one and with the request unsent it fails with no tunnel and its state unchanged; otherwise the tunnel gains a reference and the port is PENDING |
| CcPort.Node.SetupConnection | runtime/north/cc_port.c:426-486 | the port ends in the state the three branches give: kept tunnel, local peer, or remote tunnel, as whether the sends went out decides |
| CcPort.Node.Transmit | runtime/north/cc_port.c:502-530 | an ENABLED out-port of an ENABLED actor with a token waiting moves it; any other ENABLED port does nothing; a port not ENABLED sets up its connection |
| CcScheduler.Entries | runtime/north/scheduler/np_scheduler/cc_scheduler.c:22-61 | one entry per listed actor, in order, recording what the round reads of it |
| CcScheduler.WithoutActor | runtime/north/scheduler/np_scheduler/cc_scheduler.c:31-40 | removal by a key never adds an actor |
| CcScheduler.Freed | runtime/north/scheduler/np_scheduler/cc_scheduler.c:31-40 | the list after freeing several actors never gains one |
| CcScheduler.FreedSnoc | runtime/north/scheduler/np_scheduler/cc_scheduler.c:31-40 | freeing one more actor unlists it from what the earlier frees left |
| CcScheduler.FireActors | runtime/north/scheduler/np_scheduler/cc_scheduler.c:22-61 | the result, the actors fired, the ports transmitted and the actors freed are those of the round specification over the actors as listed at the start |
| CcScheduler.RoundStep | runtime/north/scheduler/np_scheduler/cc_scheduler.c:22-61 | visiting the next actor moves its work from the rounds to come into the round done so far |
| CcScheduler.JoinAssociates | runtime/north/scheduler/np_scheduler/cc_scheduler.c:22-61 | joining partial rounds is associative |
| CcScheduler.FiredMeaning | runtime/north/scheduler/np_scheduler/cc_scheduler.c:22-61 | a round reports firing exactly when some ENABLED actor's `fire` reported it: the OR of the results |
| CcScheduler.EnabledMeaning | runtime/north/scheduler/np_scheduler/cc_scheduler.c:22-61 | an actor is fired exactly when it is listed ENABLED |
| CcScheduler.CalledMeaning | runtime/north/scheduler/np_scheduler/cc_scheduler.c:22-61 | the actors fired are the ENABLED ones, each once per listing, in list order |
| CcScheduler.Alive | runtime/north/scheduler/np_scheduler/cc_scheduler.c:22-61 | the actors kept are those not marked DO_DELETE, in order |
| CcScheduler.TransmittedMeaning | runtime/north/scheduler/np_scheduler/cc_scheduler.c:22-61 | the ports transmitted are those of the actors not marked DO_DELETE, fired or not: each actor's in-ports, then its out-ports, in list order |
| CcScheduler.DeletedMeaning | runtime/north/scheduler/np_scheduler/cc_scheduler.c:22-61 | the actors freed are those marked DO_DELETE, in list order |
| CcScheduler.FreedKeepsFront | runtime/north/scheduler/np_scheduler/cc_scheduler.c:31-40 | freeing after an actor whose id is no prefix of a freed one keeps that actor in front |
| CcScheduler.FirstApart | runtime/north/scheduler/np_scheduler/cc_scheduler.c:31-40 | with ids apart, the first actor's id is a prefix of no later id |
| CcScheduler.DeletedListed | runtime/north/scheduler/np_scheduler/cc_scheduler.c:22-61 | the actors a round frees are among the listed actors |
| CcScheduler.RoundLeavesAlive | runtime/north/scheduler/np_scheduler/cc_scheduler.c:22-61 | with actor ids apart, the list a round leaves is exactly the actors not marked DO_DELETE, in order |
| CcNode.FirstFree | runtime/north/cc_node.c:271-286 | the first slot not in use; None means every slot is in use |
| CcNode.FirstMatch | runtime/north/cc_node.c:288-321 | the first slot in use whose id agrees with the query on n characters; None means there is none |
| CcNode.InUseUpdate | runtime/north/cc_node.c:271-304 | setting one slot changes the count of slots in use by exactly that slot's change |
| CcNode.AddedCount | runtime/north/cc_node.c:271-286 | adding fails exactly when every slot is in use, and otherwise takes exactly one more slot |
| CcNode.FullMeansNoneFree | runtime/north/cc_node.c:323-333 | every slot is in use exactly when the count in use equals the table size |
| CcNode.RemovedCount | runtime/north/cc_node.c:288-304 | removing takes exactly one slot out of use |
| CcNode.AddedFound | runtime/north/cc_node.c:271-321 | a request added under an id no pending request has is what a lookup of that id finds |
| CcNode.FirstMatchAt | runtime/north/cc_node.c:288-321 | the first matching slot in use is found |
| CcNode.AddedThenRemoved | runtime/north/cc_node.c:271-304 | removing a request just added under a fresh id restores every slot's use |
| CcNode.FirstFreeAt | runtime/north/cc_node.c:271-286 | the first free slot is found |
| CcNode.PendingTable.constructor | runtime/north/cc_node.c:244-247 | a table of 10 slots, none in use |
| CcNode.PendingTable.Add | runtime/north/cc_node.c:271-286 | the first free slot takes the id, handler and data, and nothing else changes; with none free it fails and nothing changes |
| CcNode.PendingTable.Remove | runtime/north/cc_node.c:288-304 | the first slot in use with a matching id is freed; with none it fails and nothing changes |
| CcNode.PendingTable.Get | runtime/north/cc_node.c:306-321 | a copy of the first slot in use with a matching id, or a failure when there is none; the table is unchanged |
| CcNode.PendingTable.CanAdd | runtime/north/cc_node.c:323-333 | true exactly when some slot is free |
| CcNode.PendingTable.Reset | runtime/north/cc_node.c:244-247 | every slot's handler and data are cleared, so none is in use |
| CcNode.HandleToken | runtime/north/cc_node.c:396-417 | the token is appended only when the actor is ENABLED, the queue has a slot, the copy could be allocated and the sequence number is at least the write counter; otherwise the result is a failure and the queue is unchanged |
| CcNode.HandleTokenReply | runtime/north/cc_node.c:419-431 | an ACK commits the token with that number, a NACK rewinds the peeks to it, and an ABORT or an unknown port changes nothing; the NACK test is the corrected `CcFifo.CancelAccepted` (see Findings), so a stale NACK, such as committed counter 5, peek counter 5 and number 3, is refused where the source rewinds the peek counter to 3 |
| CcTransport.LengthPrefix | runtime/north/cc_transport.c:119-125 | the prefix is always four bytes long |
| CcTransport.LengthPrefixRoundTrip | runtime/north/cc_transport.c:32-40 | reading back the prefix written for a size gives that size modulo 2^32, so every size below 2^32 comes back unchanged; the older transport.c:167-173 does the same |
| CcTransport.MessageLenRoundTrip | runtime/north/cc_transport.c:32-40 | any four bytes are exactly the prefix written for the length they encode; the older transport.c:38-46 does the same |
| CcTransport.Send | runtime/north/cc_transport.c:127-142 | the first four bytes become the prefix of the `size - 4` bytes after them, the payload is untouched, and the send succeeds exactly when every byte was reported sent |
| CcTransport.SentLengthRead | runtime/north/cc_transport.c:127-142 | a receiver reads from the prefix `Send` writes the length of the payload that follows it |
| CcTransport.Take | runtime/north/cc_transport.c:42-48 | a receive returns a prefix of what arrived and never more than it was asked for |
| CcTransport.Receive | runtime/north/cc_transport.c:58-117 | whatever arrives, a message left in the receive buffer still lacks bytes |
| CcTransport.Fill | runtime/north/cc_transport.c:68-91 | a receive into a reassembly buffer completes the message at its announced size, extending what was there, or leaves it open and strictly longer |
| CcTransport.FrameStep | runtime/north/cc_transport.c:92-113 | cutting one message out leaves strictly fewer bytes, and a message kept for reassembly still lacks bytes |
| CcTransport.Frames | runtime/north/cc_transport.c:92-113 | a message left for reassembly after cutting still lacks bytes |
| CcTransport.Upto | runtime/north/cc_transport.c:108-112 | the handler is given at most all the messages, and at least one when there is one |
| CcTransport.FramedStart | runtime/north/cc_transport.c:32-40 | a framed message's first four bytes read back as its length |
| CcTransport.FramesInOrder | runtime/north/cc_transport.c:92-113 | several whole messages in one receive reach the handler in order up to and including the first it rejects; the call fails exactly when one is rejected, and nothing stays buffered |
| CcTransport.WholeMessages | runtime/north/cc_transport.c:58-117 | with no message being reassembled, a receive of whole messages delivers them in order |
| CcTransport.ReassemblyCompletes | runtime/north/cc_transport.c:68-91 | receives that bring exactly the missing bytes hand the whole message to the handler, return its verdict and release the buffer |
| CcTransport.ReassemblyWaits | runtime/north/cc_transport.c:68-91 | receives bringing fewer bytes than missing, then an empty one, keep the bytes buffered and fail without calling the handler |
| CcTransport.SplitStart | runtime/north/cc_transport.c:97-107 | a first receive with a prefix and only part of the message starts its reassembly, when memory allows |
| CcTransport.SplitMessage | runtime/north/cc_transport.c:58-117 | a message split over several receives reaches the handler whole, once, with the handler's verdict as result |
| CcTransport.SplitMessageNoMemory | runtime/north/cc_transport.c:97-107 | without memory for the reassembly buffer a split message fails and nothing is handed over |
| CcTransport.ResumedMessageAsWritten | runtime/north/cc_transport.c:58-117 | as written, a message finished in a later call than the one that read its prefix is handed over empty, where the whole message is meant |
| CcTransport.TransportClient.HandleData | runtime/north/cc_transport.c:58-117 | the messages handed over, the result and the receive buffer left behind are those `Received` defines, so the reassembly lemmas hold of it |
| CcTransport.ReceivedAsWritten | runtime/north/cc_transport.c:58-117 | `transport_handle_data` as written: the same receive as the intended one, except that a message completed in a later call than the one that read its length is handed over with size 0 |
| CcTransport.CutFrames | runtime/north/cc_transport.c:92-113 | the loop hands over what `Frames` defines and either ends the call with its result or leaves an open message to reassemble |
| CcTransport.PrependAssoc | runtime/north/cc_transport.c:92-113 | handing over one batch and then another is handing over both in order |
| CcTransport.StrNEqIsPrefix | runtime/north/cc_transport.c:164-183 | comparing the first `|p|` characters with `strncmp` is a prefix test |
| CcTransport.Create | runtime/north/cc_transport.c:164-183 | a socket transport exactly for "calvinip://" or "ssdp" URIs when built in; lwip exactly for "lwip" URIs that did not get a socket; FCM only for "calvinfcm://" URIs that got neither |
| CcTransportLwip.HexRunLength | runtime/south/transport/lwip/cc_transport_lwip.c:31-48 | the run counted is all hexadecimal digits and stops at the first character that is not one |
| CcTransportLwip.HexDigit | runtime/south/transport/lwip/cc_transport_lwip.c:31-48 | the digit written is hexadecimal and reads back as the value it was written from |
| CcTransportLwip.Hex2 | runtime/south/transport/lwip/cc_transport_lwip.c:31-48 | `%02lx` of a byte is two characters |
| CcTransportLwip.LinkLocal | runtime/south/transport/lwip/cc_transport_lwip.c:31-48 | the address written is 25 characters long |
| CcTransportLwip.MacText | runtime/south/transport/lwip/cc_transport_lwip.c:31-48 | a MAC written as six pairs and five colons is 17 characters |
| CcTransportLwip.InterfaceId | runtime/south/transport/lwip/cc_transport_lwip.c:31-48 | a Modified EUI-64 interface identifier is eight bytes |
| CcTransportLwip.HexPairValue | runtime/south/transport/lwip/cc_transport_lwip.c:31-48 | two hexadecimal digits not followed by a third read back as the byte they were written from |
| CcTransportLwip.ColumnOfMacText | runtime/south/transport/lwip/cc_transport_lwip.c:31-48 | each column of a written MAC reads back as its byte |
| CcTransportLwip.LinkLocalIsModifiedEui64 | runtime/south/transport/lwip/cc_transport_lwip.c:31-48 | the address derived from any MAC is fe80:: followed by that MAC's Modified EUI-64 interface identifier (appendix A of RFC 4291) |
| CcTransportLwip.FlipLocalTwice | runtime/south/transport/lwip/cc_transport_lwip.c:31-48 | flipping the universal/local bit twice restores the byte |
| CcTransportLwip.LwipClient.HasData | runtime/south/transport/lwip/cc_transport_lwip.c:254-259 | true exactly when bytes are buffered |
| CcTransportLwip.LwipClient.DataHandler | runtime/south/transport/lwip/cc_transport_lwip.c:107-128 | delivered bytes are appended exactly when there is no error and they fit the rest of the buffer; otherwise the buffer is unchanged |
| CcTransportLwip.LwipClient.Recv | runtime/south/transport/lwip/cc_transport_lwip.c:136-153 | a caller's buffer smaller than what is buffered gives -1 and keeps the data; otherwise all the data is handed over, its length returned and the buffer emptied |
| CcTransportLwip.DeliveriesConcatenate | runtime/south/transport/lwip/cc_transport_lwip.c:107-128 | two deliveries that fit together are both accepted, and the buffer then holds them in order |
| CcTransportLwip.Chunks | runtime/south/transport/lwip/cc_transport_lwip.c:82-105 | there are no more chunks than writes available |
| CcTransportLwip.ChunksCover | runtime/south/transport/lwip/cc_transport_lwip.c:82-105 | with room at every write and enough writes, the chunks add up to the whole message |
| CcTransportLwip.Send | runtime/south/transport/lwip/cc_transport_lwip.c:82-105 | the result is `size` exactly when every chunk write is accepted, and then the chunks cover the message; otherwise it is -1 after a non-empty prefix of the chunks, the last of them refused |
| CcTransportLwip.WriteRounds | runtime/south/transport/lwip/cc_transport_lwip.c:88-102 | the loop writes the chunks `Chunks` defines until the first refused one |
| CcTransportLwip.ChunksStep | runtime/south/transport/lwip/cc_transport_lwip.c:88-102 | each round writes the smaller of the room and the bytes left, and the chunks still to write start with it |
| CcTransportSpritzer.LastColon | runtime/south/transport/spritzer/cc_transport_spritzer.c:25-51 | the position found holds ':' and no ':' lies between it and the end of the scan; none means no ':' from index 12 on |
| CcTransportSpritzer.Digits | runtime/south/transport/spritzer/cc_transport_spritzer.c:25-51 | the leading run of decimal digits, ending at the first non-digit |
| CcTransportSpritzer.ParseUri | runtime/south/transport/spritzer/cc_transport_spritzer.c:25-51 | the scanning loop gives the host and port `ParsedUri` defines, the port as the unbounded value `strtol` reads |
| CcTransportSpritzer.StrtolDecimal | runtime/south/transport/spritzer/cc_transport_spritzer.c:25-51 | a port number written in decimal and followed by no digit reads back as itself |
| CcTransportSpritzer.DigitsOfDecimal | runtime/south/transport/spritzer/cc_transport_spritzer.c:25-51 | the digit run of digits followed by a non-digit is those digits |
| CcTransportSpritzer.ParsedUriRoundTrip | runtime/south/transport/spritzer/cc_transport_spritzer.c:25-51 | a URI built from any non-empty host and a port parses back into exactly them, whatever ':'s the host holds |
| CcTransportSpritzer.LastColonAt | runtime/south/transport/spritzer/cc_transport_spritzer.c:25-51 | the last ':' before the end of the scan is the one found |
| CcTransportSpritzer.EmptyHostFails | runtime/south/transport/spritzer/cc_transport_spritzer.c:25-51 | a URI with an empty host does not parse |
| CcTransportSpritzer.Create | runtime/south/transport/spritzer/cc_transport_spritzer.c:110-155 | a client exists exactly when the allocations succeed and the URI parses; it holds the parsed host and port, a prefix of the URI, and an empty receive state |
| CcCalvinsys.OwnedMembers | calvinsys/cc_calvinsys.c:248-262 | an object counts as an actor's exactly when it is in the table and that actor owns it |
| CcCalvinsys.Calvinsys.constructor | calvinsys/cc_calvinsys.c:24-42 | a new calvinsys has no capabilities and no objects |
| CcCalvinsys.Calvinsys.CreateCapability | calvinsys/cc_calvinsys.c:75-104 | a name already registered is refused with nothing changed; otherwise the capability is appended |
| CcCalvinsys.Calvinsys.DeleteCapability | calvinsys/cc_calvinsys.c:106-119 | the capability the name finds is unlinked and no other |
| CcCalvinsys.Calvinsys.Open | calvinsys/cc_calvinsys.c:121-170 | an unknown capability or one without `open` gives NULL and adds nothing; a failing `open` leaves the table as it was; a successful one adds one object owned by the actor, named by the returned id |
| CcCalvinsys.Calvinsys.CanRead | calvinsys/cc_calvinsys.c:202-215 | false for an unknown id or an object without the callback, otherwise the callback's answer |
| CcCalvinsys.Calvinsys.CanWrite | calvinsys/cc_calvinsys.c:172-185 | false for an unknown id or an object without the callback, otherwise the callback's answer |
| CcCalvinsys.Calvinsys.Read | calvinsys/cc_calvinsys.c:217-230 | fails for an unknown id or an object without the callback, otherwise gives what the callback reads |
| CcCalvinsys.Calvinsys.Write | calvinsys/cc_calvinsys.c:187-200 | fails for an unknown id or an object without the callback, otherwise reports the callback's result |
| CcCalvinsys.Calvinsys.Close | calvinsys/cc_calvinsys.c:232-246 | the object the id names is removed; an unknown id changes nothing |
| CcCalvinsys.Calvinsys.NumberOfAttributes | calvinsys/cc_calvinsys.c:248-262 | the count is the number of objects the actor owns |
| CcCalvinsys.Calvinsys.AttributeEntries | calvinsys/cc_calvinsys.c:264-326 | one entry per object the actor owns, in table order, each its id with its capability's name |
| CcCalvinsys.OwnedSplit | calvinsys/cc_calvinsys.c:121-170 | adding an object adds it to its owner's objects only |
| CcCalvinsys.FailedOpenRestores | calvinsys/cc_calvinsys.c:160-165 | removing an object just added under a fresh id gives the table back |
| CcCalvinsys.OpenedFound | calvinsys/cc_calvinsys.c:121-170 | after adding an object under a fresh id, looking the id up finds exactly that object |
| CcCalvinsys.CloseAfterOpen | calvinsys/cc_calvinsys.c:232-246 | closing an object just opened under a fresh id restores the table, and the id then names nothing |
| CcCalvinsysTimer.Elapsed | calvinsys/common/cc_calvinsys_timer.c:23-32 | the elapsed seconds are below 2^32 and the last trigger plus them is now, on the 32-bit clock |
| CcCalvinsysTimer.Remaining | calvinsys/common/cc_calvinsys_timer.c:150-182 | the seconds left never exceed the timeout |
| CcCalvinsysTimer.WrappedRemaining | calvinsys/common/cc_calvinsys_timer.c:164-174 | the unsigned subtraction is the timeout minus the elapsed seconds modulo 2^32 |
| CcCalvinsysTimer.DueIffNothingRemains | calvinsys/common/cc_calvinsys_timer.c:23-32 | an active timer is due exactly when no seconds remain |
| CcCalvinsysTimer.DueAfterRemaining | calvinsys/common/cc_calvinsys_timer.c:23-32 | an active timer becomes due after exactly the remaining seconds, while the clock does not lap its last trigger |
| CcCalvinsysTimer.ArmedDue | calvinsys/common/cc_calvinsys_timer.c:49-81 | a timer armed with timeout n is due k seconds later exactly when k is at least n |
| CcCalvinsysTimer.WrappedRemainingAgrees | calvinsys/common/cc_calvinsys_timer.c:150-182 | the wrapped subtraction agrees with the seconds left up to the deadline and exceeds every timeout after it |
| CcCalvinsysTimer.OverdueTimerWraps | calvinsys/common/cc_calvinsys_timer.c:164-174 | a timer of 5 seconds triggered at 0 is due at 7, yet the wrapped subtraction asks for 4294967294 seconds where 0 is meant |
| CcCalvinsysTimer.Timer.Open | calvinsys/common/cc_calvinsys_timer.c:91-128 | a new timer takes the decoded timeout, 0 when it is missing; it is active exactly when that timeout is positive, and only then takes the decoded last trigger time, 0 otherwise |
| CcCalvinsysTimer.Timer.CanRead | calvinsys/common/cc_calvinsys_timer.c:23-32 | true exactly when the timer is active and its timeout has elapsed |
| CcCalvinsysTimer.Timer.Read | calvinsys/common/cc_calvinsys_timer.c:34-42 | succeeds, disarms the timer and clears its trigger time, keeping the timeout |
| CcCalvinsysTimer.Timer.CanWrite | calvinsys/common/cc_calvinsys_timer.c:44-47 | always true |
| CcCalvinsysTimer.Timer.Write | calvinsys/common/cc_calvinsys_timer.c:49-81 | an unsigned value arms the timer with that timeout from now; true re-arms it from now; false disarms it; anything else fails with nothing changed |
| CcCalvinsysTimer.NextTimeout | calvinsys/common/cc_calvinsys_timer.c:150-182 | fails without the capability or an active timer; otherwise the timeout is the least number of seconds any active timer still has to wait, and some active timer waits exactly that long |
| CcCalvinsysTimer.NextTimeoutWakesInTime | calvinsys/common/cc_calvinsys_timer.c:150-182 | no timer is due before the chosen timeout ends, and one is due when it does |
| CcCalvinsysTimer.Create | calvinsys/common/cc_calvinsys_timer.c:130-148 | "sys.timer.once" is registered unless a capability of that name already is, in which case it fails with nothing changed |
| CcCalvinsysSchedule.Schedule.Open | calvinsys/common/cc_calvinsys_schedule.c:60-80 | a new schedule starts triggered |
| CcCalvinsysSchedule.Schedule.CanRead | calvinsys/common/cc_calvinsys_schedule.c:22-27 | true exactly when triggered |
| CcCalvinsysSchedule.Schedule.CanWrite | calvinsys/common/cc_calvinsys_schedule.c:38-43 | true exactly when not triggered |
| CcCalvinsysSchedule.Schedule.Read | calvinsys/common/cc_calvinsys_schedule.c:29-36 | succeeds and clears the flag |
| CcCalvinsysSchedule.Schedule.Write | calvinsys/common/cc_calvinsys_schedule.c:45-52 | succeeds and sets the flag |
| CcCalvinsysSchedule.Alternates | calvinsys/common/cc_calvinsys_schedule.c:22-52 | for a client that asks `can_read` and `can_write` and makes the allowed call: exactly one of the two is allowed, the flag flips, and afterwards the other one is allowed |
| CcCalvinsysSchedule.Create | calvinsys/common/cc_calvinsys_schedule.c:82-94 | "sys.schedule" is registered unless a capability of that name already is, in which case it fails with nothing changed |
| CcCalvinsysAttribute.FirstDot | calvinsys/common/cc_calvinsys_attribute.c:87-98 | the position found holds the first '.' at or after the start; none means there is no '.' there |
| CcCalvinsysAttribute.SplitPath | calvinsys/common/cc_calvinsys_attribute.c:87-103 | there is no split exactly when the path has no '.'; otherwise the path is category, '.', item, with no '.' in the category |
| CcCalvinsysAttribute.Slice | calvinsys/common/cc_calvinsys_attribute.c:105-136 | a scanner's (start, length) names text of that length |
| CcCalvinsysAttribute.IndexedValueQuoted | calvinsys/common/cc_calvinsys_attribute.c:105-136 | the value found is text between two '"' of the node's attributes, with no '"' inside |
| CcCalvinsysAttribute.NestedQuoted | calvinsys/common/cc_calvinsys_attribute.c:105-136 | a quoted string inside a slice of a slice of the attributes is a quoted string of the attributes themselves |
| CcCalvinsysAttribute.QuotedSlice | calvinsys/common/cc_calvinsys_attribute.c:127-136 | a string between two '"' with none inside is that text with its quotes |
| CcCalvinsysAttribute.SliceOfSlice | calvinsys/common/cc_calvinsys_attribute.c:105-136 | a piece of a slice is the corresponding piece of the whole |
| CcCalvinsysAttribute.SplitPathParts | calvinsys/common/cc_calvinsys_attribute.c:87-103 | a category without '.' joined to any item by '.' splits back into exactly them |
| CcCalvinsysAttribute.AttributeObj.Open | calvinsys/common/cc_calvinsys_attribute.c:157-183 | a new attribute object keeps no string |
| CcCalvinsysAttribute.AttributeObj.CanRead | calvinsys/common/cc_calvinsys_attribute.c:28-36 | true exactly when a non-empty string is kept |
| CcCalvinsysAttribute.AttributeObj.Read | calvinsys/common/cc_calvinsys_attribute.c:38-61 | succeeds exactly when a non-empty string is kept and the buffer is allocated, and then gives that string encoded as a string value |
| CcCalvinsysAttribute.AttributeObj.CanWrite | calvinsys/common/cc_calvinsys_attribute.c:63-66 | always true |
| CcCalvinsysAttribute.AttributeObj.Write | calvinsys/common/cc_calvinsys_attribute.c:68-142 | succeeds exactly when the value is a string naming a path the node's indexed attributes hold, and then keeps that attribute's value; otherwise nothing is kept; the value is found with the corrected `CcCommon.JsonDictValue` (see Findings), whose brace counter starts at the first '{' after the key |
| CcCalvinsysAttribute.Split | calvinsys/common/cc_calvinsys_attribute.c:87-103 | the scanning loop splits the path as `SplitPath` does |
| CcCalvinsysAttribute.FirstDotAt | calvinsys/common/cc_calvinsys_attribute.c:87-98 | the first '.' after the start is the one found |
| CcCalvinsysAttribute.Create | calvinsys/common/cc_calvinsys_attribute.c:185-203 | "sys.attribute.indexed" is registered unless a capability of that name already is, in which case it fails with nothing changed |
| CcActorMpy.SlashDots | libmpy/cc_actor_mpy.c:274-309 | every '.' becomes '/', every other character stays, and the length is kept |
| CcActorMpy.PathFromType | libmpy/cc_actor_mpy.c:274-309 | the buffer length covers directory, type, extension and NUL; NULL exactly when allocation fails; otherwise the path is the base with '.' turned to '/' followed by the extension |
| CcActorMpy.PathFits | libmpy/cc_actor_mpy.c:274-309 | the path and its NUL fit in the buffer exactly when the type has at least `typeLen` characters |
| CcActorMpy.PathExample | libmpy/cc_actor_mpy.c:274-309 | "std.Identity" with ".mpy" gives "mpys/actors/std/Identity.mpy" |
| CcActorMpy.LastDot | libmpy/cc_actor_mpy.c:343-352 | the position found holds the last '.' before the end of the scan; none means there is no '.' there |
| CcActorMpy.ClassName | libmpy/cc_actor_mpy.c:343-352 | the class is a '.'-free tail of the type |
| CcActorMpy.FindClassName | libmpy/cc_actor_mpy.c:343-359 | the loop with its uint8_t counters gives what `ClassNameAsWritten` defines |
| CcActorMpy.ClassNameIsLastComponent | libmpy/cc_actor_mpy.c:343-352 | the class is the type's last dotted component, or the whole type when it has no '.' |
| CcActorMpy.LastDotAt | libmpy/cc_actor_mpy.c:343-352 | the last '.' before the end of the scan is the one found |
| CcActorMpy.ClassNameAsWritten | libmpy/cc_actor_mpy.c:320-352 | the class name as the scan finds it: the scan starts at the length of "actors." plus the type taken modulo 256 and takes what follows the last '.' before that point, or fails when there is none |
| CcActorMpy.ClassNameAsWrittenShort | libmpy/cc_actor_mpy.c:343-352 | below 256 characters the uint8_t scan finds the intended class |
| CcActorMpy.ClassNameAsWrittenLong | libmpy/cc_actor_mpy.c:343-359 | a 249-character type without '.' makes "actors." plus the type 256 long, so the scan finds no class where the intended one exists |
| LegacyFifo.Window | fifo.c:133-190 | the window of uncommitted slots has exactly `count` entries |
| LegacyFifo.ShiftDistinct | fifo.c:173-176 | fewer than N steps forward from any position land on a different slot of a ring of N |
| LegacyFifo.WindowAppend | fifo.c:178-190 | storing in the slot right after the window extends the window by exactly that entry |
| LegacyFifo.WindowDropFirst | fifo.c:149-171 | emptying the first slot of the window and stepping past it drops exactly the window's first entry |
| LegacyFifo.CanWriteMeaning | fifo.c:173-176 | without counter wrap, a ring of N slots accepts a write exactly while fewer than N - 1 tokens are uncommitted |
| LegacyFifo.Fifo.Contents | fifo.c:133-190 | the queue holds write position minus read position entries |
| LegacyFifo.Fifo.CanRead | fifo.c:133-136 | true exactly when the tentative and write counters differ, which, while the counters have not wrapped, is exactly when some uncommitted token has not been read |
| LegacyFifo.Fifo.Read | fifo.c:138-147 | hands out the slot at the tentative position, which is the next unread token, and advances only that counter |
| LegacyFifo.Fifo.CommitRead | fifo.c:149-171 | a commit of a present token drops the oldest entry and frees it only when asked, a commit of an empty slot changes nothing, and a rollback steps the tentative counter back by one |
| LegacyFifo.Fifo.Retire | fifo.c:153-162 | the oldest entry leaves the queue, freed when asked and otherwise handed over, and the read counter advances |
| LegacyFifo.Fifo.StepBack | fifo.c:166-167 | the tentative counter steps back by one modulo 2^32, un-reading one token |
| LegacyFifo.Fifo.CanWrite | fifo.c:173-176 | the answer is the ring's full-test on the write and read counters |
| LegacyFifo.Fifo.Write | fifo.c:178-190 | succeeds exactly when the ring is not full, and then appends the token, freeing any token left in its slot; on failure nothing changes |
| LegacyFifo.ReadRollback | fifo.c:138-171 | a read rolled back at once hands out the next unread token and leaves counters and slots as they were |
| LegacyFifo.DecodeCounters | fifo.c:46-83 | counters decode only from a "fanout_fifo" queue with a first reader |
| LegacyFifo.OtherQueueTypeRefused | fifo.c:46-50 | a queue type other than "fanout_fifo" is refused |
| LegacyFifo.WrappedWindowLost | fifo.c:84-101 | as written, a ring of 4 with tokens at positions 3 and 4 loads neither, where both are meant to be loaded |
| LegacyFifo.OversizedRingOverflows | fifo.c:84-101 | as written, a ring of 8 with 7 tokens stores into slots beyond the fixed array of MAX_TOKENS |
| LegacyFifo.Loaded | fifo.c:84-101 | the loaded slot array always has MAX_TOKENS slots |
| LegacyFifo.LoadedAsWritten | fifo.c:84-101 | the slots `create_fifo` loads as written: from the read position's slot up to, not including, the write position's slot, with no wrap around the ring |
| LegacyFifo.WindowSlot | fifo.c:84-101 | position `from + k` of a ring of N lands in the window's k-th slot |
| LegacyFifo.WindowSlotUnique | fifo.c:84-101 | only that slot is the window's k-th |
| LegacyFifo.LoadedStep | fifo.c:84-101 | loading one more position stores exactly its slot and leaves the others alone |
| LegacyFifo.LoadRestoresWindow | fifo.c:84-101 | reading back the window after loading it gives the serialized window, across the end of the ring too |
| LegacyFifo.CreateFifo | fifo.c:23-116 | a queue exists exactly on success; then the counters are the decoded ones and the uncommitted window holds the serialized tokens; undecodable counters give none |
| LegacyFifo.LoadWindow | fifo.c:84-101 | on success the slots are exactly the loaded window `Loaded` defines |
| LegacyTransport.Then | transport.c:72-119 | prefixing events keeps the client and adds their number |
| LegacyTransport.ThenThen | transport.c:72-119 | prefixing events twice is prefixing both in order |
| LegacyTransport.Lits | transport.c:52-53 | a literal format piece per character of the text |
| LegacyTransport.SkipSpace | transport.c:52-53 | a tail of the text that starts with no white space |
| LegacyTransport.NoQuoteRun | transport.c:52-53 | `%[^"]` takes the longest quote-free prefix and stops at a '"' |
| LegacyTransport.Scan | transport.c:52-53 | every field `sscanf` assigns with `%[^"]` is non-empty and free of '"' |
| LegacyTransport.JoinPeer | transport.c:48-70 | a peer id accepted from a JOIN_REPLY is non-empty and quote-free |
| LegacyTransport.ScanLits | transport.c:52-53 | literal characters of the format match themselves and are consumed |
| LegacyTransport.ScanSpace | transport.c:52-53 | a space in the format consumes the white space in the text |
| LegacyTransport.ScanField | transport.c:52-53 | a field directive takes a quote-free run up to the next '"' |
| LegacyTransport.NoQuoteRunStops | transport.c:52-53 | a quote-free run followed by '"' is taken whole |
| LegacyTransport.ScanFieldFormat | transport.c:52-53 | a `"key": "%[^"]"` piece of the format reads back its value |
| LegacyTransport.JoinReplyRoundTrip | transport.c:52-53 | a JOIN_REPLY written with non-empty quote-free fields scans back to exactly those three fields |
| LegacyTransport.ScanSerializer | transport.c:52-53 | the serializer and sid parts of the reply scan back to their fields |
| LegacyTransport.ScanSid | transport.c:52-53 | the sid part of the reply scans back to its field |
| LegacyTransport.JoinReplyAccepted | transport.c:48-70 | the reply is accepted, giving the peer's id, exactly when its serializer is "msgpack" |
| LegacyTransport.AsText | transport.c:72-119 | the message's characters are as many as its bytes |
| LegacyTransport.Deliver | transport.c:84-87 | one event per message, the receive buffer untouched, and an ENABLED client hands the message to the node |
| LegacyTransport.ProcessIdle | transport.c:78-81 | with no message pending, the first four bytes are read as the length |
| LegacyTransport.ProcessHeader | transport.c:78-81 | a length prefix cut by an earlier receive is completed from the new bytes before the message is read |
| LegacyTransport.ProcessBody | transport.c:100-111 | a pending message that the new bytes complete is delivered whole, and the rest is processed after it |
| LegacyTransport.ProcessKeeps | transport.c:89-116 | bytes too few to finish a prefix or a pending message are kept, and nothing is delivered |
| LegacyTransport.FrameComplete | transport.c:83-88 | a message whose bytes are all there is delivered and processing goes on after it |
| LegacyTransport.ToNodes | transport.c:84-85 | one delivery to the node per message, in order |
| LegacyTransport.FlatFirst | transport.c:78-88 | the first of several framed messages is read first |
| LegacyTransport.FlatDelivered | transport.c:72-119 | an enabled client given several framed messages at once delivers each, in order, and keeps nothing |
| LegacyTransport.MessageLenOfPrefix | transport.c:38-46 | the length depends only on the first four bytes |
| LegacyTransport.SplitDelivered | transport.c:72-119 | however a framed message is cut into two receives, even inside its length prefix, it is delivered exactly once, whole, and the client is back where it started |
| LegacyTransport.SplitInPrefix | transport.c:72-119 | a message cut inside its prefix is delivered once the rest arrives |
| LegacyTransport.SplitInBody | transport.c:72-119 | a message cut inside its body is delivered once the rest arrives |
| LegacyTransport.FramedFirst | transport.c:72-119 | a framed message starts with its length and then its bytes |
| LegacyTransport.CompleteAsWritten | transport.c:79-83 | the completeness test as written: the message size is at most `len - read_pos` computed in `size_t`, so a read position past the end of the data wraps the difference to a huge value |
| LegacyTransport.ShortPrefixTreatedComplete | transport.c:79-83 | as written, a 2-byte receive passes the completeness test for a message of any length, where the bytes should be kept until the prefix is complete |
| LegacyTransport.TransportClient.HandleMessage | transport.c:48-70 | the client's new state and the event are what `Deliver` defines |
| LegacyTransport.TransportClient.HandleData | transport.c:72-119 | the client's new state and the messages delivered are what `Process` defines, so the framing lemmas hold of it |
| LegacyTransport.TransportClient.Step | transport.c:76-117 | one round moves forward, or finishes a pending message, and what is left to process is the rest |
| LegacyTransport.TransportClient.TakeRest | transport.c:100-116 | completing a pending message delivers it, otherwise the bytes are added to it |
| LegacyTransport.TransportClient.ReadPrefix | transport.c:78-81 | the length is read from the prefix, completing a partial one |
| LegacyTransport.TransportClient.TakeFrame | transport.c:83-98 | a complete message is delivered, otherwise it is kept in a new receive buffer, or dropped when none can be allocated |
| LegacyTransport.TransportClient.CreateTxBuffer | transport.c:121-134 | PENDING while a buffer exists, FAIL when the allocation fails, otherwise an empty buffer of the size |
| LegacyTransport.TransportClient.CreateRxBuffer | transport.c:136-149 | PENDING while a buffer exists, FAIL when the allocation fails, otherwise an empty buffer |
| LegacyTransport.TransportClient.FreeTxBuffer | transport.c:151-157 | no transmit buffer is left |
| LegacyTransport.TransportClient.FreeRxBuffer | transport.c:159-165 | no receive buffer is left |
| LegacyTransport.TransportClient.Join | transport.c:175-181 | the client disconnects exactly when the JOIN request is not sent, and is PENDING when it is |
| LegacyNode.FindPending | node.c:63-92 | the entry found is the first with the uuid; none means no entry has it |
| LegacyNode.RemovePendingDropsOne | node.c:63-92 | removal succeeds exactly when some entry has the uuid, and drops exactly the first such one, keeping the others in order |
| LegacyNode.AddThenRemove | node.c:30-92 | an entry added for a fresh uuid is the one its removal takes, leaving the list as it was |
| LegacyNode.FindAppended | node.c:30-56 | an entry appended for a fresh uuid is found at the end |
| LegacyNode.RemoveAfterAddOther | node.c:30-92 | a removal for another uuid takes the same entry after an addition as before it |
| LegacyNode.FindPrefix | node.c:63-92 | an entry found in a list is found at the same place after more are appended |
| LegacyNode.Node.AddPendingWithData | node.c:30-56 | succeeds exactly when the entry can be allocated, and then appends it after the last; otherwise the list is unchanged |
| LegacyNode.Node.AddPending | node.c:58-61 | the same, for an entry without data |
| LegacyNode.Node.Remove | node.c:63-92 | succeeds exactly when an entry has the uuid, and then unlinks the first such one; otherwise the list is unchanged |
| LegacyNode.HandleToken | node.c:157-181 | no port fails with no reply; a queue with room stores the token at the write slot, moves only the write counter, frees a stale token left in that slot, and replies ACK, the result being the reply's send result; a full queue replies NACK, fails and changes nothing; the read and tentative counters never change, and without counter wrap the uncommitted tokens gain exactly the new one and the peeked count stays |
| LegacyNode.HandleTokenReply | node.c:197-206 | in every state, duplicate or stray replies included: an ACK empties and frees the read position's slot and moves the read counter when the slot holds a token, and changes nothing otherwise; a NACK moves the tentative counter back by one modulo 2^32; with a token read and no wrap, an ACK removes and frees the oldest read token and a NACK keeps every token, each un-reading one |
| LegacyNode.SendLocal | node.c:208-263 | the first k tokens move to the peer in order, k being what the peer has room for; SUCCESS exactly when all moved; with no peer nothing moves |
| LegacyNode.FirstUnsent | node.c:229-263 | every send before the position found succeeds, and the one at it does not |
| LegacyNode.SendRemote | node.c:229-263 | the unread tokens are sent in order up to the first send that does not succeed, whose result is returned; the sent ones stay read and a FAIL rolls its token's read back |
| LegacyNode.RoundFiresInOrder | node.c:341-358 | the round succeeds exactly when every enabled actor fires and sends successfully; the actors fired are enabled ones in slot order, each unless an earlier one failed |
| LegacyNode.LoopOnce | node.c:341-358 | the loop returns the result and the actors fired that `Round` defines |
| LegacyLink.FoundAfterAppend | link.c:25-54 | a link appended under the first n characters of a query is the one a lookup for it then finds |
| LegacyLink.RemoveOwn | link.c:101-109 | removal by a link's own id unlinks that link when no earlier id is a prefix of it |
| LegacyLink.LinkTable.Get | link.c:111-124 | the link found is the first whose peer id agrees with the query on n characters; none means no link does |
| LegacyLink.LinkTable.Create | link.c:25-54 | a peer with a link gets it back unchanged; otherwise, when both allocations succeed, a fresh unreferenced link for the peer is appended and is what a lookup then finds; otherwise nothing changes |
| LegacyLink.LinkTable.RemoveRef | link.c:101-109 | the count drops by one, and at zero the list entry is removed; NULL changes nothing |
| LegacyLink.LinkTable.HandleRouteReply | link.c:126-167 | an undecodable reply or unknown peer fails; otherwise the link is ENABLED and the handler succeeds exactly when the status is 200, and is CONNECT_FAILED otherwise; only the found link's state changes, no reference count changes, and on the two failure paths no link changes |
| LegacyLink.AddRef | link.c:93-99 | the count grows by one; NULL changes nothing |
| LegacyLink.Transmit | link.c:169-179 | a link in DO_CONNECT becomes PENDING exactly when its route request is sent; otherwise nothing changes |
| LegacyPort.TransmitState | port.c:499-566 | a state with no request stays; a DO_* state moves to the state awaiting its reply exactly when the request is sent; DO_CONNECT without a tunnel falls back to a peer lookup; a waiting state never moves |
| LegacyPort.SentRequestAwaitsReply | port.c:499-566 | a successful send from a DO_* state leaves the port waiting for exactly that request's reply |
| LegacyPort.ConnectReply | port.c:109-144 | outside PENDING_CONNECT the reply is discarded with SUCCESS; status 200 moves on to DO_ENABLE and succeeds; anything else goes back to a peer lookup and fails |
| LegacyPort.StoreReply | port.c:146-178 | only PENDING_ENABLE takes the reply; `true` makes the port ENABLED, succeeds and tells the actor; anything else returns it to DO_ENABLE and fails |
| LegacyPort.RemoveReplyAsWritten | port.c:28-57 | as written, any reply whose boolean decodes succeeds, so `false` leaves the port in PENDING_DELETE |
| LegacyPort.RemoveReply | port.c:28-57 | only PENDING_DELETE takes the reply; `true` deletes the port and succeeds; anything else returns it to DO_DELETE and fails |
| LegacyPort.DisconnectReply | port.c:180-199 | succeeds exactly in PENDING_DISCONNECT, which becomes DISCONNECTED; other states are unchanged |
| LegacyPort.StoreRetried | port.c:146-178 | a refused store fails and the next successful transmit sends the request again |
| LegacyPort.RemoveRetried | port.c:28-57 | with the intended handler, a refused delete fails and the next successful transmit sends the request again |
| LegacyPort.RefusedRemoveStuckAsWritten | port.c:28-57 | as written, a `false` reply reports SUCCESS and leaves the port in PENDING_DELETE, which no transmit ever leaves |
| LegacyPort.RefusedConnectLooksUpPeer | port.c:109-144 | a refused connection goes back to a peer lookup, which the next successful transmit sends |
| LegacyPort.FindFrom | port.c:59-107 | the position found is the first match at or after the start; none means no match there |
| LegacyPort.NodeIdOf | port.c:59-107 | a node id found is quote-free |
| LegacyPort.FindFromAt | port.c:59-107 | the first match at or after the start is the one found |
| LegacyPort.NodeIdRoundTrip | port.c:59-107 | a reply whose first node-id key introduces a quote-free id yields exactly that id, whatever follows it |
| LegacyPort.KeyFirstAt | port.c:59-107 | the key is found at its first occurrence |
| LegacyPort.QuoteFirstAt | port.c:59-107 | the closing quote after a quote-free id is found right after it |
| LegacyPort.PeerLookupReply | port.c:59-107 | no port fails; a port not in PENDING_PEER_LOOKUP discards the reply; the connection is set up exactly when the reply decodes, holds a node id and the copy succeeds, and then with that id |
| LegacyPort.Port.AddPendingTokenResponse | port.c:201-224 | succeeds exactly when allocation does, appending the response after every response still owed; otherwise nothing changes |
| LegacyPort.Port.PeerQueue | port.c:538-542 | there is a peer queue exactly when the port has a local peer |
| LegacyPort.Port.MoveToken | port.c:533-547 | over a tunnel the token is sent or its read cancelled; to a local peer it is written and committed without freeing, or cancelled when the peer is full; with neither it is cancelled |
| LegacyPort.Port.SendResponse | port.c:522-530 | the oldest owed response is sent, and dropped exactly when sent |
| LegacyPort.Port.Transmit | port.c:499-566 | the state moves as `TransmitState` says; an ENABLED in-port of an enabled actor sends its oldest response; an ENABLED out-port of an enabled actor moves a token as `MoveToken` does; otherwise the queues are unchanged |
| LegacyPort.MoveLocalAsWritten | port.c:538-542 | as written, a token owning a buffer that the peer accepts is both queued in the peer and released |
| LegacyPort.HandleConnectReply | port.c:109-144 | with a port, the result and new state are those of `ConnectReply` and nothing else changes; without one it fails |
| LegacyPort.HandleStoreReply | port.c:146-178 | with a port, the result, new state and notification are those of `StoreReply` and nothing else changes; without one it fails |
| LegacyPort.HandleRemoveReply | port.c:28-57 | with a port, the result and new state are those of `RemoveReply` and nothing else changes; without one it fails |
| LegacyPort.HandleDisconnectReply | port.c:180-199 | with a port, the result and new state are those of `DisconnectReply` and nothing else changes; without one it fails |
| LegacyActor.TypeIndex | actor.c:128-152 | the entry found is the first type agreeing with the name on `typeLen` characters; none means none agrees |
| LegacyActor.TypeIndexFrom | actor.c:128-152 | the same, searching from a given entry |
| LegacyActor.TypeNamesResolve | actor.c:128-152 | every full type name picks its own entry |
| LegacyActor.PrefixPicksType | actor.c:128-152 | only `typeLen` characters count, so "io.GPIO" picks the GPIO reader type |
| LegacyActor.Kept | actor.c:167-216 | no name that starts like "_shadow_args" is kept |
| LegacyActor.PairsAt | actor.c:167-216 | entry k of the list is the k-th name paired with its value in the state |
| LegacyActor.ManagedListed | actor.c:167-216 | the list is built exactly when every name decodes and every kept name is in the state, and then holds the kept names with their values, in order |
| LegacyActor.KeptStep | actor.c:167-216 | a name is kept exactly when it decodes and is not a shadow-args name |
| LegacyActor.ListedWhen | actor.c:167-216 | from any point the list is built exactly when the remaining names decode and the kept ones are in the state |
| LegacyActor.ListedItems | actor.c:167-216 | from any point the built list extends what was built so far by the kept names with their values |
| LegacyActor.ShadowArgsNeverListed | actor.c:167-216 | no listed attribute is named like "_shadow_args" |
| LegacyActor.GetManaged | actor.c:167-216 | no "_managed" entry fails with an empty list; otherwise the result and list are those `ManagedFrom` defines |
| LegacyActor.ScanFrom | actor.c:607-629 | the scan gives a state for every port |
| LegacyActor.ScanDisconnects | actor.c:607-629 | the scan only ever takes ENABLED ports towards disconnection, and when it runs to the end no port is left ENABLED or waiting |
| LegacyActor.FirstSent | actor.c:634-648 | every port before the one found fails to transmit, and it succeeds |
| LegacyActor.EnableAndDeleteRequests | actor.c:596-606 | DO_ENABLE becomes ENABLED whether or not the request is sent, with SUCCESS exactly when it is; DO_DELETE goes PENDING when the request is sent and stays otherwise |
| LegacyActor.MigrateAfterPortsReleased | actor.c:607-633 | a migration goes PENDING only once no port is ENABLED or waiting, and the ports it touches were ENABLED |
| LegacyActor.SettledActorTransmitsPorts | actor.c:634-651 | in ENABLED or PENDING only the ports are transmitted, with SUCCESS exactly when one of them succeeds |
| LegacyActor.Actor.PortStates | actor.c:590-652 | one state per port, each that port's state, in visiting order |
| LegacyActor.Actor.InitFromType | actor.c:128-152 | succeeds exactly when a table type agrees with the name on `typeLen` characters, and then takes that type, its first `typeLen` characters as name, PENDING and no ports; an unknown type changes nothing |
| LegacyActor.Actor.PortEnabled | actor.c:376-399 | the actor goes to DO_ENABLE exactly when every port is ENABLED; otherwise nothing changes |
| LegacyActor.Actor.Delete | actor.c:401-417 | the actor and every one of its ports go to DO_DELETE |
| LegacyActor.Actor.Migrate | actor.c:431-436 | the target runtime's id is copied and the actor goes to DO_MIGRATE |
| LegacyActor.Actor.SetPortState | actor.c:611-612 | only port i changes, to the given state |
| LegacyActor.Actor.Scan | actor.c:607-629 | the ports' new states and whether the scan stopped are those `ScanFrom` defines |
| LegacyActor.Actor.TransmitPorts | actor.c:634-648 | the result and the ports transmitted are those `TransmitAll` defines |
| LegacyActor.Actor.Transmit | actor.c:590-652 | the result, the actor's new state and the ports' states are those `TransmitSpec` defines, of which the lemmas above state the meaning |

## Left out

Outside the model altogether:

- MessagePack encoding and decoding, the protocol message builders and the sends they make: token values are an abstract `Value` datatype, and whether a send succeeded or what a reply decodes to is a parameter.
- The network, sockets, lwIP event waits, the FCM transport and SSDP discovery, and the connect/close parts of the lwIP and Spritzer transports: network I/O.
- Platform code, clocks and `rand()`: the clock is a `now` parameter and `cc_gen_uuid` takes the `rand()` values it would have drawn.
- The MicroPython interpreter and its C glue other than the path and class-name helpers of `libmpy/cc_actor_mpy.c`: foreign code. Python firing is modelled from `actor.py`.
- Sensor and I/O actors that only forward a capability reading, Python capabilities (MQTT, HTTP, Stdout), device drivers, crypto: external I/O and floating point.
- The node's event loop, proxy connection, state persistence, actor creation from messages, actor and port (de)serialisation and the reply handlers of `cc_actor.c`: message-driven I/O over MessagePack.
- Concurrency: the transport state's `volatile` and the Android threads.
- Struct sizes: a list entry's data length is recorded as a constant.

Allocation and memory:

- Allocations are assumed to succeed except where an `allocOk` parameter says otherwise.
- Leaks are not modelled: the attribute lists the actors build, the read buffers of capability reads, ids copied by `list_add_n` that `list_remove` in `common.c` does not free, the data of the head entry that `remove_pending_msg` unlinks, and a link created for a tunnel request that is not sent.
- Capacity overflows of fixed buffers are not modelled: the 50-character tunnel and link id buffers, `id[50]` and `serializer[20]` in `transport_handle_join_reply`, whose `sscanf` may also read past `msg_size`, and `key[0]` read from an empty key in the tunnel lookup.
- LegacyLink.LinkTable: a link's `ref_count` is an unbounded integer.
- In `calvinsys_attribute_write`, the next write frees `state->attribute`, which points into the node's attribute text; the model just drops it.
- In `cc_calvinsys_open`, the object is freed before `cc_list_remove` reads its id; the model removes the entry the id names.

Deliberately weaker or narrower contracts:

- CcFifo.Fifo: the ring is modelled only for sizes N that divide 2^32 (1, 2, 4, up to 2^31), the `Aligned` condition of `Valid`. `fifo_init` (runtime/north/cc_fifo.c:50) accepts any decoded N, such as 3 or 5. For those sizes the model does not describe the queue once the counters wrap, where slots collide (see Findings), and N = 0, where `% fifo->size` is undefined, is excluded too.
- CcTransport.FrameStep: fewer than four bytes left after a message, or a length of 2^31 or more, is where the C code reads past the received bytes; the model stops there with FAIL.
- CcTransport.TransportClient.HandleData: each receive is a chunk of what arrived, cut to the room asked for; receive errors are an empty chunk.
- CcTransportLwip.Send: the room `tcp_sndbuf` reports is taken to be positive, as the event wait between writes guarantees; the wait itself is left out.
- CcTransportLwip.LinkLocal: `strtol`'s white space, sign and "0x" handling is not modelled; the MAC columns are plain hexadecimal pairs, and `%02lx` writes lower-case digits.
- CcTransportSpritzer.ParseUri: `strtol`'s clamp at `LONG_MAX` is not modelled, nor the narrowing of its `long` result into the `int` port, which changes a port of 2^31 or more; the size of the `ip` array the caller passes is not known, so the host is not truncated.
- CcTransportSpritzer.Create: the disconnect callback's cast of the client to the Spritzer state is not modelled.
- CcPort.Node.SetupConnection: the reference counts of the tunnels involved are stated by its helpers (`DropTunnel`, `AttachById`, `Rebind`), not by its own contract.
- CcPort.Node.PortGet: a port whose peer is itself is excluded (`PeerApart`), so a local move never writes into the queue it reads.
- CcScheduler.FireActors: each actor's `fire` is a parameter; the effects of transmitting its ports are those of `CcPort.Node.Transmit`, and the entries are snapshots taken when the round starts.
- CcIdentity.GetAttributes: requires an actor state, because the source dereferences it unchecked.
- CountTimer.CountTimerActor.Load: when a later allocation fails, the state left half-filled is not described.
- CountTimer.CountTimerActor.GetAttributes: the `stopped` flag is not saved, as in the source.
- ActorPy.Get: `d.get(key)` on a value that is not a dict gives None in the model; Python raises AttributeError there (libmpy/modules/actors/net/HTTPGet.py:48-62 calls `get` on the stored reply). The model does not follow that exception; it matters only if the capability's reply is not a dict.
- ActorPy.PeekAll: an input port that the action names twice gives None once it runs dry, where `ccmp_peek_token` (libmpy/cc_mpy_port.c:194-211) peeks unconditionally. This matters only for a malformed `action_input`.
- ActorPy.PyActor.Condition: an action body is a total function from the peeked values to a production. In Python a body (or the guard wrapping it) can raise at libmpy/modules/calvin/actor/actor.py:72; the inputs peeked at lines 67-69 are then neither committed nor cancelled and the exception leaves `fire`. That outcome is not modelled. Only the invalid-production raise at lines 84-87, which cancels the peeks first, is.
- ActorPy.FireReturnsOr: `Actor.fire` is run with a budget of passes; the budget bounds the loop, which the source does not.
- ActorPy: a port is looked up by its exact name, where `cc_port_get_from_name` accepts a prefix.
- CcCalvinsysTimer.Create, CcCalvinsysAttribute.Create: they call `calvinsys_register_capability`, which `cc_calvinsys.c` does not define; registration is modelled as `CreateCapability`.
- CcCalvinsysTimer.Timer: `calvinsys_timer_close` is not modelled; closing is `CcCalvinsys.Calvinsys.Close`.
- LegacyActor.GetManaged: on a name shorter than 12 characters the "_shadow_args" test reads past the name in C; the model compares the name's first 12 characters. On an early FAIL the entries already listed are kept, as in the source.
- LegacyActor.Actor.Transmit: the final loop records only which ports are transmitted, the ports' own effects being `LegacyPort.Port.Transmit`; the actor's ports are assumed to be distinct objects.
- LegacyActor.Actor.Transmit: a failed ACTOR_NEW request falls through into the final port loop, there being no `break` after it; the model follows the code.
- LegacyFifo.ReadRollback: requires `Unwrapped()`, counters that have not wrapped past 2^32; the source runs at any counter value, and the model says nothing of a read rolled back once a counter has wrapped.
- LegacyIdentity.Fire: requires `Unwrapped()` of both queues and an out-port write counter that stays below 2^32 during the call, every uncommitted in-port slot holding a token (`Filled`) and no in-port token read (`Peeked() == 0`); the source runs at any counter value, after 2^32 tokens too, and the model says nothing of those states.
- LegacyIdentity.MoveAll: the same conditions as `LegacyIdentity.Fire`.
- LegacyIdentity.MoveOne: the same conditions as `LegacyIdentity.Fire`, for one token.
- LegacyNode.SendLocal: the same conditions as `LegacyIdentity.Fire`, for the out-port and its peer.
- LegacyNode.SendRemote: requires `Unwrapped()` and `Filled()` of the out-port; a call made after a counter wrapped is not described.
- LegacyNode.SendOne: the same conditions as `LegacyNode.SendRemote`, for one token.
- LegacyNode.SendRemote, LegacyNode.SendLocal: the NULL-token path and actors with several out-ports are not modelled.
- LegacyNode: `join_reply`, `handle_data`, `client_connected`, `start_node` and `stop_node` of `node.c` are message and connection handling, left out with the protocol.
- LegacyTransport.TransportClient.CreateRxBuffer: a partial length prefix kept by `HandleData` counts as a buffer in use.
- LegacyPort.PeerLookupReply: a reply without a node id keeps the port in PENDING_PEER_LOOKUP.
- LegacyPort.Port.Transmit: the tunnel's state is a parameter, since the older `tunnel.c` is not part of this model.
- LegacyPort: `port_setup_connection`, `port_create`, `port_free`, `port_get`, `port_handle_connect`, `port_handle_disconnect` and `port_get_from_name` of `port.c` are left out; their newer versions in `cc_port.c` are modelled.
- CcPort: tunnel (de)serialisation, `port_get_from_peer_port_id` and `port_get_peer_id` are left out.

Where the source's files disagree with each other, the model follows the `.c` file:

- `cc_common.h:50-55` declares `cc_list_add`, `cc_list_add_n`, `cc_list_get` and `cc_list_get_n` returning `cc_list_t *`, while `cc_common.c` defines the adds returning a result code and the gets returning the node's data. Every call site, in the runtime, calvinsys and the actors alike, tests an add against NULL and takes `->data` of a get, so the model reads every call by the declaration: an add gives its new node, NULL exactly on failure, and `CcCommon.CcList.GetNode` gives the node. The declaration and the definition conflict, so what the C code does is undefined. Read by the definition instead, `cc_actor.c:430` would take every successful add as a failure; `CcActor.ExtractByDefinition` and `CcActor.ExtractByDefinitionRejects` show that reading.
- `cc_node.h` declares a pending-message list, while `cc_node.c` uses a fixed array of 10 slots.
- `cc_calvinsys_timer.h:24-30` declares a timer struct that differs from the one `cc_calvinsys_timer.c` uses.
- `cc_actor.h` has no `CC_ACTOR_DO_DELETE`, which the scheduler compares against.
- `cc_transport.c` uses `TRANSPORT_*` constants while `cc_transport.h` defines `CC_TRANSPORT_*`; the values are the header's (4-byte prefix, 512-byte receive buffer).
- `transport.h`, `node.h` (`MAX_ACTORS` and signatures), `link.h` and `port.h` (two states fewer and a different struct) are out of step with their `.c` files.
- `port.c` calls `fifo_com_*` and `fifo_tokens_available`, which only the newer `cc_fifo.c` defines, so a port's queue is a `CcFifo.Fifo`.
- `port_transmit` returns `void`, yet `actor.c` compares its result with SUCCESS; the model takes the result as whether its request was sent.
- `PORT_PENDING`, which `actor.c` compares against, is not defined; it is read as any state waiting for a reply.
- `port_delete`, called by `actor_delete`, has no definition; it is modelled as setting DO_DELETE.
- `cc_port.c` (lines 91, 236, 245, 382, 396 and 414) calls `actor_port_enabled` and `actor_port_disconnected`, while `cc_actor.c:779` and `cc_actor.c:817` define `cc_actor_port_state_changed` and `cc_actor_port_disconnected`; the model reads the calls as those definitions (`CcActor.Actor.PortStateChanged`, `CcActor.Actor.PortDisconnected`).

## Findings

| source | as written | input that shows it | evidently intended | confidence | as-written member | corrected member |
|---|---|---|---|---|---|---|
| runtime/north/cc_fifo.c:154-166 | `fifo_commit_read` accepts the commit only when `read_pos < tentative_read_pos`, comparing the 32-bit counters directly | a token peeked at position 2^32-1, so the tentative counter has wrapped to 0: the commit is refused and the token can never be consumed | commit whenever a token is peeked, i.e. when the counters differ | high, not executed | CcFifo.Fifo.CommitReadAsWritten, CcFifo.CommitRefusedAcrossWrap | CcFifo.Fifo.CommitRead, CcFifo.CommitGuardMeansPeeked |
| runtime/north/cc_fifo.c:145-194 | a position's slot is `pos % fifo->size` of a 32-bit counter, and `fifo_init` (line 50) accepts any decoded size N | N = 5: the token written at position 2^32 - 1 is still unread when the write at position 0, one step later, lands in the same slot 0 and overwrites it | ring sizes that divide 2^32, such as powers of two, so the slot sequence stays contiguous across the wrap | medium, not executed | CcFifo.UnalignedWrapCollision, CcFifo.UnalignedSlotsCollide | CcFifo.AlignedSlotsDistinct, CcFifo.Fifo.Write |
| runtime/north/cc_fifo.c:232-239 | `fifo_com_cancel_read` refuses a cancel only when `sequence_nbr >= tentative_read_pos && sequence_nbr < read_pos`, which holds only while the peek counter has wrapped past 2^32 and the committed counter has not | a stale cancel of position 3 after positions up to 5 were committed: it is accepted and rewinds the tentative counter behind the committed one, so two committed tokens count as readable again | refuse a cancel of a position before `read_pos` | medium, not executed | CcFifo.Fifo.ComCancelReadAsWritten, CcFifo.StaleCancelAcceptedAsWritten | CcFifo.Fifo.ComCancelRead, CcFifo.CancelAcceptedMeaning |
| runtime/north/cc_common.c:51-54 | `uuid_is_higher`, scanning from the last character down, returns true at the first position where the first id's character is greater and never stops where it is smaller | "ab" and "ba": each is "higher" than the other | a strict, total ordering of ids, so two runtimes agree on which one owns a tunnel | high, not executed | CcCommon.UuidIsHigherAsWritten, CcCommon.HigherAsWrittenNotAntisymmetric, CcTunnel.AdoptedAsWrittenDisagrees | CcCommon.UuidIsHigher, CcCommon.HigherAsymmetric, CcCommon.HigherTotal, CcTunnel.AdoptedAgrees |
| runtime/north/cc_common.c:225-245 | the brace counter that finds the end of a dictionary value counts a '}' met before the dictionary opens | key `"k"` in `[{"k":1},{}]`: the counter goes to -1 on the first '}' and back to 0 on the next '{', so the value found is "{" alone | the first complete brace group after the key, `{}` | medium, not executed | CcCommon.JsonDictValueAsWritten, CcCommon.DictUnderflowAsWritten | CcCommon.JsonDictValue, CcCommon.DictValueAt |
| actors/test/cc_actor_replica_identity.c:91 | the replica label is formatted with `%d:%d` from unsigned 32-bit values | index 0 of count 0xFFFFFFFF gives "0:-1" | unsigned formatting, "0:4294967295" | high, not executed | ReplicaIdentityC.LabelAsWritten, ReplicaIdentityC.LabelAsWrittenNegative | ReplicaIdentityC.Label, ReplicaIdentityC.LabelFields |
| actors/context/cc_actor_registry_attribute.c:103-106 | `fire`, declared `bool`, returns `CC_FAIL` when the actor has no state | an actor without state: `CC_FAIL` is nonzero and reads as "fired" | report that nothing fired | high, not executed | RegistryAttribute.RegistryActor.FireAsWritten, RegistryAttribute.StatelessFiringReported | RegistryAttribute.RegistryActor.Fire |
| actors/std/cc_actor_counttimer.c:125-127 | `init` (and `set_state` at lines 211-213), which return `cc_result_t`, return `false` (= `CC_SUCCESS`) when the count does not decode | a managed state whose "count" is not an integer: the actor is accepted | report `CC_FAIL` | high, not executed | CountTimer.CountTimerActor.InitAsWritten, CountTimer.CountTimerActor.SetStateAsWritten, CountTimer.UndecodableCountAccepted | CountTimer.CountTimerActor.Init, CountTimer.CountTimerActor.SetState |
| actors/std/cc_actor_counttimer.c:251-261 | `fire`, declared `bool`, returns `CC_FAIL` when reopening the timer fails | a periodic step whose reopen fails is reported as "fired" | report that nothing fired | high, not executed | CountTimer.CountTimerActor.FireAsWritten, CountTimer.FailedReopenReported | CountTimer.CountTimerActor.Fire |
| runtime/north/cc_transport.c:88 | a message completed from an earlier partial one is handed over with the new chunk's `msg_size`, which is 0 | a partial message holding [7] of 2 bytes, then a chunk [9]: the handler receives an empty message | hand over the whole reassembled message | medium, not executed | CcTransport.ReceivedAsWritten, CcTransport.ResumedMessageAsWritten | CcTransport.Received, CcTransport.TransportClient.HandleData, CcTransport.ReassemblyCompletes |
| calvinsys/common/cc_calvinsys_timer.c:164-174 | the time left on a timer is `timeout - (now - last_triggered)` in 32-bit unsigned arithmetic | a timer of timeout 5 triggered at second 0 and looked at at second 7: the node is told to sleep 4294967294 seconds | an overdue timer is due now (0 left) | high, not executed | CcCalvinsysTimer.WrappedRemaining, CcCalvinsysTimer.OverdueTimerWraps | CcCalvinsysTimer.Remaining, CcCalvinsysTimer.NextTimeout, CcCalvinsysTimer.NextTimeoutWakesInTime |
| libmpy/cc_actor_mpy.c:320-352 | the length of "actors." plus the actor type is stored in the `uint8_t pos` the class-name scan starts from | a type of 249 characters without '.': the length 256 wraps to 0, the scan does not run and loading fails for want of a class name | an index as wide as the string, giving the whole type as class name | high, not executed | CcActorMpy.ClassNameAsWritten, CcActorMpy.ClassNameAsWrittenLong | CcActorMpy.ClassName, CcActorMpy.ClassNameIsLastComponent |
| fifo.c:84-101 | the queue is reloaded by a loop from slot `read_pos % N` up to slot `write_pos % N` | N=4 with read 3 and write 5: the loop starts past its end and loads neither token; N=8 with 7 tokens stores into slots 5 and 6, past the 5-slot token array | load the tokens from read to write modulo N, and refuse N beyond the token array | high, not executed | LegacyFifo.WrappedWindowLost, LegacyFifo.OversizedRingOverflows | LegacyFifo.CreateFifo, LegacyFifo.LoadWindow, LegacyFifo.LoadRestoresWindow |
| transport.c:79-83 | a message is taken as complete when `msg_size <= len - read_pos`, in `size_t` | a 2-byte chunk: the size is read past the data and the subtraction wraps, so the test passes | keep a short prefix until the rest arrives | medium, not executed | LegacyTransport.CompleteAsWritten, LegacyTransport.ShortPrefixTreatedComplete | LegacyTransport.TransportClient.HandleData, LegacyTransport.SplitDelivered |
| port.c:47-49 | the `if` on a refused remove reply has no braces, so only its first statement is conditional | a reply with value false: the port is left waiting and never retried | retry the remove when it is refused | medium, not executed | LegacyPort.RemoveReplyAsWritten, LegacyPort.RefusedRemoveStuckAsWritten | LegacyPort.RemoveReply, LegacyPort.RemoveRetried, LegacyPort.HandleRemoveReply |
| port.c:538-542 | a local move writes the token into the peer's queue and then commits the read with the token freed | a local peer with room and a token that owns a buffer: the buffer now in the peer's queue is freed | commit without freeing, the ownership having moved | high, not executed | LegacyPort.MoveLocalAsWritten | LegacyPort.Port.MoveToken, LegacyPort.Port.Transmit |
