# Bottlerocket core kit: verified models

Dafny models of seven pieces of the Bottlerocket core kit, with the properties each of them is
there to provide. `dafny verify dfyconfig.toml` checks everything.

**whippet, the D-Bus policy compiler** (`PolicyModel`, `DbusModel`, `Whippet*`). Policy files are
loaded in order and every rule is stamped with a `u64` priority; contexts are validated, names are
resolved to uids, `prepare` moves connect rules to user contexts, `optimize` deletes dominated ones,
and the result is lowered to per-uid batches. No pass is right on its own: `prepare` pushes in
reverse load order and the lowering takes the last connect rule it meets, so the verdict depends on
`optimize` running in between and on priorities being unique. `PolicyModel` and `DbusModel` give
each pass as a function; `WhippetLoad`, `WhippetPasses`, `WhippetLowering`, `WhippetConnect`,
`WhippetRecords`, `WhippetAccess`, `WhippetAcceptance` and `WhippetReach` prove what the passes mean,
separately and end to end; `WhippetNames` says what a user name denotes and `WhippetNumbering` what
loading does, each without reference to the code; `WhippetPolicy` holds the resolver and policy
classes whose methods carry the passes out in place.

**`apiclient exec`** (`ExecProtocol`, `StdinForwarding`, `ExecStreaming`, `Heartbeat`). Credit-based flow control
over a WebSocket, as a state machine in which the reading thread, the message future and the server
take steps in any order, with the two atomics loaded and stored one at a time; the two reading loops
over `retry_read`; the two brought together, runs of the protocol being runs of the loop; the
heartbeat in model time.

**`apiclient get --exclude`** (`PrefixExclusion`), **`apiclient update`** (`UpdateFlow`),
**`apiclient`'s argument parsers** (`CommandLine`), **logdog's redaction** (`Redaction`) and **the
connector cache of `HyperClient`** (`ConnectorCache`, double-checked locking for any number of
threads).

Code that works in place is written as methods, proved equal to a function on values; the lemmas are
about that function. An object the source mutates through `&mut` but that is a plain value (a JSON
tree, a vector of rules) is handed in and out.

## Reading the policy theorems

A name denotes a uid (`Denotes`) in one of three ways: "*" denotes `u32::MAX`; digits, perhaps behind
a plus sign, with a value that is a `u32` denote that value; any other name denotes the uid of that
account in the passwd database, if it has one. All theorems about users speak of what names denote.

A broker picks, for a uid, the first entry with that uid, or else the first `u32::MAX` entry
(`EffectiveBatch`), and in it the matching record of highest priority (`Decide`). What matches is an
arbitrary predicate that cannot see the priority.

`WhippetAccess` says the same of requests to own a name or pass a message. There a field left out of
a rule, or a star, reaches every value; an empty field of a record reaches every value, and an own
record marked as a prefix reaches every name with that prefix.

Priorities are `u64` and the release profile has no overflow checks, so they wrap, and the methods
model that. The connect theorem holds as long as no default rule's priority wraps (`DefaultsFit`);
`ConnectReach` shows that it fails for some run of every greater number of rules. The record theorem
also needs user rules to rank above default rules; `Loadable` bounds the rules by twice
`PRIORITY_BASE`. `RankingReach` shows that this is exactly as far as that ranking goes, and
`AccessReach` that it is exactly as far as the answers to requests are right. `AccessMeaning` and
`AccessReach` hold however a broker breaks ties between records of equal priority.

## Where code and promise differ

- The comments on `AtomicCapacity` and `wait_for_capacity` say the server rejects a client with more
  than the announced maximum outstanding. The check is made before a read, with `<=`, so one message
  more than the maximum can be outstanding: `FlowControl` proves that bound, `BoundReached` reaches
  it, `OverstepIff` says which sends overstep.
- Two user names with one uid ("7" and "007", or a name and its number) lose the rules of the
  earlier context: `CollidingNamesLoseRules`, with `ReplacingUidsKeepsRules` for the exact condition.
- A user context named "*" makes a second `u32::MAX` entry: `WildcardContextRepeatsUid`, with
  `UidsDistinctIff` for the exact condition.
- `response_field` is documented to return nothing for a missing key, but returns a string it meets
  on the way: `RecordReadAsType`, with `FieldIsNestedIff` for the exact condition. `SuccessIsGenuine`
  shows that this cannot fake the command or its status.
- The update client is documented to wait until the timestamp changes. Without a timestamp the first
  status reads "first call" and a later one "missing", so a status that never changed counts as
  success: `UnchangedStatusSucceeds`, with `UnchangedAcceptedIff` for the exact condition, over every
  pair of a first status and a poll.
- The connector cache ignores the sleep implementation in its key, as a comment in the source
  concedes: `SleepIgnored`, with `SleepRespectedIff` for the exact condition.
- A first key that is empty loses its dot in the path that prefixes are compared with:
  `EmptyKeyLosesDot`, with `DottedIsJoinIff` for the exact condition.
- A prefix with a trailing dot is documented to match only where more path segments follow. A single
  key with a dot in it matches too: `TrailingDotHitsSibling`, with `TrailingDotIff` for the exact
  condition on the keys.
- A read that fails for good drops the bytes already in the buffer: `ByteLost`, with `NothingLostIff`
  for how many and when.
- A command whose first word begins with a dash does not pass through, even behind `--`:
  `DashedWordRefused`, with `WordsPassThroughIff` for the exact condition.

## Model

| member | source | states |
|---|---|---|
| `WhippetPolicy.Compile` | sources/whippet/src/main.rs:125-130 | The whole compiler succeeds exactly on acceptable input and otherwise names the first offence; every uid gets the connect verdict and priority of the last loaded rule naming it, and own, send and receive decisions follow its own context first, the default context otherwise |
| `WhippetConnect.ConnectMeaning` | sources/whippet/src/policy.rs:301-418 | End to end, for every run of files whose default priorities do not wrap, every passwd database and uid: the verdict found for the uid is that of the last loaded default-context connect rule naming the uid or everyone, and refusal when there is none |
| `WhippetConnect.ConnectFields` | sources/whippet/src/dbus_policy.rs:176-199 | The connect verdict and priority a uid finds are those of the last loaded rule naming it, with the priority given on loading; without one, refusal at priority 0, or 1 when nothing was loaded |
| `WhippetReach.ConnectReach` | sources/whippet/src/policy.rs:187-205 | All runs of n rules have that connect meaning if and only if n default priorities fit below the `u64` wrap |
| `WhippetRecords.RecordMeaning` | sources/whippet/src/dbus_policy.rs:171-220 | End to end, for every uid, kind of record and way of matching: the deciding record is that of the last loaded matching rule in the context the uid owns, else the last loaded matching default rule |
| `WhippetAccess.AccessMeaning` | sources/whippet/src/dbus_policy.rs:171-286 | End to end, for every uid and request to own a name, send or receive: every record that may decide, whatever the tie-breaking, gives the verdict of the last loaded rule reaching the request, own context before default context, and there is one exactly when such a rule exists |
| `WhippetReach.AccessReach` | sources/whippet/src/policy.rs:187-205 | All runs of n rules answer requests so if and only if n is at most twice PRIORITY_BASE |
| `WhippetAccess.RecordReachesIff` | sources/whippet/src/dbus_policy.rs:75-286 | A rule, read with its stars and left-out fields, reaches a request if and only if it converts to a record of that kind that reaches it, with the rule's verdict |
| `WhippetAcceptance.CompilesIff` | sources/whippet/src/policy.rs:208-253 | Compilation succeeds if and only if no user context has a connect rule and every name resolves; later passes and conversions never fail |
| `WhippetAcceptance.CompileErrors` | sources/whippet/src/policy.rs:208-253 | A failed compilation names the first user context with a connect rule, else the first connect rule for an unknown name, else the first unknown context, in the order of the files, and says whether the account is missing or could not be looked up |
| `WhippetAcceptance.FailureLeaves` | sources/whippet/src/policy.rs:224-253 | What a failed resolution leaves: default rules resolved up to the first unknown name and contexts as they were, or all default rules resolved and no contexts |
| `WhippetAcceptance.LoweringFails` | sources/whippet/src/dbus_policy.rs:203-206 | Lowering any policy fails exactly on a key that spells no uid, naming the first |
| `WhippetNames.ResolveIff` | sources/whippet/src/policy.rs:542-579 | For every name and passwd database the answer is a uid if and only if the name denotes it |
| `WhippetNames.ResolveFails` | sources/whippet/src/policy.rs:542-579 | It fails exactly for accounts the database does not have or could not look up, with the error for each |
| `WhippetNames.ParseIff` | sources/whippet/src/policy.rs:552-555 | The parser reads exactly the decimal spellings of `u32` values, with a plus sign or leading zeros or without |
| `WhippetAcceptance.UidsDistinctIff` | sources/whippet/src/dbus_policy.rs:171-210 | The uids of the output are distinct if and only if the wildcard owns no user context with rules |
| `WhippetAcceptance.WildcardContextRepeatsUid` | sources/whippet/src/dbus_policy.rs:171-210 | One file with a rule in a user context named "*" compiles, to two entries for the wildcard id |
| `WhippetLoad.LoadingKeepsText` | sources/whippet/src/policy.rs:422-451 | Over a whole load run each context holds exactly the files' rules in load order; only priorities change |
| `WhippetLoad.LoadingKeepsNameOrder` | sources/whippet/src/policy.rs:434-448 | User contexts stand in order of first appearance over all files |
| `WhippetNumbering.LoadingNumbers` | sources/whippet/src/policy.rs:139-205 | For every run of files: written down in the order they are met, the rule at position i gets 3 + i above the seventh of `u64` for the default context, or three sevenths for user contexts, and each context holds its own in that order |
| `WhippetLoad.DefaultsRank` | sources/whippet/src/policy.rs:187-205 | As long as they fit, default priorities do not wrap and strictly rise in load order over all files |
| `WhippetLoad.UserRanks` | sources/whippet/src/policy.rs:187-205 | The same for every merged user context |
| `WhippetLoad.UsersApart` | sources/whippet/src/policy.rs:187-205 | Rules of different user contexts never share a priority |
| `WhippetLoad.PrioritiesDistinct` | sources/whippet/src/policy.rs:187-205 | No two rules of a load run share a priority, wherever they are |
| `WhippetLoad.UserRulesOutrankDefaultRules` | sources/whippet/src/policy.rs:32-36 | Every user-context rule outranks every default-context rule, whichever was loaded first |
| `WhippetLoad.RankingReach` | sources/whippet/src/policy.rs:32-36 | Every load run of n rules ranks user rules above default rules if and only if n is at most twice PRIORITY_BASE |
| `WhippetPasses.PrepareMoves` | sources/whippet/src/policy.rs:301-336 | Default rules other than named connect rules stay in order; each named one lands behind its user's old rules, newest first |
| `WhippetPasses.PrepareConserves` | sources/whippet/src/policy.rs:301-336 | The multiset of all rules is unchanged |
| `WhippetPasses.PrepareKeepsSpeaking` | sources/whippet/src/policy.rs:301-336 | For every user the set of connect rules that speak about it is unchanged |
| `WhippetPasses.OptimizeKeepsVerdict` | sources/whippet/src/policy.rs:393-418 | With distinct positive priorities a verdict is the highest-ranked one for a user after optimizing if and only if it was before |
| `WhippetPasses.OptimizeKeepsOtherRules` | sources/whippet/src/policy.rs:393-418 | Own, send and receive rules of every context survive, in order |
| `WhippetPasses.OptimizeLeavesOneConnect` | sources/whippet/src/policy.rs:393-418 | Every context keeps at most one connect rule |
| `WhippetPasses.OptimizeKeepsOnlyWinners` | sources/whippet/src/policy.rs:402-416 | A connect rule left in a user context is above all others there and not below any default one |
| `WhippetPasses.OptimizeIdempotent` | sources/whippet/src/policy.rs:393-418 | Optimizing twice is optimizing once, for every policy |
| `WhippetPasses.OptimizedWinnerWon` | sources/whippet/src/policy.rs:393-418 | A verdict that wins after optimizing won before, even when priorities repeat |
| `WhippetPasses.SurvivorWins` | sources/whippet/src/policy.rs:454-456 | The connect rule a user is left with, or the default one when it has none, is a highest-ranked rule about that user |
| `WhippetPasses.NoSurvivorNoRule` | sources/whippet/src/policy.rs:454-456 | When nothing survives for a user, no rule spoke about it |
| `PolicyModel.Threshold` | sources/whippet/src/policy.rs:459-466 | An upper bound of the connect rules' priorities that one of them attains, or 0 |
| `WhippetLowering.BatchShape` | sources/whippet/src/dbus_policy.rs:226-250 | Every rule goes to the vector of its kind, in order; the connect fields come from a connect rule of the context, or refuse |
| `WhippetLowering.BatchTakesLast` | sources/whippet/src/dbus_policy.rs:226-250 | Of several connect rules in a context the last gives the connect fields |
| `WhippetLowering.UserBatchShape` | sources/whippet/src/dbus_policy.rs:192-220 | A user's batch holds its own records, then the default ones, and falls back to the default verdict and priority |
| `WhippetLowering.PipelineUidKeys` | sources/whippet/src/dbus_policy.rs:192-207 | After resolving, all context keys stay printed uids, so parsing them back cannot fail |
| `WhippetLowering.BatchFound` | sources/whippet/src/dbus_policy.rs:171-210 | Which batch each uid finds: its own context's if it survived, the default one otherwise and for the wildcard |
| `WhippetConnect.HighestIsLast` | sources/whippet/src/policy.rs:224-253 | With priorities rising in load order the highest-ranked resolved connect rule is the last loaded one |
| `WhippetConnect.LoweredVerdictWins` | sources/whippet/src/dbus_policy.rs:192-207 | Optimizing and lowering give each uid the verdict and priority of its highest-ranked connect rule, also where its context was dropped |
| `WhippetRecords.BackEndRecords` | sources/whippet/src/policy.rs:301-418 | `prepare` and `optimize` leave every context's own, send and receive records as they were |
| `WhippetRecords.ResolvedOwner` | sources/whippet/src/policy.rs:244-250 | After re-keying, a uid's context is that of the last of its names by first appearance |
| `WhippetRecords.ReplacingUidsKeepsRules` | sources/whippet/src/policy.rs:244-250 | Re-keying keeps all user rules if and only if no context with rules is followed by one with the same uid |
| `WhippetRecords.CollidingNamesLoseRules` | sources/whippet/src/policy.rs:244-250 | Rules filed under "7" vanish when "007" follows |
| `WhippetRecords.NamedContextDecides` | sources/whippet/src/policy.rs:244-250 | When no two names share a uid, each uid owns exactly the rules filed under its name |
| `PolicyModel.InsertGet` | sources/whippet/src/policy.rs:244-250 | Inserting overwrites one key's context and no other |
| `PolicyModel.InsertKeys` | sources/whippet/src/policy.rs:244-250 | An existing key keeps its place in the map's order, a new one goes last |
| `WhippetPolicy.PasswdUsernameResolver.constructor` | sources/whippet/src/policy.rs:536-540 | The cache starts empty and agrees with the passwd database |
| `WhippetPolicy.PasswdUsernameResolver.Resolve` | sources/whippet/src/policy.rs:542-579 | The answer is the uid the name denotes, or the error for an unknown one; the cache never changes it and gains at most the name asked for |
| `WhippetPolicy.StampRules` | sources/whippet/src/policy.rs:187-205 | The loop stamps as the function says and advances the wrapping counter by the number of rules |
| `WhippetPolicy.StampContexts` | sources/whippet/src/policy.rs:187-205 | The same for all user contexts under one running counter |
| `WhippetPolicy.Policy.SetRulePriorities` | sources/whippet/src/policy.rs:187-205 | The object becomes its stamped form and the counter advances past all its rules |
| `WhippetPolicy.Policy.Validate` | sources/whippet/src/policy.rs:208-221 | Refuses exactly when a user context has a connect rule, naming the first |
| `WhippetPolicy.Policy.ReplaceUids` | sources/whippet/src/policy.rs:224-253 | On success the object is the resolved policy; on failure the error is that of the first name that does not resolve, and the object is left resolved up to it, without user contexts if the failing name was one of theirs |
| `WhippetPolicy.ResolveDefault` | sources/whippet/src/policy.rs:230-240 | The default rules resolved in order and in place, or the first failure with the rules behind it untouched |
| `WhippetPolicy.ResolveContexts` | sources/whippet/src/policy.rs:242-250 | The contexts re-keyed in order, later ones overwriting, or the first failure |
| `WhippetPolicy.Policy.Prepare` | sources/whippet/src/policy.rs:301-336 | The object becomes the prepared policy |
| `WhippetPolicy.Policy.Optimize` | sources/whippet/src/policy.rs:393-418 | The object becomes the optimized policy |
| `WhippetPolicy.LoadOnePolicy` | sources/whippet/src/policy.rs:422-451 | The base becomes its merge with the stamped file and the counter advances |
| `WhippetPolicy.LoadStep` | sources/whippet/src/policy.rs:171-179 | One more file under the wrapped machine counter is one more file of the unwrapped load run |
| `WhippetPolicy.LoadAll` | sources/whippet/src/policy.rs:171-179 | The loop over all files yields the load run's policy |
| `WhippetPolicy.NewPolicy` | sources/whippet/src/policy.rs:139-184 | A loaded, validated and resolved policy, or the compiler's own error |
| `WhippetPolicy.ToBatch` | sources/whippet/src/dbus_policy.rs:226-250 | The loop fills the batch the function gives |
| `WhippetPolicy.ToUserBatch` | sources/whippet/src/dbus_policy.rs:193-201 | A context's own batch with the default verdict where it has none, and the default records appended |
| `WhippetPolicy.ToDbusPolicy` | sources/whippet/src/dbus_policy.rs:171-210 | The loop over contexts yields the converted policy, default entry first |
| `ExecProtocol.FlowControl` | sources/api/apiclient/src/exec.rs:473-503 | In every reachable state outstanding messages are at most the largest delivered maximum plus one, at most one before any update, and the server-count error is unreachable |
| `ExecProtocol.BoundReached` | sources/api/apiclient/src/exec.rs:473-503 | For every maximum some run reaches exactly that bound |
| `ExecProtocol.OverstepIff` | sources/api/apiclient/src/exec.rs:431-451 | A send oversteps the largest delivered maximum if and only if that many messages were outstanding already |
| `ExecProtocol.InOrderDelivery` | sources/api/apiclient/src/exec.rs:431-464 | In every reachable state the process has been given a prefix of the input, and all of it has been sent once the reader finished |
| `ExecProtocol.CreditKept` | sources/api/apiclient/src/exec.rs:307-312 | Every step, torn loads and stores included, keeps the credit rule |
| `ExecProtocol.CaughtUpReaderProceeds` | sources/api/apiclient/src/exec.rs:473-503 | Once all is written and the last update says so, the next check lets the reader read |
| `ExecProtocol.NoDeadlock` | sources/api/apiclient/src/exec.rs:473-503 | From every reachable state an unfinished reader can come to read again without sending anything first |
| `ExecStreaming.SentIsIdealPrefix` | sources/api/apiclient/src/exec.rs:431-464 | In every run of the protocol whose reader fills its buffer, sent messages and those the unread input calls for make up what the input calls for; all is sent but the end mark once the reader is done |
| `ExecStreaming.ProtocolRunsLoop` | sources/api/apiclient/src/exec.rs:431-503 | Every such run is a run of the reading loop: given the pairs of values compared in it, the loop sends the same messages and ends accordingly, however the input is delivered |
| `StdinForwarding.Retry` | sources/retry-read/src/lib.rs:17-39 | Bytes put in the buffer and bytes left in the reader together are the reader's stream; a failure leaves the buffer unfilled |
| `StdinForwarding.Source.RetryRead` | sources/retry-read/src/lib.rs:17-39 | The buffer's filled part holds the next bytes of the stream, the rest of it is untouched |
| `StdinForwarding.RetrySteady` | sources/retry-read/src/lib.rs:17-39 | Without faults the buffer is filled with the next bytes as far as the stream goes, however reads are split or interrupted |
| `StdinForwarding.WaitForCapacity` | sources/api/apiclient/src/exec.rs:473-503 | The first look at the atomics that does not make the reader wait decides: an error if and only if the server has written more than was read, admission otherwise; waiting on if and only if there is none |
| `StdinForwarding.ReadStdin` | sources/api/apiclient/src/exec.rs:424-465 | Messages, ending and what is left unread are those of the forwarding function with 4096-byte buffers |
| `StdinForwarding.ReadStdinTty` | sources/api/apiclient/src/exec.rs:373-421 | The same with one-byte messages |
| `StdinForwarding.NoByteLostOrAdded` | sources/api/apiclient/src/exec.rs:431-464 | However reads go, sent payloads, bytes dropped by a failed read and unread bytes concatenate to the input; fewer than a buffer are dropped, and only on failure |
| `StdinForwarding.LostIsRemainder` | sources/api/apiclient/src/exec.rs:431-451 | A failed read drops exactly the bytes since the last end of input that do not fill a whole buffer |
| `StdinForwarding.NothingLostIff` | sources/api/apiclient/src/exec.rs:431-451 | For every input: the number of bytes dropped is the number since the last end of input modulo the buffer size, and nothing is lost if and only if the size divides it |
| `StdinForwarding.LossBeforeFault` | sources/api/apiclient/src/exec.rs:431-451 | Before a first fault on a steady reader, the dropped bytes are the bytes before it modulo the buffer size |
| `StdinForwarding.ByteLost` | sources/api/apiclient/src/exec.rs:431-451 | One byte followed by a fault is never sent |
| `StdinForwarding.MessagesWellFormed` | sources/api/apiclient/src/exec.rs:431-464 | Every payload has 1 to buffer-size bytes; ContentComplete comes last, and exactly on completion |
| `StdinForwarding.SteadyForwarding` | sources/api/apiclient/src/exec.rs:431-464 | Without faults the messages are a prefix of the ones the bytes call for, and all of them on completion |
| `StdinForwarding.CreditCompletes` | sources/api/apiclient/src/exec.rs:431-464 | With room at every look and a look for each message the loop completes, having sent all messages the bytes call for |
| `StdinForwarding.IdealBytes` | sources/api/apiclient/src/exec.rs:431-464 | The messages a stream calls for carry exactly that stream |
| `StdinForwarding.IdealFull` | sources/api/apiclient/src/exec.rs:431-464 | All of its payloads but the last are full buffers |
| `StdinForwarding.TerminalDeliversSameBytes` | sources/api/apiclient/src/exec.rs:373-421 | The terminal and the bulk loop deliver the same bytes |
| `Heartbeat.Beat` | sources/api/apiclient/src/exec.rs:558-588 | The loop stops at the first look that finds the server silent beyond the timeout |
| `Heartbeat.AliveWhileLively` | sources/api/apiclient/src/exec.rs:274-282 | While gaps stay within ten seconds no look finds the server dead |
| `Heartbeat.DetectionBound` | sources/api/apiclient/src/exec.rs:49-51 | After the last frame the loop stops later than ten and within twelve seconds |
| `Heartbeat.SilenceNoticed` | sources/api/apiclient/src/exec.rs:558-588 | For every timeline, a silence of twelve seconds contains a look, more than ten seconds into it, that finds the server dead; a loop still running stops then |
| `PrefixExclusion.RemovePrefixesRecursive` | sources/api/apiclient/src/get.rs:59-105 | The two work lists leave the pruned value; the flag is true exactly when an empty object is left |
| `PrefixExclusion.RemovePrefixes` | sources/api/apiclient/src/get.rs:52-54 | Pruning from the root |
| `PrefixExclusion.Classify` | sources/api/apiclient/src/get.rs:70-87 | Every key goes to exactly one work list, by its dotted path, once |
| `PrefixExclusion.PruningFiltersLeaves` | sources/api/apiclient/src/get.rs:52-105 | The leaves left are exactly those whose dotted path starts with no prefix, values unchanged |
| `PrefixExclusion.PrunedIsTidy` | sources/api/apiclient/src/get.rs:94-104 | No empty object is left below the root |
| `PrefixExclusion.LeavesDetermine` | sources/api/apiclient/src/get.rs:94-104 | Objects without empty objects inside are determined by their leaves, so the filter law fixes the result |
| `PrefixExclusion.ExclusionsCompose` | sources/api/apiclient/src/get.rs:52-105 | Removing P and then Q is removing both together |
| `PrefixExclusion.ExclusionIsBySet` | sources/api/apiclient/src/get.rs:80-80 | Order and repetition of prefixes do not matter |
| `PrefixExclusion.ExclusionIdempotent` | sources/api/apiclient/src/get.rs:52-105 | Removing twice is removing once |
| `PrefixExclusion.DottedIsJoinIff` | sources/api/apiclient/src/get.rs:74-78 | The compared path is the keys joined by dots if and only if there is at most one key or the first is not empty |
| `PrefixExclusion.EmptyKeyLosesDot` | sources/api/apiclient/src/get.rs:74-78 | The path of keys "" and "a" is compared as "a" |
| `PrefixExclusion.TrailingDotIff` | sources/api/apiclient/src/get.rs:48-54 | Prefixes made of keys and a trailing dot hit exactly the paths strictly below those keys, for all paths over a set of keys, if and only if no key in the set is empty or contains a dot |
| `PrefixExclusion.TrailingDotHitsSibling` | sources/api/apiclient/src/get.rs:48-54 | Prefix "a." removes the single key "a.b" |
| `ConnectorCache.BuiltOnceSharedByAll` | sources/aws-smithy-experimental/src/hyper_1_0.rs:634-665 | In every reachable state, for any number of threads: one build per key at most, calls with equal keys got the same connector, built for that key, and no thread has panicked |
| `ConnectorCache.StepOfCall` | sources/aws-smithy-experimental/src/hyper_1_0.rs:634-665 | A step of a call keeps the call, or ends it by returning the connector cached under its key, and nothing else is returned |
| `ConnectorCache.CallReturns` | sources/aws-smithy-experimental/src/hyper_1_0.rs:634-665 | From every reachable state, whatever other threads are doing, every call can come to its return |
| `ConnectorCache.ReadersShare` | sources/aws-smithy-experimental/src/hyper_1_0.rs:640-640 | Any number of threads can look into the cache at once |
| `ConnectorCache.NeverReplaced` | sources/aws-smithy-experimental/src/hyper_1_0.rs:644-661 | A cached entry is the same in every later state |
| `ConnectorCache.EntriesStay` | sources/aws-smithy-experimental/src/hyper_1_0.rs:644-660 | No single step replaces or removes an entry |
| `ConnectorCache.SleepRespectedIff` | sources/aws-smithy-experimental/src/hyper_1_0.rs:595-608 | All calls got a connector with their own sleep implementation if and only if calls with equal keys all passed the same one |
| `ConnectorCache.SleepIgnored` | sources/aws-smithy-experimental/src/hyper_1_0.rs:595-608 | For every key some run hands a caller with that key a connector built with another caller's sleep implementation |
| `ConnectorCache.FirstCall` | sources/aws-smithy-experimental/src/hyper_1_0.rs:634-665 | A run in which one call builds, caches and returns its own connector and releases the lock |
| `UpdateFlow.ReadResponseField` | sources/api/apiclient/src/update.rs:130-147 | The cursor loop computes the string it ends on, or nothing |
| `UpdateFlow.FieldIsNestedIff` | sources/api/apiclient/src/update.rs:130-147 | The field read is the nested field if and only if the path meets no string before its end |
| `UpdateFlow.RecordReadAsType` | sources/api/apiclient/src/update.rs:130-147 | A string in place of the command record is read as its type |
| `UpdateFlow.AwaitStatus` | sources/api/apiclient/src/update.rs:195-309 | Fewer polls than attempts, at most five failed ones; every outcome told by the first decisive poll within budget, or by its absence; the remaining time never underflows |
| `UpdateFlow.JudgeMeaning` | sources/api/apiclient/src/update.rs:254-307 | Every poll by its code and its record: LOCKED leaves the matter open and is no failure, other codes fail, a record of the command under another timestamp succeeds or is refused with its status and stderr |
| `UpdateFlow.BeforeMeaning` | sources/api/apiclient/src/update.rs:185-204 | What the first status gives to compare with; a system that never had a command answers 404, which is fine |
| `UpdateFlow.OrdinaryWaitIff` | sources/api/apiclient/src/update.rs:173-310 | A wait whose polls find the lock held or fail until one shows the command done succeeds if and only if fewer than five failed and that one is within the attempts |
| `UpdateFlow.BusyWaitSucceeds` | sources/api/apiclient/src/update.rs:265-269 | On a new system, with the lock held for any number of polls within the attempts, the wait succeeds |
| `UpdateFlow.DecidesOnce` | sources/api/apiclient/src/update.rs:215-309 | At most one poll decides |
| `UpdateFlow.GivingUpMeansNone` | sources/api/apiclient/src/update.rs:215-236 | Giving up implies that no poll within budget was decisive |
| `UpdateFlow.SuccessIsGenuine` | sources/api/apiclient/src/update.rs:278-307 | A success rests on genuine nested command and status fields; the nested timestamp, if there is one, differs from the earlier one |
| `UpdateFlow.UnchangedAcceptedIff` | sources/api/apiclient/src/update.rs:191-307 | For every first status and poll: the poll is accepted although both record the same timestamp if and only if it records the command as successful, neither has a timestamp, and the first does not read as "missing" |
| `UpdateFlow.UnchangedStatusSucceeds` | sources/api/apiclient/src/update.rs:173-310 | A whole wait in which the server's status never changes and still counts as success |
| `UpdateFlow.WaitRequest` | sources/api/apiclient/src/update.rs:173-310 | Success if and only if status, request and the deciding poll all say so, returning that poll's body; the request is issued exactly when the earlier status is known; which error a failed status or request gives |
| `UpdateFlow.Apply` | sources/api/apiclient/src/update.rs:73-101 | Success if and only if prepare and activate were both seen to succeed, and exactly which commands are issued |
| `UpdateFlow.CheckRequired` | sources/api/apiclient/src/update.rs:53-70 | An update is called for if and only if the refresh succeeded with a state other than Idle and Ready |
| `UpdateFlow.UpdateApply` | sources/api/apiclient/src/main.rs:1193-1216 | The exact commands of every run of `update apply`, and when it succeeds |
| `UpdateFlow.UpdateSafety` | sources/api/apiclient/src/main.rs:1193-1216 | Activate only after prepare was seen to succeed, reboot only after both and on request, and with `--check` nothing beyond the refresh unless an update is called for |
| `UpdateFlow.CheckedUpdate` | sources/api/apiclient/src/main.rs:1193-1202 | With `--check`, a successful refresh in state Idle or Ready is followed by nothing, in any other state by exactly what happens without the check |
| `UpdateFlow.UncheckedUpdate` | sources/api/apiclient/src/main.rs:1193-1202 | A refresh not seen to succeed is followed by nothing |
| `UpdateFlow.UpdateProgress` | sources/api/apiclient/src/main.rs:1193-1216 | When each command is issued and seen to succeed, in both directions: nothing is held back, and nothing is issued twice |
| `Redaction.PointerRoundTrip` | sources/logdog/src/log_request.rs:195-201 | Every list of tokens survives being written as a JSON pointer and read back |
| `Redaction.PointerIff` | sources/logdog/src/log_request.rs:197-198 | A text is a pointer exactly when it is empty or begins with a slash |
| `Redaction.IndexIff` | sources/logdog/src/log_request.rs:198-198 | A token is an array index exactly when it is that number printed in decimal |
| `Redaction.TargetsIff` | sources/logdog/src/log_request.rs:197-201 | Exactly the patterns that are pointers count |
| `Redaction.PatternsPointThere` | sources/logdog/src/log_request.rs:28-37 | The patterns point to the places they were written for |
| `Redaction.PatternsAsWritten` | sources/logdog/src/log_request.rs:28-37 | The six patterns of the program are the pointers to the six places, and read back as those places |
| `Redaction.StripUserData` | sources/logdog/src/log_request.rs:167-186 | The recursive overwrite computes the strip function |
| `Redaction.RedactSettings` | sources/logdog/src/log_request.rs:195-202 | The pointer pass followed by the strip |
| `Redaction.StripIsMask` | sources/logdog/src/log_request.rs:167-186 | Stripping is masking every `user-data` member at any depth |
| `Redaction.OverwriteAllIsMask` | sources/logdog/src/log_request.rs:195-201 | The pointer pass is masking the existing targets, whatever their order or nesting |
| `Redaction.RedactionIsMask` | sources/logdog/src/log_request.rs:195-202 | Both passes are one masking by the sensitive paths |
| `Redaction.RedactionCompleteAndMinimal` | sources/logdog/src/log_request.rs:195-202 | Every existing sensitive path shows "REDACTED" or lies inside one that does; every other path shows what it did |
| `Redaction.PassesCommute` | sources/logdog/src/log_request.rs:195-202 | The passes may run in either order |
| `Redaction.RedactionIdempotent` | sources/logdog/src/log_request.rs:195-202 | Redacting again changes nothing |
| `Redaction.SensitiveSettingsHidden` | sources/logdog/src/log_request.rs:28-37 | Each of logdog's sensitive settings, where it exists, is hidden |
| `CommandLine.ScanArgs` | sources/api/apiclient/src/main.rs:358-412 | The argument loop computes the scan, or ends in usage |
| `CommandLine.ParseExecArgs` | sources/api/apiclient/src/main.rs:497-534 | The exec parser's loop computes its function, or ends in usage |
| `CommandLine.ExecLineMeaning` | sources/api/apiclient/src/main.rs:358-534 | For every exec line with options anywhere, flags around the target and words behind `--`: level and socket are those of the last such option or the defaults, the terminal choice is what the last flag says or open, the target is that word and the words are the command |
| `CommandLine.OptionsMeaning` | sources/api/apiclient/src/main.rs:358-412 | For every line without `--`: the last level, verbose or socket option counts wherever it stands, the first plain word that is a subcommand is it, the other plain words are its arguments in order |
| `CommandLine.TargetMeaning` | sources/api/apiclient/src/main.rs:497-521 | Flags before and after the target set the terminal choice, the last one counting, and nothing else |
| `CommandLine.RefusedWords` | sources/api/apiclient/src/main.rs:366-382 | Help, or `--` before any subcommand, is refused whatever surrounds it |
| `CommandLine.RefusedLevel` | sources/api/apiclient/src/main.rs:385-391 | A level that is not known is refused |
| `CommandLine.ValueMissing` | sources/api/apiclient/src/main.rs:385-399 | An option without its value at the end is refused |
| `CommandLine.SeparatorElsewhere` | sources/api/apiclient/src/main.rs:376-379 | For other subcommands `--` is an argument like any other |
| `CommandLine.CommandTakesAll` | sources/api/apiclient/src/main.rs:502-521 | Once a command has begun every further word belongs to it, dashed or not |
| `CommandLine.CommandIsWordsIff` | sources/api/apiclient/src/main.rs:502-527 | After the target, words become the command if and only if there are some and the first has no leading dash |
| `CommandLine.BehindSeparator` | sources/api/apiclient/src/main.rs:366-380 | Words behind `--` reach the exec parser unchanged and touch no global option |
| `CommandLine.WordsPassThroughIff` | sources/api/apiclient/src/main.rs:358-412 | Through both parsers, words behind `--` become exactly the command, with options, target and tty as set before it, if and only if there are some and the first has no leading dash |
| `CommandLine.DashedWordRefused` | sources/api/apiclient/src/main.rs:502-514 | `exec control -- -x` is refused |

## Left out

- TOML and JSON reading and writing, zvariant encoding, finding and sorting files: the models start from parsed values in load order and end with the structures to be written.
- whippet's broker, socket and child process handling, and the broker's own engine: that the highest priority decides is assumed throughout, and how a record matches a request only in `WhippetAccess`.
- The passwd lookup is a fixed function; a database that changes during a run is not modelled.
- RecordMeaning: requires at most twice PRIORITY_BASE rules, beyond which default rules reach into the band of user rules; AccessMeaning has the same bound, which `AccessReach` shows to be exact.
- Compile: states record meaning under that bound and connect meaning where default priorities do not wrap; when it accepts is stated without a bound.
- `find_priority_threshold` sorts and takes the first; `Threshold` is the maximum, which is what that computes.
- Rule vectors and JSON trees behind `&mut` are values handed in and out, so aliasing is not modelled; Rust excludes it.
- The apiserver side of exec: a server that takes messages in order, reports the count it has written and announces any maximum it likes.
- NoDeadlock: states that a way on exists from every state, not that every fair schedule takes it.
- Message counters of exec are unbounded numbers; failing sends on the client's own channel are not modelled.
- The heartbeat's pings and its stop on a poisoned mutex; sleeps last exactly as long as asked.
- Fetching and merging settings in `apiclient get`, and its shortcut when nothing is excluded.
- The rest of `hyper_1_0.rs` (TLS, proxies, timeouts) and lock poisoning.
- The exit status in a failed update command's error, the user-visible notices and the remaining `apiclient` subcommands with their parsers.
- Terminal modes, signals, logging, usage texts and exit codes.
- Shell-style matching of logdog's patterns, which a comment mentions: they are JSON pointers (RFC 6901), as the code uses them.
- Other crates (rottweiler, xfscli, cfsignal, metricdog, imdsclient, bloodhound, netdog and more): plumbing around commands and services, or checks of small domains.
