# nostrhost-control: a verified model

This project models the two state machines of nostrhost-control and the data rules that connect them, in
Dafny 4.11, and proves properties of all their runs. `dafny verify dfyconfig.toml` checks everything.

**Control plane.** `PolicyStore.dfy` is the policy store: five string-keyed buckets (admins, banned, allowed,
allowed kinds, denied kinds) changed by atomic transactions, with the two Sync methods as the loops they are.
`Boot.dfy` is relay assembly: the fixed order of transactions that reconciles the stored policy with the
configuration, and a closed form of what it makes of any store; `BootRoles.dfy` reads it off key by key.
`BootTheorems.dfy` says when booting twice differs from booting once, and why no boot, even one that dies half
way, leaves a key both allowed and banned. `Relay.dfy` is the pipeline of eight reject hooks, the NIP-86 calls
guarded by `IsAdmin`, and runs that mix boots, crashed boots, calls and submissions; `RelayRuns.dfy` holds the
theorems over whole runs. `Admission.dfy` and `Calls.dfy` write out the rules of admission and the effects of
the calls. `KindPolicy.dfy` and `Decimal.dfy` show that buckets of decimal strings are sets of integers and that
the kind policy is an order-independent join. `Pruner.dfy` is the hourly pruner and its truncated query.

**Event rules.** `Json.dfy` gives JSON documents with the decoding rules of Go's encoding/json (names matched
without regard to case, repeated names applied in order, null changing nothing, one type mismatch making the
whole decode report an error while the rest is still stored). `EventModel.dfy` is the schema validator,
`Headers.dfy` what it decodes, member by member, `Envelopes.dfy` what acceptance guarantees, `EventProtocol.dfy`
the wordings of the rejections and the substring dispatch that turns them into codes, `RuleTable.dfy` the rules
of each kind as an ordered table, and `Dispatch.dfy` the proof that the dispatch names the first rule of that
table that fails. `Text.dfy` has the string functions these use.

**Notification service.** `Classifier.dfy` reduces events to items. `NotifyPolicy.dfy` validates, indexes and
matches the policy. `PolicyFaults.dfy` says which fault is reported, `Severities.dfy` states matching and
sorting by the names of severities. `DigestFormat.dfy` is the in-place stable sort and the message text,
`Messages.dfy` what a reader finds in it. `Digest.dfy` is the queue shared by the event loop and the flush, as
interleaved atomic steps (add, swap, send one). `Service.dfy` joins them, and `ServiceRuns.dfy` holds the
theorems over runs in which the flush comes between any two rules of an event. `Cursor.dfy` is the subscription
loop with its persisted cursor; `CursorRuns.dfy` puts it beside a relay whose store grows, over sessions that
crash at any point, inside a save too, and says exactly what is lost, what is repeated and when the service can
start again; `CursorLosses.dfy` shows each way of losing an event in a run.

Conventions. `Options.Option` stands for a missing value. Whether a string is a valid public key is a parameter
(`KeyCheck`) of which only `!valid("")` is ever used; decoding an npub is a parameter (`Decoder`); the text a
failing JSON decode prints is a parameter; whether a send or a save succeeds is chosen by the environment.
The embedded database refuses to store an empty key, so a transaction that would do so changes nothing.
`Fold`, `Run` and the other specification functions say what happens; the methods of the classes do it, loop
by loop, and are proved equal to them.

## Where the code and its documentation differ

The model follows the code.

- EVENT-PROTOCOL.md section 4 says denied kinds are rejected, and the configuration has `denied_kinds`, but
  nothing reads it (internal/config/config.go:41): kinds are denied only by NIP-86 calls, which no boot undoes.
- EVENT-PROTOCOL.md section 2.2 lets a subject author its own 31102; the author hook admits admins only
  (internal/relay/server.go:311-316).
- EVENT-PROTOCOL.md section 5 speaks of a configured administrator; an admin granted over NIP-86 may call too,
  until the next boot (`RelayRuns.GrantedKeyCalls`), and only such a grant makes the difference
  (`RelayRuns.UngrantedCallersAreConfigured`).
- The comment on the author hook lists 31100-31102 together with the decisions that are deferred to another
  daemon (internal/relay/server.go:303-305); the code requires an admin for them.
- internal/relay/server.go:74-76 says a removed key loses its authority at the next restart. A key that is still a
  stored admin at that restart also loses its allow entry, whatever the reason of that entry, even where the key
  is the configured server key; see `BootTheorems.OneBootSettles`.
- internal/policy/store.go:91-92 says the admin sync replaces the "admin" allow entries with exactly the configured
  keys. It finds the entries to remove by the stored admins, so an admin revoked over NIP-86 before leaving the
  configuration keeps its entry (`BootTheorems.RevokedAdminKeepsEntry`, `RelayRuns.RevokedThenDropped`);
  `BootTheorems.AdminEntriesAreConfigured` says exactly when the promise holds.
- cmd/nostrhost-notify/main.go:23-24 says restarts resume from the persisted cursor. A save empties the file before
  it writes it (main.go:45-51), and a file cut short does not load (main.go:39-41, 63-66), so after a save that
  fails or dies half way no restart does, unless a later save of the same session succeeds: `CursorRuns.RestartsUnlessTorn`, `CursorRuns.TornStopsService`,
  `CursorLosses.TornSaveStops`.
- cmd/nostrhost-notify/main.go:68-70 says no event published while the service was down is lost. From the first
  session that gets a cursor onto disk, and beside a relay that answers in full and oldest first, that holds
  exactly of the events no older than the cursor on disk when they are published (`CursorRuns.PublishedWhileDown`), as long
  as no save tears the file. An older one is lost, and the relay, which bounds times from above only, admits it
  (`CursorLosses.BackdatedEventIsLost`). A reply truncated at the relay's default limit, a reply that comes newest
  first, and a failed first save lose events as well (`CursorLosses.TruncatedReplyLoses`, `NewestFirstLoses`,
  `FailedFirstSaveLoses`).
- internal/notify/digest.go:78-83 writes each item as a line of the digest. Nothing keeps line breaks out of a
  summary, so an accepted notice can take several (`DigestFormat.AcceptedNoticeBreaksLine`).

## Model

| member | source | states |
|---|---|---|
| PolicyStore.Store.Open | internal/policy/store.go:54-62 | Seeding is exactly the run of its transactions: grant and allow each non-empty admin, then allow each kind. |
| PolicyStore.Store.SyncAdmins | internal/policy/store.go:96-134 | The two loops compute: admins become exactly the wanted keys, obsolete admins lose their allow entry whatever its reason, wanted keys are allowed as "admin", bans are untouched. |
| PolicyStore.Store.SyncAllowed | internal/policy/store.go:195-232 | The two loops compute: entries of this reason become exactly the wanted keys, which lose their bans; other reasons stay unless re-labelled. |
| Decimal.ItoaRoundTrip | internal/policy/store.go:381-391 | Parsing undoes printing on every 64-bit integer. |
| Decimal.ItoaIsCanonical | internal/policy/store.go:381-383 | Printing puts a sign only before a negative number and no leading zero but in "0". |
| Decimal.ItoaInjective | internal/policy/store.go:381-383 | Two integers never print alike. |
| KindPolicy.KindsOfMember | internal/policy/store.go:275-285 | For every integer, having its key in a bucket is having it in the bucket's set of integers. |
| KindPolicy.KindAllowedRefinesSets | internal/policy/store.go:275-286 | The string-keyed verdict is the one of the two integer sets: not denied, and listed unless nothing is. |
| KindPolicy.ListInts | internal/policy/store.go:369-379 | The loop and sort return exactly the non-negative members, each once, in strictly increasing order. |
| KindPolicy.KindPolicyIsJoin | internal/policy/store.go:275-296 | Histories that issue the same set of kind commands, in any order and repetition, give the same verdict on every kind. |
| KindPolicy.DeniedForever | internal/policy/store.go:277-280 | After any history that denies a kind, it is not allowed. |
| KindPolicy.ThreeChangesHappen | internal/policy/store.go:275-286 | The bound of three verdict changes is reached. |
| Boot.New | internal/relay/server.go:64-106 | Assembling the relay over any stored policy leaves exactly the closed form: admins, bans, allow entries by role, kinds. |
| Boot.BootClosedForm | internal/relay/server.go:64-106 | The boot transactions run in order equal the order-free closed form, for every store and configuration. |
| BootRoles.AdminKeysAre | internal/relay/server.go:199-205 | The configured admins are the non-empty admin keys and the operator. |
| BootRoles.BootKeyByKey | internal/relay/server.go:64-106 | Key by key and from the configuration's fields alone: who is an admin after a boot, whose ban stays, and which allow entry each key has. |
| BootRoles.BootKinds | internal/policy/store.go:60-62 | A boot keeps every denied kind and adds exactly the configured kinds to the allowed ones. |
| BootTheorems.OneBootSettles | internal/relay/server.go:71-80 | A second boot of the same configuration changes nothing if and only if the valid server key was not a stored admin now configured neither as admin nor as notice, publisher or agent key. |
| BootTheorems.TwoBootsSettle | internal/relay/server.go:64-106 | Two boots of one configuration always reach a fixpoint. |
| BootTheorems.DemotedServerKeyNeedsTwoBoots | internal/relay/server.go:71-77 | In the exceptional case the server key's allow entry is missing after one boot, and restoring it is all the second boot does. |
| BootTheorems.DemotedServerKeyExample | internal/policy/store.go:116-123 | Every valid key, as the server key under an operator of another name, has a store for which this happens. |
| BootTheorems.SyncAdminsDisjoint | internal/policy/store.go:124-131 | The admin sync alone keeps allowed and banned apart if and only if it wants no banned key. |
| BootTheorems.SyncAdminsCollides | internal/policy/store.go:124-131 | A concrete sync after which a key is both allowed and banned. |
| BootTheorems.BootPrefixDisjoint | internal/relay/server.go:64-106 | A boot cut off after any number of its transactions still leaves allowed and banned apart. |
| BootTheorems.AdminEntriesAreConfigured | internal/policy/store.go:91-123 | After a boot every "admin" allow entry is a configured admin's if and only if every stored one belonged to a stored admin or to a configured key. |
| BootTheorems.RevokedAdminKeepsEntry | internal/policy/store.go:105-141 | It does not always hold: a configured admin revoked over NIP-86 and then dropped from the configuration keeps its "admin" entry at every later boot, where dropping the key alone removes it. |
| Relay.AdmissionIsExact | internal/relay/server.go:152-162 | The ordered hooks admit exactly the submissions that satisfy every rule, stated without order. |
| Admission.JudgeIsFirstRule | internal/relay/server.go:152-162 | The answer to every submission is the refusal of the first of ten rules, written out with their kinds and bounds, that does not hold. |
| Admission.UnauthenticatedIsRefused | internal/relay/server.go:214-219 | Over a connection that never authenticated the twenty default kinds are refused when none are configured, exactly the configured ones otherwise, and for any other kind authentication makes no difference. |
| Relay.AlwaysDisjoint | internal/policy/store.go:166-190 | In every state of every run, crashed boots included, no key is both allowed and banned. |
| Relay.RootedAuthority | internal/relay/server.go:357-391 | In every running state each admin is configured or linked to a configured admin by a chain of grants since the last boot, each made by someone who was admin at that moment. |
| RelayRuns.AdmissionSafety | internal/relay/server.go:239-326 | Every event ever admitted kept each of the ten rules then, under the last boot's configuration; authors of definitions were rooted in configured admins, authors of execution events too or the server key; kinds passed the integer sets. |
| Calls.RefusedCallDoesNothing | internal/relay/server.go:357-366 | A call by someone who is not an admin, or with no relay running, changes nothing. |
| Calls.IdleInputsDropOut | internal/relay/server.go:357-366 | In any run, leaving out a refused call or a submission leaves every later state as it is. |
| Calls.ChangesAreAuthorised | internal/relay/server.go:357-391 | Every step of a run that changes the policy is a boot or a call by someone who was an admin of the running relay. |
| Calls.AdminsCallIsCarriedOut | internal/relay/server.go:368-391 | An admin's call has exactly the effect of its method on the buckets, and nothing for an empty key. |
| Calls.ServesExactly | internal/relay/server.go:64-197 | A relay serves a configuration exactly when it booted it and has since neither stopped nor tried to boot again. |
| Calls.CrashedBootCommits | internal/relay/server.go:64-106 | A boot that dies commits its transactions one by one, none at first and in the end those of a whole boot, and serves nothing. |
| RelayRuns.AnonymousCallsDoNothing | internal/relay/server.go:359-366 | The empty key never enters the store, so an unsigned management call changes nothing in any run. |
| RelayRuns.AllowEntriesHaveOrigin | internal/relay/server.go:64-106 | In every run from a store that allows nobody, each allow entry goes back to an earlier boot that configured the key in that role, or to an admin's call that allowed it for that reason. |
| RelayRuns.RevokedThenDropped | internal/policy/store.go:137-141 | In every run: who is served as an admin and leaves the configuration loses the allow entry at the next boot, but not if an admin revoked the authority first. |
| RelayRuns.UngrantedCallersAreConfigured | internal/relay/server.go:357-366 | With no grant since the last boot, every caller whose calls are carried out is a configured admin. |
| RelayRuns.GrantedKeyCalls | internal/relay/server.go:357-391 | A granted key that is configured nowhere does call: boot, grant, and an effective call by that key. |
| RelayRuns.BanHolds | internal/relay/server.go:255-258 | A ban survives every input but a boot configuring the key or a call allowing it, and until then nothing the key signs is admitted. |
| RelayRuns.KindVerdictOfRun | internal/relay/server.go:381-382 | Two whole runs issuing the same set of kind commands give the same verdicts. |
| RelayRuns.VerdictChangesAtMostThrice | internal/policy/store.go:275-286 | Over any run the verdict on one kind changes at most three times. |
| RelayRuns.DeniedKindStaysOut | internal/relay/server.go:248-253 | Once an admin's call denied a kind, no later state allows it and no event of it is admitted. |
| Pruner.EventStore.QueryNewest | internal/relay/server.go:113-120 | An unlimited query returns the newest events of the kind up to the default limit. |
| Pruner.EventStore.PruneKind | internal/relay/server.go:463-474 | The loop removes exactly the expired events among those the query returned. |
| Pruner.RoundDeletes | internal/relay/server.go:463-474 | A round deletes no other kind and nothing at or after the cutoff, and exactly max(0, min(expired, limit - unexpired)) events. |
| Pruner.PruningConverges | internal/relay/server.go:450-474 | With enough rounds no expired event is left if and only if there was none or the unexpired ones do not fill the query. |
| Pruner.FullQueryNeverPrunes | internal/relay/server.go:465-473 | Where unexpired events fill the query, no number of rounds deletes anything. |
| Headers.HeaderMeans | internal/eventmodel/eventmodel.go:260-277 | The header decodes exactly when no member of it has a value of another type, and each field is the last value its members declare. |
| Headers.NoticeMeans | internal/eventmodel/eventmodel.go:187-206 | The same for the notice convention. |
| Json.IntFieldIsLast | internal/eventmodel/eventmodel.go:260-277 | An optional integer is the last integer or null given for it, null reading as absent. |
| Json.NamesIgnoresCase | internal/eventmodel/eventmodel.go:260-266 | A member matches a field letter by letter without regard to case, and by the two non-ASCII letters that fold into it. |
| Text.TrimSpaceIs | internal/eventmodel/eventmodel.go:391-409 | Trimming takes off the white space at both ends and all of it; a text is blank exactly when it is white space throughout. |
| Envelopes.TrustPolicyAcceptance | internal/eventmodel/eventmodel.go:296-314 | A 31101 is accepted if and only if it has a d tag and a readable header whose members declare a schema, with every schema declared >= 1, revision >= 0 and subject equal to the d tag if non-empty. |
| Envelopes.DefinitionEnvelope | internal/eventmodel/eventmodel.go:270-291 | The members of an accepted 31100 or 31102 obey the header rules whenever its header is readable. |
| Envelopes.CapabilityAcceptance | internal/eventmodel/eventmodel.go:316-350 | The exact acceptance condition of a 31100, in which an unreadable header passes. |
| Envelopes.IdentityAcceptance | internal/eventmodel/eventmodel.go:352-400 | The exact acceptance condition of a 31102: key, fields, a user name unless disabled, and a header that is unreadable or holds. |
| Envelopes.MistypedEnvelopeIsAccepted | internal/eventmodel/eventmodel.go:274-277 | The decoding condition is needed: a concrete accepted capability with schema 0. |
| Envelopes.DelegationExpires | internal/eventmodel/eventmodel.go:208-226 | A delegation otherwise well formed is accepted if and only if its expiry is the text of a positive 64-bit integer, plus sign and leading zeros allowed. |
| RuleTable.FindIsFirst | internal/eventmodel/eventmodel.go:208-211 | A lookup returns the first tag that carries the key with a value, and fails exactly when no tag does. |
| RuleTable.ValidateFollowsTable | internal/eventmodel/eventmodel.go:146-172 | For every event the validator reports the first rule of its kind's ordered table that the event breaks, and accepts exactly the events that break none; the table speaks of tags and members, with kinds and values written out. |
| Json.LastNamedIsLast | internal/eventmodel/eventmodel.go:330-346 | A raw field is the value of the last member of exactly that name, and absent only when there is none. |
| Text.TrimKeeps | internal/eventprotocol/eventprotocol.go:81-93 | Trimming a reason neither hides nor creates any phrase the dispatch looks for. |
| Dispatch.DispatchIsFaithful | internal/eventprotocol/eventprotocol.go:81-142 | For every rejection the validator can produce, the code read off the wording is the code of the rule that failed; where the wording ends in decoder text, if and only if that text holds none of the earlier phrases. |
| Dispatch.SubjectAndJsonCodes | internal/eventprotocol/eventprotocol.go:83-94 | A subject mismatch is never reported as a missing d tag, and content caught by the plain JSON check is schema-invalid, not content-not-json. |
| Dispatch.JudgeFollowsTable | internal/eventprotocol/eventprotocol.go:58-67 | End to end, an event is accepted exactly when it breaks no rule of its kind's table, and otherwise gets the code of the first rule it breaks. |
| Classifier.NoticeItem | internal/notify/classify.go:49-61 | The item of every notice, field by field: the last string given for a field, its kind's default where that is empty or missing, and only defaults when any part is unreadable. |
| Classifier.RequestItem | internal/notify/classify.go:71-81 | The item of every request: an informational "operation" that names the last tool given. |
| Classifier.ResultItem | internal/notify/classify.go:86-102 | The item of every result, by what its members say about "ok": a warning for a failure, informational otherwise. |
| Json.BoolFieldIs | internal/notify/classify.go:86-95 | An optional boolean is the last one given; after a null, or when none is given, it is absent, unless a value of another type follows, which leaves it false. |
| Classifier.AcceptedEventsClassify | internal/notify/classify.go:49-102 | Every accepted and kept event gets a known severity and a non-empty class and summary, whatever its content. |
| Classifier.NoticeSeverityAgrees | internal/eventmodel/eventmodel.go:187-206 | For notices that are JSON or empty, the validator accepts if and only if the consumer's severity is known. |
| Classifier.AcceptedRequestNamesTool | internal/notify/classify.go:71-81 | The summary of an accepted request names its tool, which is not blank. |
| DigestFormat.SortBySeverityDesc | internal/notify/digest.go:91-99 | The in-place insertion sort leaves the stable order by severity of what the array held. |
| DigestFormat.SortIsStable | internal/notify/digest.go:92-93 | Within each rank the order of arrival is kept. |
| DigestFormat.SortIsOrderedPermutation | internal/notify/digest.go:91-99 | The result is in non-increasing rank and a permutation. |
| DigestFormat.SortIsUnique | internal/notify/digest.go:91-99 | No other sequence is ordered by rank and agrees with the input rank by rank. |
| DigestFormat.FormatDigest | internal/notify/digest.go:73-84 | The body is the header and the lines of the sorted items; the input array is not written. |
| DigestFormat.OneLinePerItem | internal/notify/digest.go:78-83 | The header carries the true count, and there is exactly one line per item if and only if no item's text breaks a line. |
| DigestFormat.AcceptedNoticeBreaksLine | internal/notify/digest.go:78-83 | The exception is real: a system notice with a two-line summary is accepted, kept, and takes two lines of its digest. |
| Messages.DigestShowsEveryItem | internal/notify/digest.go:73-84 | A digest opens with the number of its items and shows each, in order, on a line with its class, severity and summary in their places. |
| Messages.ImmediateShows | internal/notify/digest.go:86-89 | An immediate message has the item's class, severity and summary in their places. |
| Digest.Digest.Flush | internal/notify/digest.go:37-53 | A flush is a schedule of these steps that empties the queues, fails if and only if some send failed, and attempts every recipient. |
| Digest.RunConserves | internal/notify/digest.go:27-53 | Under every schedule, handed over then in flight then pending spells out exactly what arrived for each recipient, in order; no batch is empty. |
| Digest.FailuresAreIsolated | internal/notify/digest.go:34-36 | Schedules that differ only in which sends failed hand over the same batches and leave the same queues. |
| Digest.FlushHandsOverWhatHadArrived | internal/notify/digest.go:37-53 | A completed flush has handed over exactly what had arrived before its swap, and nothing that arrived during it. |
| Digest.QuietMeansDelivered | internal/notify/digest.go:27-53 | From an empty digest, when nothing is queued or in flight, each recipient got exactly what arrived for it. |
| NotifyPolicy.Policy.Validate | internal/notify/policy.go:106-150 | The loops report the first fault in the source's order, and on success leave every recipient decoded in place and indexed. |
| NotifyPolicy.ValidationAccepts | internal/notify/policy.go:106-150 | Validation succeeds if and only if every recipient decodes and is listed once and every rule is well formed for a listed recipient. |
| PolicyFaults.FirstFaultIs | internal/notify/policy.go:106-150 | Validation reports the first check that fails, of the first recipient at fault or else of the first rule at fault, against a table written apart. |
| NotifyPolicy.LookupAgreesWithList | internal/notify/policy.go:153-159 | In a validated policy the lookup gives the decoded key of the unique listed recipient and fails exactly on unlisted npubs. |
| NotifyPolicy.Policy.Match | internal/notify/policy.go:163-175 | The loop computes the filter by class and rank. |
| NotifyPolicy.MatchSelectsQualifying | internal/notify/policy.go:161-175 | The result is the rules at exactly the qualifying positions, in file order. |
| NotifyPolicy.MatchIsMonotone | internal/notify/severity.go:5-17 | Raising an event's rank yields a list that contains the old one as a subsequence. |
| Severities.RankOrder | internal/notify/severity.go:8-17 | Critical ranks above warning above info, and any other text as info. |
| Severities.MatchByName | internal/notify/policy.go:161-175 | By the names of the severities, matching selects exactly the rules that list the class and whose threshold the event reaches. |
| Severities.RaisingLosesNobody | internal/notify/policy.go:161-175 | Raising an event from info to warning or critical, or from warning to critical, loses no rule. |
| Severities.SortedByName | internal/notify/digest.go:91-99 | In a digest criticals come first, then warnings, then everything else. |
| Service.Service.HandleEvent | internal/notify/service.go:47-67 | The loop makes, for each rule the event sets off and in file order, one send or one digest entry, and nothing else. |
| Service.DeliveryIsTotal | internal/notify/service.go:52-66 | With a validated policy the sends are, one to one and in file order, those of the immediate rules set off, each to the decoded key of its rule's recipient; the digest entries those of the summary rules, each for a listed recipient; together they number the rules set off. |
| ServiceRuns.DigestEndToEnd | internal/notify/service.go:47-67 | In every run, with the flush interleaved between any two rules of any event, handed over then in flight then pending then still to be queued is exactly what the events received put into each recipient's digest, in order. |
| ServiceRuns.SendsEndToEnd | internal/notify/service.go:52-64 | In every such run the sends made, then those still to be made, are exactly those the events received call for, each to the decoded key of its rule's recipient. |
| ServiceRuns.NoDigestDropped | internal/notify/service.go:69-78 | In every such run every batch handed over is non-empty and sent to the decoded key of its recipient. |
| ServiceRuns.HandleEventIsRun | internal/notify/service.go:47-67 | The loop over an event's rules is such a run, with nothing in between. |
| Cursor.Notifier.RunSession | cmd/nostrhost-notify/main.go:63-119 | One process, the ends of its saves and its crash point included, has exactly the specified effect on the cursor file, the cursor and the handled events; from a torn file it does nothing. |
| Cursor.CutTextIsUnclosed | cmd/nostrhost-notify/main.go:45-51 | No proper prefix of the saved text is a JSON object, so a torn file never loads. |
| Cursor.TextIsReadBack | cmd/nostrhost-notify/main.go:32-51 | The whole text is an object whose one member parses back to the time saved. |
| Cursor.MemoryLeads | cmd/nostrhost-notify/main.go:111-117 | Within a session the cursor in memory never moves back and is never behind the file, whatever the order of events and the failed saves. |
| CursorRuns.SessionIsLoop | cmd/nostrhost-notify/main.go:63-119 | A session of a run, with events published during it, leaves in the file and among the handled events what the loop does. |
| CursorRuns.NothingIsLost | cmd/nostrhost-notify/main.go:108-119 | Under any crashes and however the saves end, torn files included, beside a relay that truncates nothing and delivers oldest first, every event from the base on that was published in time is handled or no older than the saved cursor, from which the next session starts while the file is whole. |
| CursorRuns.LostExactlyWhenLate | cmd/nostrhost-notify/main.go:108-119 | Beside such a relay an event from the base on is lost if and only if the cursor on disk had passed its time when it was published and its own session did not handle it. |
| CursorRuns.PublishedWhileDown | cmd/nostrhost-notify/main.go:68-70 | Of the events published while the service is down, exactly those older than the cursor then on disk are lost. |
| CursorRuns.DrainedLosesOnlyLate | cmd/nostrhost-notify/main.go:108-119 | In whatever order the relay delivers, newest first included: with complete replies and sessions that hand over all they owe, exactly the late events are lost that their own session did not handle. |
| CursorRuns.EarlyStopLoses | cmd/nostrhost-notify/main.go:108-119 | A session that stops early loses exactly what it still owed that is older than the saved cursor, beside what was lost before. |
| CursorRuns.NewestFirstStopLoses | cmd/nostrhost-notify/main.go:108-119 | Once a session has saved the newest event of a reply, stopping at any later delivery loses exactly what it still owes that is older than that event. |
| CursorRuns.RestartsUnlessTorn | cmd/nostrhost-notify/main.go:32-51 | While the service is down it can start again if and only if its last write to the file was not torn. |
| CursorRuns.TornStopsService | cmd/nostrhost-notify/main.go:63-66 | From a torn file no session ever starts and nothing more is handled, in any continuation in which nobody removes the file. |
| CursorRuns.WholeUnlessTears | cmd/nostrhost-notify/main.go:45-51 | A run in which no save tears the file keeps it whole, at the saved cursor, once it is there. |
| CursorRuns.RepairLoses | cmd/nostrhost-notify/main.go:67-75 | Removing a torn file and starting over loses exactly the unhandled events older than the restart. |
| CursorRuns.LossHasACause | cmd/nostrhost-notify/main.go:102-119 | Whatever the relay's order and limit, an unhandled event is behind the cursor on disk if and only if it was published late, overtaken while it was owed, or left out of a truncated reply and passed since. |
| CursorRuns.LostForever | cmd/nostrhost-notify/main.go:102-106 | No continuation of any kind handles a lost event, short of removing the cursor file. |
| CursorRuns.NotLostCanBeHandled | cmd/nostrhost-notify/main.go:102-106 | Any other stored event is handled by some continuation, as long as it is owed, or the file is whole and what the next session asks for fits the query limit. |
| CursorRuns.BaseIsFixed | cmd/nostrhost-notify/main.go:63-76 | Once a cursor is on disk the last one saved never moves back, the base never moves and the file stays, whole or torn, until someone removes it. |
| CursorRuns.BaseIsFirstSavingSession | cmd/nostrhost-notify/main.go:67-75 | The base is where the first session that got a cursor onto disk, since there was none, began. |
| CursorRuns.DuplicatesOnlyAtCursor | cmd/nostrhost-notify/main.go:108-119 | In every run whose saves all succeed, an event about to be handled was handled before only in an earlier session, and then its time is that of the cursor the session started from. |
| CursorRuns.RepeatedExactlyAtCursor | cmd/nostrhost-notify/main.go:102-106 | In such a run a session whose reply is complete repeats exactly the handled events at the cursor's time. |
| CursorLosses.BackdatedIsAdmitted | internal/relay/server.go:152-162 | Whatever the relay admits it also admits with any earlier time. |
| CursorLosses.BackdatedEventIsLost | cmd/nostrhost-notify/main.go:68-70 | Every admitted event of a subscribed kind has such a twin, admitted too, that an orderly run with every save succeeding loses. |
| CursorLosses.EmptyNoticeIsLost | internal/relay/server.go:152-162 | A concrete loss: on a relay just booted the notice key publishes two empty notices, the second dated earlier while the service is down; both are admitted and the second is lost. |
| CursorLosses.NewestFirstLoses | cmd/nostrhost-notify/main.go:108-119 | The order is needed: a complete reply that comes newest first, and a crash, lose an event published in time. |
| CursorLosses.TruncatedReplyLoses | internal/relay/server.go:113-120 | The limit matters: one event more than it, published while the service is down, loses the oldest although delivery is oldest first. |
| CursorLosses.FailedFirstSaveLoses | cmd/nostrhost-notify/main.go:71-75 | Before any cursor is on disk an event can be lost, after a failed first save. |
| CursorLosses.TornSaveStops | cmd/nostrhost-notify/main.go:45-51 | One crash inside one save: the event in hand is unhandled, no session can start, and removing the file and starting over later loses the event. |

## Left out

- khatru, badger, bbolt and go-nostr themselves: hooks run in order and the first refusal wins, a database update is atomic, `Tags.Find` returns the first tag with the key and a value. The framework's own kind check is an input of a submission.
- Signatures, NIP-42, NIP-98, NIP-17 and NIP-59, and nip19 decoding: parameters or absent.
- I/O errors of the database, and keys beyond its size limit: every transaction of the model commits, except one that would store the empty key.
- `Unban`, which nothing calls; IP blocks, relay information fields, statistics and the sorted listings of keys: single puts, gets and a library sort with no interacting invariant.
- Read gating: the hook looks only at the kinds a filter names, and no stronger guarantee is stated.
- Retention classes: the relay never consults them.
- The sender, configuration loading and defaults, signal handling and logging.
- The fold corpus: no Go code implements the fold.
- PruneKind: does not model a deletion that fails, or writes that arrive during a round; rounds are over one kind.
- RunSession: does not model a cursor file that somebody else changes, or one that cannot be read for other reasons than its contents.
- NothingIsLost: speaks of `HandleEvent` being called, not of delivery; queued digest items are memory only. Its relay answers in full and oldest first, and keeps the event; for any other order, and for replies truncated at the limit, `CursorRuns.LossHasACause` says what holds. Deletion of stored events, by the pruner or on request, is not in the runs.
- HandleEvent: the method runs to its end with nothing in between; a flush that comes between its steps is in the runs of `ServiceRuns`.
- Enqueue: the mutex is not modelled; each method is one step of a schedule because the source holds the lock throughout it.
- Validate: one that reports a fault leaves a partly filled policy, which the loader discards.
- OneLinePerItem: the parse of the count is stated for counts that fit a machine integer.
- DispatchIsFaithful: strings are sequences of characters, and the length of content is a number beside it, so byte lengths of non-ASCII text are not computed.
