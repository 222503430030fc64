# A verified model of TacLab

TacLab is a memory-only AAA appliance: TACACS+ (RFC 8907) and RADIUS clients are
matched to configuration, users authenticate and are authorized against an
immutable snapshot, and administrators change a runtime overlay that is compiled
into the next snapshot. This project models its stateful and algorithmic core in
Dafny and proves what that core promises. `dafny verify dfyconfig.toml` checks it.

| modules | subject |
|---|---|
| `EventRing`, `EventRingBuffer` | the event ring: a circular buffer that refines a growing log, cursor paging, bounded fan-out |
| `Network`, `ClientMatch` | CIDR prefixes and the three client indexes: the compile-time pair comparison makes the run-time match unique |
| `StateModel`, `StateMerge`, `StateTokens`, `StateEdits`, `StateManager` | baseline plus overlay, the edits, compilation, and laws over every run of mutations |
| `TokenRuns`, `TokenWitness` | bearer authentication and credential generations over runs |
| `SecretBag`, `SnapshotManager` | the manager object on the heap with its secret arrays |
| `Conversation`, `AuthService` | interactive authentication as a transcript automaton, and the session table around it |
| `Ranking`, `Policy`, `PolicyCompile`, `PolicyRequest`, `PolicyLaws` | the two-evaluator authorization engine |
| `ActionLoader` | cycle detection over local workflow actions |
| `EditDistance`, `Suggestion` | edit distance and the "did you mean" field |
| `Endpoints`, `RadiusPatch`, `EndpointPatch` | synthesis of endpoints from flat client fields, projection back, and client updates with their TACACS and RADIUS halves |
| `Basics` | options, results, bytes, string order, distinct sequences |

A component whose methods update fields is a class or a method with loops; its
contract ties the new state to a specification function (`Step`, `PageOf`,
`Outcome`, `React`, `Chain`, `Dist`, ...), and the laws are lemmas about these.
A run is a sequence of steps of the specification, so a law about runs holds for
the objects: the ghost field `run` of `SnapshotManager.Manager` and the ghost
transcripts of `AuthService.Service` record that each object makes such a run.

Open to any value: SHA and the baseline hash, the check of a password against a
PHC string and its derivation, canonical user names, validity windows and client
restrictions of users, document validation and the index compilers, secret files,
regular expressions, case folding, the lowering of names, and the value rules of
known arguments. They are functions or predicates that every theorem holds for;
time is an integer that comes with each call.

## Where the code and its promises part

- `TokenGeneration` is documented to survive unrelated mutations. A live token
  without a bound digest gets a new generation on every mutation
  (`TokenRuns.UnrelatedKeepsGenerationIffBound` gives the exact condition,
  `TokenWitness.UnboundTokenMoves` a manager on which it happens).
- An override token without a digest of its own answers to the baseline token's
  bearer (`TokenRuns.OverlayTokenAnswersIff`, `TokenRuns.BaselineBearerIff`,
  `TokenWitness.OverrideAnswersBaselineBearer`).
- A page of an empty ring answers cursor 0 whatever cursor was asked for, so a
  chain begun there forgets its cursor; `EventRing.PagingWorksIffBegunNonempty`
  gives the exact condition.
- On TLS a compiled index can still tie, when a certificate carries two names.
  `ClientMatch.TieIff` is the exact condition for any index,
  `ClientMatch.ThreeNamesTie` bounds the certificates that matter, and
  `ClientMatch.PairTiesIff` and `ClientMatch.TwoNamesTie` show that such pairs
  compile.
- The longest stored prefix is not always the narrowest network: a prefix written
  in the IPv4-mapped form counts 96 bits more. `ClientMatch.MappedPrefixWins` shows
  it in one client's list, `ClientMatch.MappedClientIsSelected` for the client that
  a match selects; the exact conditions are `ClientMatch.LongestIsNarrowestIff` and,
  over all clients, `ClientMatch.ChosenIsNarrowestIff`.
- A START with an oversize field is refused before the old session under its key
  is dropped: the first clauses of `AuthService.Service.Begin`, and
  `AuthService.OversizeStartKeepsTheSession` for a session that survives one.
- A flat patch that drops the legacy transport and leaves its secret is accepted,
  and its result does not match its endpoints
  (`Endpoints.DroppingLegacyBreaksTheMatch`); the exact conditions are in
  `Endpoints.PatchValidates` and, for every flat update, `EndpointPatch.FlatMatches`.

`suggestField` by itself depends on the order of a list that has an empty entry
(`Suggestion.OrderMatters` is such a list; `Suggestion.PromiseKept` and `Suggestion.PromiseKeptInEveryOrder` give the exact
conditions). The program is not affected: its only caller passes the list of
`yamlFields`, which names every field, so the result about the program is
`Suggestion.LoaderSuggestsTheLeast`.

## Model

| member | source | states |
|---|---|---|
| `EventRingBuffer.Ring.Accept` | internal/events/ring.go:202-237 | Accepting an event into the circular buffer is one step of the state machine over the ever-growing log: the ID is the next one, the oldest slot is overwritten and counted, and every subscriber with room is offered the event |
| `EventRingBuffer.Ring.TrySubscribe` | internal/events/ring.go:389-417 | Joining takes a slot of the 128 or is refused; the subscriber starts at the current end of the log |
| `EventRingBuffer.Ring.FanOut` | internal/events/ring.go:467-486 | The fan-out loop offers the event to each attached subscriber once and detaches exactly those whose buffer is full |
| `EventRingBuffer.Ring.CancelDetach` | internal/events/ring.go:492-505 | The first half of cancelling detaches the subscriber once and leaves its admission slot taken |
| `EventRingBuffer.Ring.CancelRelease` | internal/events/ring.go:404-417 | The second half gives the slot back exactly once |
| `EventRingBuffer.Ring.Close` | internal/events/ring.go:420-437 | Closing drops every attached subscriber and refuses later ones |
| `EventRingBuffer.Ring.ReadLocked` | internal/events/ring.go:323-366 | The loops over the circular buffer answer exactly the page the log prescribes: items, next cursor, hasMore, reset, overwritten, oldest and newest ID |
| `EventRingBuffer.Ring.HasMore` | internal/events/ring.go:353-364 | The second loop reports whether a retained event after the page still matches |
| `EventRingBuffer.Ring.Replay` | internal/events/ring.go:295-304 | Replay is the page of unlimited size |
| `EventRing.StepKeepsInv` | internal/events/ring.go:202-237 | Every operation keeps: IDs number the log, overwritten + retained = last ID, attached subscribers take slots and admissions stay within 128, and each subscription is served without gaps |
| `EventRing.SubscriberGetsEverything` | internal/events/ring.go:389-417 | Over every interleaving after joining, what a subscriber was sent is exactly the exportable events of an unbroken stretch of the log that reaches the present until a drop, a cancel or Close; attached <= admitted <= 128 |
| `EventRing.SentInOrder` | internal/events/ring.go:467-486 | What is sent has strictly increasing IDs |
| `EventRing.ReplayBridgesIntoLive` | internal/events/ring.go:295-304 | Subscribing before replaying leaves no gap and no duplicate: the replayed page followed by the live events above its newest ID is every matching event, once, in order, up to where the subscriber was served; one detached before the replay adds nothing and the page alone reaches the present |
| `EventRing.ResetMeansLoss` | internal/events/ring.go:333-336 | A page sets Reset exactly when an event after the cursor has been overwritten |
| `EventRing.ChainMissesNothing` | internal/events/ring.go:307-366 | A chain of reads interleaved with any Accepts, begun on a nonempty ring and never reset, returned every matching event after the starting cursor up to the cursor reached, each once and in order, and all of the log when the last page has no more |
| `EventRing.ChainEqualsReplay` | internal/events/ring.go:297-321 | Without Accepts in between, paging to the end returns what Replay returns, on an empty ring too |
| `EventRing.EmptyRingForgetsCursor` | internal/events/ring.go:323-334 | Every chain whose first read finds the ring empty collects what the chain from cursor 0 collects |
| `EventRing.PagingWorksIffBegunNonempty` | internal/events/ring.go:323-366 | For a nonzero cursor: no way of going on returns an earlier event, and none hides a loss, exactly when the ring held something at the first read, which that page shows as a newest ID other than 0 |
| `Network.CommonAddressSameNetwork` | internal/config/match.go:213-229 | Two stored prefixes of one family and length that contain one address are the same network |
| `Network.IpEqualIsAnEquivalence` | internal/config/match.go:199-211 | Address equality is equality of canonical forms |
| `Network.WithinIff` | internal/config/match.go:213-229 | Of two stored prefixes that share an address, one lies within the other exactly when it has at least as many effective bits; with masks of equal length these are the stored lengths |
| `ClientMatch.LongestContaining` | internal/config/match.go:213-229 | The loop finds the greatest stored length of a prefix of the right family that contains the address |
| `ClientMatch.LongestIsNarrowestIff` | internal/config/match.go:213-229 | The prefix so chosen is the narrowest network covering the address exactly when no covering prefix has more effective bits, which masks of equal length ensure |
| `ClientMatch.MappedPrefixWins` | internal/config/match.go:73-114 | ::ffff:10.0.0.0/104 is chosen before 10.1.0.0/16 for 10.1.2.3 although it is the wider network |
| `ClientMatch.ChosenIsNarrowestIff` | internal/config/match.go:159-178 | Over all clients: the network a finalist is chosen for is the narrowest of those that cover the peer exactly when none of them has more effective bits |
| `ClientMatch.MoreStoredBitsAreSelected` | internal/config/match.go:159-178 | Of two clients with one covering prefix each, the one with more stored bits is selected, whatever the priorities |
| `ClientMatch.MappedClientIsSelected` | internal/config/match.go:159-178 | Whatever the priorities, a client with the mapped prefix compiles beside one with 10.1.0.0/16 and is the one selected for 10.1.2.3, although the other's network lies within its own |
| `ClientMatch.Compile` | internal/config/match.go:48-71 | Compilation succeeds exactly when every client can be stored and no two stored clients collide; the index holds each placed client under its ID |
| `ClientMatch.CheckAmbiguity` | internal/config/match.go:264-280 | The pairwise loops accept exactly the indexes without a colliding pair, and the error names the colliding pair that comes first in the order of IDs |
| `ClientMatch.CompiledIsUnambiguous` | internal/config/match.go:282-302 | In a compiled TACACS index on the legacy transport, and in a compiled RADIUS UDP index, any two winners for a peer are the same client |
| `ClientMatch.Match` | internal/config/match.go:138-197 | Match returns the unique client of lowest priority number among the longest-prefix and certificate-only claimants, NotFound exactly when no client claims the peer, and Ambiguous with the two winners that come first in the order of IDs; on legacy and RADIUS UDP a compiled index never answers Ambiguous |
| `ClientMatch.SelectsOneResult` | internal/config/match_radius.go:140-163 | The index and the peer fix the result, the order of the map does not |
| `ClientMatch.Gather` | internal/config/match_radius.go:112-140 | Walking the index in any order collects exactly the clients with a claim, and the longest prefix among them |
| `ClientMatch.Winners` | internal/config/match_radius.go:144-160 | The two loops over the finalists and the sort give exactly those of lowest priority number, in the order of IDs |
| `ClientMatch.TlsTieNeedsTwoNames` | internal/config/match_radius_tls.go:125-187 | On TLS two winners of a compiled index are constrained and of equal priority, and the certificate carries two names, each of which satisfies one and not the other |
| `ClientMatch.OneNameIsUnambiguous` | internal/config/match.go:314-336 | With no certificate or at most one SAN, TLS is unambiguous as well |
| `ClientMatch.TieIff` | internal/config/match_radius_tls.go:125-187 | In a compiled TLS index of any size, TACACS or RADIUS, two clients both win a peer exactly when they have equal priority, tie on the address, the certificate carries for each a name that does not satisfy the other, and no third client pushes them out by a longer prefix or beats them on priority |
| `ClientMatch.ThreeNamesTie` | internal/config/match_radius_tls.go:125-187 | If any certificate ties two clients of a compiled index on an address, one that carries at most three of its names does |
| `ClientMatch.PairTiesIff` | internal/config/match_radius_tls.go:125-187 | Corollary for an index of two clients: some certificate ties them on an address exactly when they have equal priority, are asked on TLS and tie on the address |
| `ClientMatch.TwoNamesTie` | internal/config/match_radius_tls.go:223-241 | Two certificate-only clients of equal priority compile together exactly when no name satisfies both, and then some certificate makes both of them win |
| `StateTokens.IndexDigests` | internal/state/compile.go:479-527 | Digest indexing succeeds exactly when all material can be read and no two live tokens share a digest, and its code tells which it was; the two maps are inverse and bind exactly the bound tokens |
| `StateTokens.Put` | internal/state/compile.go:529-543 | A digest is refused only when another token already has it |
| `StateTokens.AuthenticateIsAScan` | internal/state/snapshot.go:318-339 | One probe of the digest index agrees with a scan over the live tokens, and at most one token answers |
| `StateTokens.GenerationIsABAFree` | internal/state/compile.go:236-257 | Equal nonzero generations in two snapshots of a history: in every snapshot between, the token was live, unwritten, with the same digest, scopes, enabled flag, expiry and source |
| `TokenRuns.UnrelatedKeepsGenerationIffBound` | internal/state/compile.go:236-257 | Over every run: a successful mutation that is no reload or reset and does not name a live token, with the token's file read as before, keeps its generation exactly when the vault binds the token to a digest; an unbound token gets the new revision |
| `TokenWitness.UnboundTokenMoves` | internal/state/manager.go:599-654 | A manager on which a token without material keeps its descriptor and still changes generation when a group is created |
| `StateMerge.Merge` | internal/state/compile.go:299-339 | The two merge loops give the pointwise lookup over baseline and overlay with its metadata, and list exactly the deletions |
| `StateMerge.MergeIsPointwise` | internal/state/compile.go:383-423 | The same stated about the folds of both loops: overlay entry if live, absent if deleted, else baseline |
| `StateMerge.CompileKind` | internal/state/compile.go:266-295 | With the stamps: a replaced baseline is touched, newly visible IDs are born at this revision, unused stamps are dropped |
| `StateManager.Compile` | internal/state/compile.go:31-297 | Compilation succeeds exactly on an admissible document with an indexable token set, and then produces the compiled snapshot and stamps; its error is that of the first check that fails: token count, validators and index compilers, token digests |
| `StateManager.MutationKeepsInv` | internal/state/manager.go:685-719 | Every mutation keeps the manager's invariant; success raises the revision by one and publishes the successor snapshot, failure changes nothing |
| `StateManager.PublishedIsLookup` | internal/state/compile.go:138-146 | In every state of every run the snapshot is the pointwise lookup for users, groups, clients and tokens, revisions are ordered created <= updated <= effective, tombstones are exactly the deletions, and the reused baseline hash is the hash of the current baseline |
| `StateManager.OneWinnerPerRevision` | internal/state/manager.go:721-731 | Of the mutations of a run that expect one revision, at most one succeeds |
| `StateManager.RevisionsGrow` | internal/state/manager.go:685-719 | Revisions never fall along a run |
| `StateManager.RunIsABAFree` | internal/state/snapshot.go:296-314 | Token generations are ABA-free over every run of the manager |
| `TokenRuns.RunAuthenticates` | internal/state/snapshot.go:316-339 | In every state of every run a nonempty bearer authenticates as a token exactly when that token is live, enabled, unexpired, and its own digest, or that of its file as the last successful mutation read it, is the bearer's; no two tokens share one |
| `TokenRuns.OverlayTokenAnswersIff` | internal/state/compile.go:479-527 | A live overlay token authenticates a bearer, under its own grant, exactly when it is usable and its own digest matches, or it has none and the baseline token's file holds the bearer |
| `TokenRuns.BaselineBearerIff` | internal/state/compile.go:499-524 | With a readable baseline file its bearer works for the override exactly when that has no digest of its own or the very same one |
| `TokenWitness.OverrideAnswersBaselineBearer` | internal/state/manager.go:599-654 | A manager on which an override without material, with another scope, answers to the baseline token's bearer |
| `StateManager.ResetEqualsFresh` | internal/state/manager.go:121-125 | After any run a successful Reset shows the objects of a fresh manager on the current baseline |
| `StateManager.CreateDeleteRestores` | internal/state/manager.go:128-188 | Creating or overriding a user that had no overlay entry and deleting it without a tombstone restores every effective object |
| `StateEdits.ApplyKeepsOverlay` | internal/state/manager.go:107-683 | Every edit, reloads with and without rebase included, leaves a well-formed overlay: entries under their own ID with an overlay origin and ordered revisions, tombstones that name their ID |
| `StateEdits.CreateThenDeleteUndoes` | internal/state/manager.go:333-378 | For each kind: create then plain delete gives back the overlay itself |
| `SecretBag.Clone` | internal/state/clone.go:40-49 | The copy has equal bytes in arrays that are all new |
| `SecretBag.Prune` | internal/state/overlay.go:158-176 | Pruning keeps exactly the live IDs with their bytes, and wipes the arrays it drops |
| `SnapshotManager.Start` | internal/state/manager.go:39-71 | A manager is made exactly when the document compiles, and starts a recorded run over it with no secrets |
| `SnapshotManager.Manager.Mutate` | internal/state/manager.go:685-719 | One mutation in the source's order, copying and pruning secrets before it compiles: it extends the recorded run by a legal step, a refusal at any point leaves view, secrets and published bag alone, and no byte array that existed before is modified, so every snapshot published so far keeps its bytes |
| `SnapshotManager.Manager.CopyAndPrune` | internal/state/overlay.go:158-176 | What precedes compilation: the working copy holds exactly what the edit leaves of the secrets, and the manager stays valid |
| `SnapshotManager.PrivateBag` | internal/state/overlay.go:58-117 | The working bag is made of new arrays only and holds the old bytes, the put material, restricted to live IDs |
| `SnapshotManager.BagIsExactlyLive` | internal/state/overlay.go:158-176 | Along every run whose edits name no unknown memory ID the bag holds exactly the memory IDs of live overlay users |
| `SnapshotManager.OverrideTakesEffect` | internal/state/manager.go:193-290 | After a successful login or enable override the next snapshot's user refers to the new verifier, need not change it and is the same otherwise, the bag holds its bytes, and no other user changed |
| `SnapshotManager.SameRevisionSameSnapshot` | internal/state/manager.go:685-731 | A revision names one state of a run, and one bag of secrets |
| `SnapshotManager.Manager.Read` | internal/state/snapshot.go:145-156 | A reader gets the current snapshot, and from the arrays published with it exactly the secrets the manager holds |
| `SnapshotManager.Manager.OverrideVerifier` | internal/state/manager.go:193-290 | The operation succeeds exactly when the manager accepts the override at the expected revision, and then it takes effect in the next snapshot |
| `Conversation.TranscriptShape` | internal/aaa/auth.go:163-340 | Where an open conversation stands is determined by its transcript: phase, failures counted, pending password |
| `Conversation.EndsInTime` | internal/aaa/auth.go:405-418 | Every conversation is over after maxRounds + 3 CONTINUEs |
| `Conversation.BoundIsTight` | internal/aaa/auth.go:405-418 | And maxRounds + 2 may still leave it open |
| `Conversation.PassIffJustified` | internal/aaa/auth.go:189-340 | The last message is answered with PASS, or reaches publication, exactly for transcripts with fewer than the limit of refused passwords, one verified against the START snapshot, and (for a change) a nonempty new password and its exact repetition |
| `AuthService.Service.Begin` | internal/aaa/auth.go:29-73 | START: an oversize one is answered with ERROR and leaves every session as it was; any other drops the session under its key, opens a conversation bound to the snapshot published now exactly if it asks for one the client may have, and else leaves none; PASS comes only from a one-shot method of a user who need not change the password |
| `AuthService.OversizeStartKeepsTheSession` | internal/aaa/auth.go:36-40 | A service with an open conversation on which an oversize START under its key is refused and the conversation stands as it was |
| `AuthService.Service.Continue` | internal/aaa/auth.go:76-110 | CONTINUE: terminal reply exactly when no session is left; PASS is justified by the transcript and, after a change, the manager has replaced exactly the snapshot the password was verified against by one that shows the new verifier; any other reply leaves the manager alone, and other sessions are untouched |
| `AuthService.NewVerifierDecides` | internal/credentials/service.go:151-172 | After a published change the user's passwords are checked against the new verifier, and no change is asked for any more |
| `AuthService.ChangedPasswordPasses` | internal/aaa/auth.go:189-226 | A changed password works: a login or enable that starts on the snapshot the change produced passes at once with the new password, and with another one exactly if that checks against the new verifier |
| `AuthService.Service.PublishVerifier` | internal/aaa/auth.go:357-403 | Publication is the manager's own mutation: PASS exactly when the manager accepts the override at the START revision, and then the user's next verifier is the derived one and no other user changed; any other reply leaves the manager as it was, FAIL for a conflict or a missing user and ERROR for the rest, a revision mismatch included |
| `AuthService.Service.Abort` | internal/aaa/auth.go:113-132 | Abort removes exactly the session of its key |
| `Ranking.SortIsStable` | internal/policy/compile.go:227-232 | Sorting by (priority, id) ranks the rules and keeps rules with equal keys in order |
| `Ranking.SortDependsOnRuns` | internal/policy/compile.go:227-232 | Two lists sort alike exactly when they agree on every run of equal keys |
| `Ranking.OrderDoesNotMatter` | internal/policy/compile.go:296-301 | Lists without equal keys sort alike whenever they have the same elements |
| `PolicyCompile.CompileRuleSet` | internal/policy/compile.go:189-234 | Succeeds exactly on valid patterns and reply pairs; commands come out ranked, ties in listing order |
| `PolicyCompile.Compile` | internal/policy/compile.go:113-165 | Succeeds exactly when all rule sets do; groups and users are indexed by their own ID with sorted rules |
| `Policy.EffectiveGroups` | internal/policy/compile.go:263-303 | The result is the ranked listing of the set of enabled groups named by the user or by the enabled client's defaults |
| `Policy.GroupsAreUnique` | internal/policy/compile.go:261-303 | That listing is determined by the set, not by the order of the ID lists |
| `Policy.BuildReply` | internal/policy/response.go:7-25 | A reply is copied whole exactly when it fits the limits and every pair is valid; deny carries none |
| `Policy.TraceLog.Record` | internal/policy/evaluate.go:144-149 | The trace is the capped prefix of everything considered |
| `Policy.WalkRules` | internal/policy/evaluate.go:87-122 | The walk stops at the first matching rule and considers exactly the rules up to it |
| `Policy.Evaluate` | internal/policy/evaluate.go:53-85 | The nested walks over user rules, groups and fallback give the verdict of the first match in one chain |
| `PolicyLaws.PermitIffFirstMatchPermits` | internal/policy/evaluate.go:53-85 | Permitted exactly when the gates pass and the first matching rule permits with a reply that fits; ERROR exactly when that reply does not fit or the action is unknown; sent arguments always fit |
| `PolicyLaws.DecidingSource` | internal/policy/evaluate.go:72-84 | The deciding rule is one of the user's if any matches, else of the matching effective group least by (priority, id), else of the fallback |
| `PolicyLaws.CommandHitIsLeast` | internal/policy/compile.go:227-232 | Within a compiled rule set the deciding command rule is the matching one least by (priority, id) |
| `PolicyLaws.TraceCapDecidesNothing` | internal/policy/evaluate.go:144-149 | Changing the trace cap changes nothing but the recorded steps, and the shorter record is a prefix of the longer |
| `PolicyLaws.OrderChangesNothing` | internal/policy/compile.go:113-165 | Reordering users, groups, clients, their ID lists, or command rules without reordering ties changes no answer, trace included |
| `PolicyRequest.ApplyWireAVs` | internal/aaa/author.go:100-132 | The one-pass loop overrides each typed field by the first pair of its name and the arguments by all cmd-arg pairs |
| `PolicyRequest.NormalizeAfterWire` | internal/policy/evaluate.go:179-197 | After the wire list has been applied, normalizing changes nothing but nil to empty |
| `PolicyRequest.ReplayMatches` | internal/aaa/author.go:98-132 | Typed fields that the list names decide nothing: a replay reaches the same request |
| `PolicyRequest.Authorize` | internal/policy/evaluate.go:14-23 | The evaluator is chosen by whether the command is empty, and only its rules are consulted |
| `PolicyRequest.EvaluateOnly` | internal/policy/evaluate.go:25-51 | An evaluator asked the other's question denies without consulting a rule |
| `PolicyRequest.AuthorizeWire` | internal/aaa/author.go:73-96 | A wire request is authorized as its overridden form |
| `ActionLoader.Loader.Load` | tools/check-workflows/main.go:1171-1220 | From the resolved file: a file on the stack is a cycle, a finished one is skipped; a cycle report implies a reachable loop, silence keeps the finish order topological |
| `ActionLoader.Loader.CheckSteps` | tools/check-workflows/main.go:877-909 | The step loop leaves every referenced file finished, open or unreadable, and terminates by the files neither open nor finished |
| `ActionLoader.Loader.Finish` | tools/check-workflows/main.go:1199-1220 | Moving a file from the stack to done keeps the bookkeeping and the topological order |
| `ActionLoader.TopologicalHasNoCycle` | tools/check-workflows/main.go:1078-1086 | If finished files follow everything they refer to, no walk from the roots comes back to a file |
| `ActionLoader.CheckRoot` | tools/check-workflows/main.go:172-231 | A cycle is reported if and only if one is reachable from the workflow steps, and across all workflows each readable reachable file, and no other, is checked exactly once |
| `EditDistance.Levenshtein` | internal/config/errors.go:97-129 | The two swapping rows compute the recursive distance, which no edit script undercuts and some script attains |
| `EditDistance.DistIsLeast` | internal/config/errors.go:97-129 | The recursive distance is the length of a shortest run of single-rune edits |
| `EditDistance.OneEditIsNear` | internal/config/errors.go:118-125 | One edit moves the distance to any text by at most one |
| `Suggestion.SuggestField` | internal/config/errors.go:78-95 | The loop's result is that of the scan; without an empty known field it is the lexicographically least field at minimum distance within the threshold |
| `Suggestion.LoaderSuggestsTheLeast` | internal/config/parse.go:332-370 | The lists the loader passes have no empty entry, so its suggestion is that least field whatever the order of the list |
| `Suggestion.PromiseKept` | internal/config/errors.go:83-94 | For every list, the promised field is returned exactly when no empty field shadows the others, or the promised field ties with the empty one and follows its last occurrence |
| `Suggestion.PromiseKeptInEveryOrder` | internal/config/errors.go:83-94 | The promise holds in every order of the known fields exactly when no empty field shadows the others |
| `Endpoints.Synthesize` | internal/config/endpoints.go:36-71 | One endpoint for each known transport, in order |
| `Endpoints.Project` | internal/config/endpoints.go:97-127 | The last legacy endpoint gives the secret, the first TACACS endpoint the terms, transports are collected once |
| `Endpoints.RoundTrip` | internal/config/endpoints.go:36-127 | Projecting synthesized endpoints, with any non-TACACS endpoints behind them, gives the flat fields back |
| `Endpoints.SynthesizeAgain` | internal/config/endpoints.go:36-138 | Synthesis from the projection of synthesized endpoints reproduces them exactly when no known transport is listed twice |
| `Endpoints.ApplyProjection` | internal/config/endpoints.go:129-138 | After applying the projection the client matches its endpoints unless it has endpoints, none of them TACACS, and flat settings besides |
| `Endpoints.RebuiltMatches` | internal/config/endpoints.go:140-166 | A rebuilt client matches its endpoints exactly when its flat fields are coherent, or it lists no known transport and has no RADIUS endpoint |
| `Endpoints.Rebuild` | internal/state/patch.go:370-381 | The TACACS endpoints are made anew and the RADIUS endpoints kept in order |
| `Endpoints.RadiusStays` | internal/state/patch.go:370-381 | Rebuilding keeps the RADIUS endpoints, and rebuilding twice is rebuilding once |
| `Endpoints.PatchFlat` | internal/state/patch.go:258-304 | The flat TACACS fields of an update, assigned one by one to a clone, are those of the specification; refused exactly when a needed secret is cleared |
| `Endpoints.CloneMatches` | internal/state/clone.go:107-147 | A client that matches its endpoints still does when it is cloned, although cloning turns empty method lists into nil |
| `Endpoints.PatchValidates` | internal/config/validate.go:469-474 | The result of an accepted flat patch passes the validator's projection check exactly when its flat fields are coherent or the client has no RADIUS endpoint |
| `Endpoints.DroppingLegacyBreaksTheMatch` | internal/state/patch.go:296-325 | Dropping the legacy transport while its secret stays is accepted and yields a client that does not match its endpoints; the validator refuses it exactly when there is a RADIUS endpoint |
| `EndpointPatch.Retain` | internal/state/patch.go:590-640 | One pass over the old endpoints and one over clones of the new fill each omitted secret from the old endpoint of its ID, or of its kind when the ID is new |
| `EndpointPatch.RedactedListComesBack` | internal/state/patch.go:590-640 | Sending a client's endpoints back without their secrets restores every secret |
| `EndpointPatch.OnlyOmittedSecretsAreRetained` | internal/state/patch.go:630-640 | A secret that is sent stays, and nothing but secrets is filled in |
| `RadiusPatch.ParseNames` | internal/config/endpoints.go:651-671 | The loop gives the known names in normal form, each once, or refuses the list |
| `RadiusPatch.NamedWhole` | internal/config/endpoints.go:651-671 | A list comes back as it was sent exactly when its names are known, in normal form and listed once |
| `RadiusPatch.Flatten` | internal/state/patch.go:439-482 | The flat RADIUS view removes the UDP endpoints, writes the first one, adds one, or is refused, exactly as its specification on lists says |
| `RadiusPatch.FlatOnRadius` | internal/state/patch.go:439-482 | It acts on the RADIUS endpoints alone: dropping the other endpoints before or after it makes no difference, errors included |
| `RadiusPatch.PatchSecret` | internal/state/patch.go:332-352 | The RADIUS secret goes to the first UDP endpoint; without one a secret is refused, with one clearing is |
| `EndpointPatch.ApplyFlat` | internal/state/patch.go:317-330 | An update without endpoints, step by step on the whole list, gives TACACS endpoints that follow from the flat fields followed by RADIUS endpoints that follow from the old ones: neither half reads the other |
| `EndpointPatch.FlatMatches` | internal/state/patch.go:317-330 | Whatever its RADIUS half does, an accepted flat update yields a client that matches its endpoints exactly when the flat TACACS fields it leaves are coherent, or no endpoint is left |
| `EndpointPatch.FlatAgreesIff` | internal/state/patch.go:397-437 | The result agrees with the flat RADIUS view that was sent exactly when the view disables, or reaches a UDP endpoint with lists in normal form that are not filled in and with one secret |
| `EndpointPatch.ResendIsRefusedIff` | internal/state/patch.go:305-315 | Sending the result's redacted endpoints back with the same view finds a disagreement exactly when the view does not read back |
| `EndpointPatch.ApplyEndpoints` | internal/state/patch.go:305-316 | An update with endpoints is accepted exactly when no needed secret is cleared, its flat TACACS and RADIUS fields agree with its endpoints, and its RADIUS secret can be set; then the endpoints decide the flat fields, and the error tells the refusals apart |
| `EndpointPatch.PutBackChangesNothing` | internal/state/patch.go:305-316 | The round trip: for a client that matches its TACACS endpoints, sending back its redacted endpoints is accepted and changes nothing but empty method lists |

## Left out

- Goroutine scheduling: a method under a lock is one atomic step; cancelling a subscription is two steps, because the source takes the lock twice, and Close signals all drops in one.
- AuthService.Service.Continue: a whole START or CONTINUE is one atomic step, although the source holds its lock only while it gets, puts or drops a session, and reads the published snapshot twice in a START.
- Contexts: a cancelled context, which answers ERROR without dropping the session, is excluded from the conversation model.
- Event contents: events are values, so slice ownership and cloning of events are not modelled; the stdout sink, metrics and logs are left out.
- EventRingBuffer.Ring.CancelDetach: the subscriber's channel is a pair of sequences, sent and taken; blocking receivers and wake-ups are not modelled.
- Parsing of CIDR and IP text: entries hold parsed prefixes; an entry that fails to parse is an explicit case of the compile error.
- ClientMatch.Compile: index warnings, which change no result, are not modelled.
- The four object kinds share one generic merge and one generic create, update and delete; `mergeTokens`' descriptors are reduced to the fields that decide authentication and generation.
- Field rules of user and group patches: a mutation carries the builder that makes the new object from the old one, for any builder; the endpoint part of a client update is modelled in `Endpoints`, `RadiusPatch` and `EndpointPatch`, its other fields are not.
- Overlay hash, the fallback-rules overlay (never set by any operation), the ID order of snapshot listings and the order of tombstones: presentation.
- StateManager.Compile: validation and the policy, match and dictionary compilers are one function from the merged document to their first objection, for any such function.
- SnapshotManager.Manager.Mutate: bytes of documents and snapshots other than the secret arrays are values; only the secret arrays live on the heap.
- AuthService.Service.PublishVerifier: normalization of the user name by the manager is not modelled.
- Conversation.Creds: a secret file reads the same at every check, and deriving a verifier is a function of the password, so the salt is not modelled.
- AuthService.Service: one-shot PAP, CHAP and MS-CHAP checks are an outcome that comes with START, and wiping of a pending new password on drop is not modelled.
- Conversation messages and event records: prompts are modelled by their kind, not by their text.
- Policy.BuildReply: the text of a reply error and the echo of the request in the trace (display command, arguments, authentication method) are not modelled.
- PolicyCompile.Compile: which invalid rule is reported first, and its path, are not modelled.
- ActionLoader.Loader.Load: resolving a `uses` path to a file and the rules for single steps are given by the action graph, which is finite and does not change while it is checked.
- EndpointPatch.ApplyUpdate: the client is a value rather than a pointer, and its fields outside the endpoints (name, labels, priority, address and certificate matching) are not modelled; a RADIUS endpoint's CoA settings are one opaque text.
- Suggestion.LoaderSuggestsTheLeast: walking struct types by reflection is not modelled; the list is any list of YAML names of the fields.
- Suggestion.SuggestField: texts are sequences of runes with their UTF-8 length; strings that are not valid UTF-8 are not modelled.
- Listeners, sockets, HTTP and MCP wiring, YAML decoding, the RADIUS codec, `policy/radius`, cryptography, UI and lab tools are not part of this model.
