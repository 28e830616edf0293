# new-api: verified models of its stateful core

new-api is a gateway that relays requests to many AI providers. This project models eight parts of
it in Dafny and proves what they keep over every input, every run or every interleaving. Each part is
modelled in the form its code has: shared state changed step by step is a state machine or a class,
loops are methods with invariants, and expression-like code is functions and lemmas.

| files | part |
|---|---|
| `OrderProtocol`, `OrderLockProof`, `OrderCreditProof`, `OrderEffects`, `OrderLoss` | the per-order lock and the handlers that credit paid top-up orders, as an interleaving of any number of goroutines |
| `UpstreamModels`, `UpstreamSelection`, `UpstreamProof`, `UpstreamLaw`, `UpstreamRuns`, `UpstreamScan`, `NameLists` | detecting, staging and applying upstream model changes, and the paginated scan that drives it |
| `PricingDiff`, `PricingProof`, `ModelsDev` | the price difference report and the choice of one models.dev price per model |
| `RateLimit` | the in-memory sliding-window rate limiter |
| `MultiKey`, `MultiKeyDeletion`, `MultiKeyProof` | multi-key channels: disabling, deleting, re-indexing, and append mode |
| `BodyStorage`, `ReusableBody`, `BodyProof` | the reusable request body on memory or disk, its size limit and its usage counters |
| `OggScan` | the Ogg page scanner behind the Opus duration (page layout after section 6 of RFC 3533, 48 kHz clock after section 4 of RFC 7845) |
| `Quota`, `Version`, `VersionText`, `Text`, `Wrappers` | quota arithmetic, version order, and the string functions they share |

`dafny verify dfyconfig.toml` checks everything.

## What the proofs found

Where a property is false of the code, the model keeps the code, a lemma gives the input, and the exact
condition is proved.

- Ignoring an upstream model whose name starts with `regex:` may have no effect, and adding one whose
  name contains a comma tears it apart. Detecting again agrees with the report exactly when no added
  name has a comma, provided no selected name reads as a pattern (`RedetectsExactly`); with pattern-like
  names and no commas, exactly when the patterns agree (`RedetectsIffPatternsAgree`); and for any
  selection, exactly when no piece of an added name is unwelcome and the open names agree
  (`RedetectsIff`). `CommaNameReturns` and `PatternNameReturns` give the failing names.
- Automatic adoption leaves fresh lists exactly when it adopts no name with a comma; such a name is adopted
  again in every later round (`StageFreshIff`, `CommaNameAdoptedAgain`).
- A key list survives being stored exactly when, read by lines, no key has a line break and the first and
  last keys are not empty, or when the joined text parses as a JSON array of the very keys
  (`ReadsBackIff`). Deleting a key re-indexes correctly exactly then. With the keys `a`, empty, `b` and `b`
  automatically disabled, deleting `a` leaves `b` as the only key, enabled again, with its time and reason
  under an index that no longer exists (`BlankKeyShifts`). Such lists arise because a new channel's lines
  are trimmed after the test for blank ones; a blank first or last line even makes the stored size wrong
  (`AddedReadsBack`, `LeadingBlankIsLost`).
- Deleting all automatically disabled keys at once and deleting them one by one from the highest index
  look alike afterwards exactly when no key was disabled or a key that is not empty survives
  (`BothWaysAgreeIff`). With only an empty key surviving, one way keeps all keys and enables the first,
  the other keeps the first, disabled (`OnlyBlankSurvives`).
- A stored empty JSON array holds no key but is counted as one (`EmptyArrayMiscounted`).
- When every key of a channel is disabled automatically, `delete_disabled_keys` reports success but
  keeps all keys and enables them again, because the store ignores an empty key
  (`MultiKey.Channel.DeleteDisabledKeys`).
- Append mode reads a stored key that starts with `[` but is not a JSON array as no keys at all, and
  so loses it (`AppendReadsLikeGetKeys`).
- A rate limit longer than the expiration plus one second is not enforced after a sweep
  (`ShortExpirationBreaks`), a limit of zero admits the first request (`ZeroLimitAdmitsFirst`), and a
  negative limit panics on the first request of a key. The comment in `common/constants.go:201` asks only
  that the duration not exceed the expiration, which suffices.
- An empty read at the end of a body reports the end in memory but not on disk; this is the only
  difference (`ReadsAgree`). JSON on disk is decoded as a stream, so the two kinds of storage may
  disagree on a body with trailing bytes; the model keeps two decoders.
- The disk cache exceeds its maximum exactly when an accepted body is streamed to disk on the strength of
  its declared length and does not fit (`StepExceedsIff`, `StaysWithinIff`). Decompressed bodies can do
  that: `middleware/gzip.go:38-91` replaces the body and leaves the declared length of the compressed form.
- A null from an upstream can hide a difference (`NullIsSwallowed`): a contradicted field is hidden exactly
  when every channel whose cell is more than agreement shows nothing of its own anywhere (`HiddenIff`).
- The price tie-break tolerates non-transitive near-equality only because providers are visited in
  order (`UnsortedDrifts`).
- Versions with mixed segments such as 10, 1a, 9 form a cycle (`MixedVersionsCycle`).
- A paid order is never credited twice, but its credit can be lost, exactly when saving the order reports
  an error although the row was written; when adding the quota fails, is refused as negative, or finds no
  user; or when an administrator completes the order of a user who is gone (`LostIff`, `CreditedIff`).
  Adding quota to a deleted user touches no row and reports no error, so the order ends paid and
  uncredited without any failure (`DeletedUserLoses`); `CreditCanBeLost` is the run with a failed call.
  Negative credits need a negative stored amount, which `RequestEpay` does not create.
- Comparing version segments is transitive except exactly when two of three segments are numbers and
  their texts and values disagree around the third (`SegmentsBreakIff`); versions break exactly where the
  first position that decides the chain breaks so, or where the outer two tie there and compare the
  wrong way round beyond it (`VersionsBreakIff`).
- A token top-up divides with sixteen decimal digits, so for a unit above 2·10^16 it may round up;
  the credit is floor(A/q)·q under an exact condition (`TokenTopUp`).

## Model

| member | source | states |
|---|---|---|
| `OrderLockProof.RunInv` | controller/topup.go:279-308 | in every reachable state of every interleaving the lock invariant holds: table entries, reference counts, mutex owners and program counters agree |
| `OrderLockProof.MutualExclusion` | controller/topup.go:279-308 | two workers are never inside the same order at once |
| `OrderLockProof.SharedMutex` | controller/topup.go:294-308 | a registered worker's order has an entry, its mutex is the one in the table and the count is the number of registered workers; the "not found" branch and unlocking an unlocked mutex are unreachable |
| `OrderLockProof.NoLeak` | controller/topup.go:294-308 | outside the short windows under createLock an entry exists exactly while somebody is registered |
| `OrderLockProof.NoDeadlock` | controller/topup.go:279-308 | whenever a worker is live, some worker can take a step |
| `OrderLockProof.Drains` | controller/topup.go:279-308 | once no work arrives every schedule is finite, and one that cannot go on has finished all workers, emptied the table and released createLock |
| `OrderCreditProof.CreditRun` | controller/topup.go:373-408 | the crediting invariant holds at every point of every run, store calls failing before or after taking effect |
| `OrderCreditProof.CreditedAtMostOnce` | controller/topup.go:373-408 | no order is credited twice, credited orders are successful and not lost, and every balance is its start plus its credited orders plus other changes |
| `OrderCreditProof.OrderLifecycle` | controller/topup.go:380-408 | an order leaves pending only for success, never changes afterwards, and settling starts from a pending Epay row |
| `OrderCreditProof.CreditedWasPending` | controller/topup.go:380-408 | every credited order was pending at an earlier point of the run |
| `OrderCreditProof.SettledWhenDrained` | controller/topup.go:388-408 | when all workers are done a settled order was credited once or its credit was lost, never both |
| `OrderCreditProof.LostIff` | controller/topup.go:390-405 | at every point of every run a credit is lost if and only if an earlier step saved the row while reporting an error, failed or refused to add the quota, found no user to add it to, or completed the order of a missing user |
| `OrderCreditProof.CreditedIff` | controller/topup.go:385-408 | when all workers are done, a settled order was credited if and only if no step of the run lost its credit |
| `OrderLoss.CreditCanBeLost` | controller/topup.go:401-405 | from every idle state with a pending Epay order a run ends with all workers done, the order paid, no credit and unchanged balances |
| `OrderLoss.DeletedUserLoses` | model/user.go:1240-1246 | from every such state a run in which the user is deleted and no store call fails ends paid and uncredited |
| `OrderCreditProof.LossNeedsFailure` | model/user.go:1223-1246 | without store errors a credit is lost only because it is negative or its user had no balance |
| `OrderCreditProof.CompleteOk` | model/topup.go:310-377 | an administrator's completion, one transaction, keeps the books |
| `OrderEffects.AdminEffect` | model/topup.go:327-363 | an administrator's completion pays a pending order with a positive credit unless it fails first, raising its user's balance by exactly the credit if there is one, and otherwise does nothing |
| `OrderEffects.WebhookReadsExactly` | controller/topup.go:376-390 | a webhook goes on exactly with a pending Epay order it could read |
| `OrderEffects.WebhookSavesExactly` | controller/topup.go:388-395 | saving writes the row unless it fails first and goes on exactly without an error |
| `OrderEffects.WebhookCreditsExactly` | controller/topup.go:398-405 | crediting raises the balance by exactly the credit, unless it fails first, is negative or there is no balance |
| `OrderEffects.SettledIff` | controller/topup.go:373-408 | over every run an order is settled, and credited, exactly when some step did it |
| `OrderEffects.ServedIsCredited` | controller/topup.go:373-408 | in a run without failures in which the user keeps a balance, a pending order that any worker handled is paid and credited once all are done |
| `NameLists.NormalizeIsNormal` | controller/channel_upstream_update.go:100-105 | normalizing yields trimmed, non-blank names without repetition |
| `NameLists.NormalizeExactly` | controller/channel_upstream_update.go:100-105 | the normalized names are exactly the trimmed forms that are not blank |
| `NameLists.NormalizeNormal` | controller/channel_upstream_update.go:100-105 | normalizing leaves a normal list alone |
| `UpstreamModels.MergeModelNames` | controller/channel_upstream_update.go:107-121 | the appending loop computes the merge specification |
| `UpstreamProof.MergeIsNormalizedConcat` | controller/channel_upstream_update.go:107-121 | merging is normalizing the concatenation: first occurrences in order |
| `UpstreamProof.SubtractNormal` | controller/channel_upstream_update.go:123-132 | subtraction keeps order, is normal, and keeps exactly the names not removed |
| `UpstreamProof.IntersectNormal` | controller/channel_upstream_update.go:134-143 | intersection is normal and keeps exactly the allowed names |
| `UpstreamProof.AppliedList` | controller/channel_upstream_update.go:145-150 | with fresh additions the result is the old list without the removed names followed by the added ones |
| `UpstreamSelection.ChosenExactly` | controller/channel_upstream_update.go:933-938 | for every channel and request, exactly the requested names that are staged are added, ignored and removed, in request order, an added one never being removed |
| `UpstreamSelection.RemovalsInOrder` | controller/channel_upstream_update.go:937-938 | removals come in request order |
| `UpstreamSelection.AppliedExactly` | controller/channel_upstream_update.go:145-150 | for any lists, the names in first-occurrence order without the removed ones that are not added |
| `UpstreamSelection.AnswerExactly` | controller/channel_upstream_update.go:951-966 | every field of the answer: what was added and removed, what remains staged, and whether the stored list changed |
| `UpstreamSelection.ChangedExactly` | controller/channel_upstream_update.go:940-945 | with fresh lists the stored list changes exactly when something is added or removed |
| `UpstreamSelection.IgnoredExactly` | controller/channel_upstream_update.go:217-223 | a name is ignored when listed itself or matched by the trimmed body of a pattern entry |
| `UpstreamSelection.ReadNames` | model/channel.go:305-310 | any stored text reads as its comma-separated names, normalized |
| `UpstreamProof.StagedMeaning` | controller/channel_upstream_update.go:179-238 | which upstream names are staged for adding and which local names for removal, as if-and-only-if conditions |
| `UpstreamProof.StoredReadsBack` | model/channel.go:305-310 | a normal comma-free list survives being joined and read back |
| `UpstreamModels.Channel.ApplyUpdates` | controller/channel_upstream_update.go:919-967 | the new channel state and the answer, including the empty answer of a rejected write and the error of a failed ability update |
| `UpstreamProof.NewLocals` | controller/channel_upstream_update.go:940-945 | the stored list after an application reads back as the old one minus removals plus additions |
| `UpstreamProof.NewIgnored` | controller/channel_upstream_update.go:947-950 | the ignored names after an application are the old and newly ignored ones without the added ones |
| `UpstreamProof.RedetectsExactly` | controller/channel_upstream_update.go:919-967 | applying any selection and detecting again returns exactly the reported remainder, as sequences, if and only if every added name is comma-free (no selected name being a pattern) |
| `UpstreamProof.RedetectsIffPatternsAgree` | controller/channel_upstream_update.go:213-228 | for comma-free additions, agreement if and only if the entries that stay or become ignored cover, among the open upstream names, exactly the names ignored before or now |
| `UpstreamProof.StillIgnoredExactly` | controller/channel_upstream_update.go:947-950 | which names are ignored after an application, in terms of the old entries and the selection |
| `UpstreamLaw.RedetectsIff` | controller/channel_upstream_update.go:919-967 | for every selection, commas and patterns included, agreement with the report if and only if every piece of an added name stays local, is a redirect source or is upstream, and among the open upstream names the pieces and still ignored names are exactly the ignored, added and to-be-ignored ones |
| `UpstreamLaw.StoredPieces` | model/channel.go:305-310 | any stored list reads back as the normalized comma-separated pieces of its names |
| `UpstreamLaw.LocalsAfter` | controller/channel_upstream_update.go:940-945 | the local list after any application: what stays, merged with the pieces of what is added |
| `UpstreamProof.CommaNameReturns` | controller/channel_upstream_update.go:940-945 | an added name with a comma is detected as missing again if and only if no remaining ignored entry covers it, whatever else is selected |
| `UpstreamProof.PatternNameReturns` | controller/channel_upstream_update.go:217-223 | ignoring a pattern-like name that does not match itself has no effect |
| `UpstreamProof.ApplyAllSettles` | controller/channel_upstream_update.go:986-1050 | applying everything staged reaches a fixpoint in one round |
| `UpstreamModels.Channel.CheckUpdates` | controller/channel_upstream_update.go:474-521 | the detection method computes the specified new state and outcome, throttling, fetch failure and adoption included |
| `UpstreamProof.CheckConserves` | controller/channel_upstream_update.go:498-520 | a forced round accounts for every pending name, adopted or staged |
| `UpstreamSelection.CheckStamps` | controller/channel_upstream_update.go:480-497 | a round that is not skipped stamps the clock; a failed fetch does nothing else |
| `UpstreamSelection.Throttled` | controller/channel_upstream_update.go:481-488 | within the minimum interval of such a round an unforced one does nothing |
| `UpstreamProof.AdoptionIsApplication` | controller/channel_upstream_update.go:498-510 | automatic adoption changes the stored and staged lists as applying every addition by hand does |
| `UpstreamRuns.StaysFresh` | controller/channel_upstream_update.go:474-521 | over every run of detections (throttled, failed, adopting or staging) and applied selections, the staged lists are exactly what a detection would find, while the upstream stays the same and its names are ordinary |
| `UpstreamRuns.StageFreshIff` | controller/channel_upstream_update.go:490-512 | a round that fetched the list leaves fresh lists, whatever was staged before, if and only if it adopts no name with a comma |
| `UpstreamRuns.CommaNameAdoptedAgain` | controller/channel_upstream_update.go:498-506 | an adopted name with a comma is still missing afterwards |
| `UpstreamRuns.StaysFreshIff` | controller/channel_upstream_update.go:474-521 | over every run, for any names, the lists are fresh throughout if and only if no event adopts a comma name or applies a selection that detecting again does not confirm |
| `UpstreamRuns.CheckingMakesFresh` | controller/channel_upstream_update.go:490-512 | in particular always with ordinary upstream names |
| `UpstreamRuns.ApplyingKeepsFresh` | controller/channel_upstream_update.go:919-967 | applying any selection keeps the staged lists fresh |
| `UpstreamRuns.ForcedRoundRefreshes` | controller/channel_upstream_update.go:474-521 | one forced round that can be stored makes the lists fresh from any stored channel |
| `UpstreamScan.ScanOnce` | controller/channel_upstream_update.go:673-761 | for every table of positive distinct ids the scan ends, visits every enabled channel exactly once in id order, and its summary is the tally of those visits |
| `UpstreamScan.ForcedTotal` | controller/channel_upstream_update.go:712-740 | in a forced run the detected-add total is the sum of the pending additions of successfully checked channels |
| `UpstreamScan.SummaryCounts` | controller/channel_upstream_update.go:706-745 | every figure of the summary as a count or sum over the visited channels |
| `UpstreamScan.ForcedFigures` | controller/channel_upstream_update.go:724-729 | in a forced run each checked channel contributes its pending additions and removals |
| `UpstreamScan.AdoptsOnlyWhereAllowed` | controller/channel_upstream_update.go:498-510 | nothing is adopted where the channel or the run does not allow it |
| `UpstreamScan.AdoptionDoesNotChangeTotal` | controller/channel_upstream_update.go:712-740 | adopting or staging makes no difference to that total |
| `PricingDiff.CollectModels` | controller/ratio_sync.go:542-557 | the models collected are exactly those mentioned in some field of some data set |
| `PricingDiff.ConfidenceOf` | controller/ratio_sync.go:562-590 | a channel is distrusted for a model exactly when it shows the 37.5 / 1 placeholder |
| `PricingDiff.BuildItem` | controller/ratio_sync.go:593-654 | the loop over channels yields the drafted item exactly when one is due |
| `PricingDiff.BuildDifferences` | controller/ratio_sync.go:536-696 | the four passes of loops, deletions included, produce the declarative report |
| `PricingProof.ReportedExactly` | controller/ratio_sync.go:632-693 | for all values, nulls and the literal "same" included, when a model and field are reported |
| `PricingProof.ReportedIffContradicted` | controller/ratio_sync.go:536-696 | for ordinary values, reported if and only if some channel gives a value the local settings lack or contradict |
| `PricingProof.ContradictsNumbers` | controller/ratio_sync.go:107-132 | in numeric fields, numbers and integers contradict exactly when they are a tolerance or more apart |
| `PricingProof.ContradictsTexts` | controller/ratio_sync.go:55-62 | texts and truth values contradict exactly when they differ |
| `PricingProof.ContradictsOtherKinds` | controller/ratio_sync.go:55-62 | values of different kinds contradict, and nulls exactly against a value |
| `PricingProof.ContradictsBilling` | controller/ratio_sync.go:125-132 | billing fields compare values as they are |
| `PricingProof.ContradictsMissing` | controller/ratio_sync.go:606-622 | against a missing local value everything but null contradicts |
| `PricingProof.DistrustedIff` | controller/ratio_sync.go:562-590 | distrust exactly when the channel's own ratios stand for numbers near 37.5 and 1 |
| `PricingProof.ListedIffContradicts` | controller/ratio_sync.go:656-674 | a channel is listed exactly when it contradicts the local settings somewhere |
| `PricingProof.ListedChannels` | controller/ratio_sync.go:667-674 | every reported item lists all of those channels and nobody else |
| `PricingProof.ListedValues` | controller/ratio_sync.go:606-634 | each listed channel appears with its own value, the agreement marker or nothing, and with its own trust |
| `PricingProof.ReportMeaning` | controller/ratio_sync.go:536-696 | the returned nested map: which models and fields, the local value, exactly the contradicting channels, and each one's own value and trust |
| `PricingProof.HiddenIff` | controller/ratio_sync.go:632-693 | nothing uncontradicted is reported, and exactly when a contradicted field stays hidden, for all values |
| `PricingProof.NullIsSwallowed` | controller/ratio_sync.go:657-693 | a null against a local value is a difference that is not reported |
| `ModelsDev.SelectCandidates` | controller/ratio_sync.go:915-944 | the nested loops leave, per model, the fold over the providers |
| `ModelsDev.OfferValid` | controller/ratio_sync.go:845-879 | an offer is made exactly for a usable cost in the catalogue and carries that cost's own prices |
| `ModelsDev.SelectedIsBest` | controller/ratio_sync.go:881-944 | over the catalogue's input prices: a candidate is selected iff a usable cost exists; no nonzero one is cheaper by the tolerance, no earlier one is as cheap, zero wins only among zeros and then the first provider by name |
| `ModelsDev.UnsortedDrifts` | controller/ratio_sync.go:881-893 | without sorted providers the tie-break can end at a price undercut by more than the tolerance |
| `PricingProof.NearlyEqualNotTransitive` | controller/ratio_sync.go:48-53 | near-equality is not transitive at any price |
| `RateLimit.InMemoryRateLimiter.constructor` | common/rate-limit.go:14-26 | a new limiter is empty |
| `RateLimit.InMemoryRateLimiter.Request` | common/rate-limit.go:63-88 | the decision and the new queue of the key, other keys untouched; a new key with a negative limit panics and changes nothing |
| `RateLimit.InMemoryRateLimiter.ClearExpiredItems` | common/rate-limit.go:28-52 | the sweep removes exactly the queues whose newest entry has expired |
| `RateLimit.InMemoryRateLimiter.Reset` | common/rate-limit.go:54-61 | everything is forgotten |
| `RateLimit.DecidesByHistory` | common/rate-limit.go:63-88 | the bounded queue decides as counting the full history would |
| `RateLimit.SlidingWindow` | common/rate-limit.go:28-88 | over every run of requests, sweeps and resets, a request is admitted iff fewer than the limit were admitted in the window ending now, and no window ever holds more |
| `RateLimit.ShortExpirationBreaks` | common/rate-limit.go:28-52 | for every longer duration a run exists that breaks the limit, so the expiration condition is exact |
| `RateLimit.ZeroLimitAdmitsFirst` | common/rate-limit.go:63-88 | a limit of zero admits the first request of a key |
| `MultiKey.ReadsBackIff` | model/channel.go:191-213 | a key list is read back from its stored string if and only if it parses as that JSON array or, read by lines, has no line break in a key and non-empty first and last keys; the counter then counts it |
| `MultiKey.Channel.Update` | model/channel.go:548-595 | recounting keys, dropping statuses beyond them, and ignoring an empty key |
| `MultiKey.Channel.DisableKey` | controller/channel.go:1653-1694 | exactly one status changes, for valid indices only; the size is recounted and consistency kept |
| `MultiKey.Channel.EnableKey` | controller/channel.go:1696-1736 | exactly one index loses its status, time and reason; the size is recounted and consistency kept |
| `MultiKey.Channel.EnableAllKeys` | controller/channel.go:1738-1760 | all records are cleared and the number of statuses is reported |
| `MultiKey.Channel.DisableAllKeys` | controller/channel.go:1762-1807 | enabled keys become disabled, all others keep their status, and success means there was one |
| `MultiKey.Without` | controller/channel.go:1842-1872 | the re-indexing loop removes exactly one key and moves every record with its key |
| `MultiKey.Survivors` | controller/channel.go:1889-1935 | the filtering loop keeps exactly the keys that are not automatically disabled, with their records |
| `MultiKey.Channel.DeleteKey` | controller/channel.go:1809-1887 | for every channel, consistent or not: what is persisted, and that the remaining keys keep status, time and reason under their new indices if and only if they fit the stored format |
| `MultiKey.Channel.DeleteDisabledKeys` | controller/channel.go:1889-1956 | deletes exactly the automatically disabled keys if and only if the survivors fit the stored format; when none survives, keeps and re-enables all |
| `MultiKeyDeletion.DeleteOneByOne` | controller/channel.go:1809-1887 | what calling delete_key for each automatically disabled index from the highest down leaves, through the stored string each time, for every list read by lines |
| `MultiKeyDeletion.BothWaysAgreeIff` | controller/channel.go:1889-1956 | two channels that look alike look alike after deleting the disabled keys at once and one by one if and only if none was disabled or a non-empty key survives |
| `MultiKeyDeletion.DeleteAtOnce` | controller/channel.go:1889-1956 | what deleting at once shows for every list read by lines |
| `MultiKeyDeletion.FittingSurvivors` | controller/channel.go:1809-1887 | where the survivors fit the stored format, exactly they remain |
| `MultiKeyDeletion.KeysByLines` | model/channel.go:191-213 | a stored list with some text reads back without its empty keys at either end |
| `MultiKeyProof.OnlyBlankSurvives` | controller/channel.go:1889-1956 | the input on which the two ways differ |
| `MultiKeyProof.PlainReadByLines` | controller/channel.go:1889-1956 | plain and empty keys are read by lines at every step |
| `MultiKeyProof.BlankKeyShifts` | controller/channel.go:1809-1887 | the deletion that goes wrong: a key is enabled again and its time is left under a missing index |
| `MultiKeyProof.LeadingBlankIsLost` | model/channel.go:191-213 | an empty first key is not read back |
| `MultiKeyProof.CleanKeys` | controller/channel.go:646-656 | the loop over a new channel's lines: empty lines are skipped, then lines are trimmed and counted |
| `MultiKeyProof.AddedKeysAre` | controller/channel.go:648-654 | the added keys are the non-empty lines, each trimmed, in order |
| `MultiKeyProof.EmptyArrayMiscounted` | model/channel.go:560-576 | an empty JSON array holds no key but is counted as one |
| `MultiKeyProof.AddedReadsBack` | controller/channel.go:646-656 | a new channel's keys are read back exactly when neither its first nor its last non-empty line is blank |
| `MultiKeyProof.AppendKeys` | controller/channel.go:1007-1081 | the append loops compute the specified stored string |
| `MultiKeyProof.AppendedKeys` | controller/channel.go:1047-1077 | each new trimmed key is added once and only if absent, in order |
| `MultiKeyProof.AppendRoundTrip` | controller/channel.go:1007-1081 | existing keys stay an unchanged prefix, the result reads back, and appending again adds nothing |
| `MultiKeyProof.AppendReadsLikeGetKeys` | controller/channel.go:1013-1028 | append mode reads the stored key as everybody else does, except exactly for an unparsable "[" key |
| `BodyStorage.MemoryStorage.Read` | common/body_storage.go:47-54 | refines the common read specification |
| `BodyStorage.MemoryStorage.Seek` | common/body_storage.go:56-63 | refines the common seek specification |
| `BodyStorage.MemoryStorage.Close` | common/body_storage.go:65-72 | closes once and gives back its share of the counters once |
| `BodyStorage.DiskStorage.Read` | common/body_storage.go:169-176 | refines the read specification but for empty buffers |
| `BodyStorage.DiskStorage.Seek` | common/body_storage.go:178-185 | refines the common seek specification |
| `BodyStorage.DiskStorage.Close` | common/body_storage.go:187-196 | closes once and gives back its share of the counters once |
| `BodyStorage.DiskStorage.GetBytes` | common/body_storage.go:198-230 | returns the whole contents and leaves the position where it was |
| `BodyStorage.CreateBodyStorage` | common/body_storage.go:241-259 | the storage holds the data from offset 0, is on disk exactly when wanted and possible, and is counted |
| `BodyStorage.CreateBodyStorageFromReader` | common/body_storage.go:262-303 | refusal, its reason, the kind of storage, its contents and the counters |
| `BodyStorage.Stats.DecrementDiskFiles` | common/disk_cache_config.go:115-122 | the disk counters decrease and stop at zero |
| `ReusableBody.Context.GetRequestBody` | common/gin.go:36-83 | a cached open storage is handed out rewound and whole; otherwise the body is read once and refused or stored |
| `ReusableBody.Context.UnmarshalBodyReusable` | common/gin.go:108-155 | decoding sees the whole body; success leaves it rewound and makes it the request body; contents never change |
| `ReusableBody.Context.Cleanup` | common/gin.go:99-106 | the storage is closed, released from the context and taken off the counters |
| `BodyProof.ReadsAgree` | common/body_storage.go:47-54 | memory and disk answer a read alike if and only if it is not an empty read at the end of an open storage |
| `BodyProof.SameStates` | common/body_storage.go:169-185 | both storages go through the same states under any reads and seeks |
| `BodyProof.ReadAgain` | common/gin.go:36-46 | after any earlier reads and seeks, rewinding yields the whole body in any piece sizes |
| `BodyProof.AcceptedIffFits` | common/body_storage.go:262-303 | without I/O errors a body is accepted iff it fits the limit, wherever it is stored |
| `BodyProof.RefusedExactly` | common/body_storage.go:262-303 | with I/O errors: when a body is accepted, too large, or unreadable |
| `BodyProof.LimitInBytes` | common/gin.go:60-64 | the limit in bytes, with its default |
| `BodyProof.GoesToDiskIff` | common/body_storage.go:241-270 | which bodies go to disk, over the configured threshold and maximum |
| `BodyProof.SeekMeaning` | common/body_storage.go:56-63 | positions from the start, the current place and the end, and refused ones |
| `BodyProof.ClosedForGood` | common/body_storage.go:187-196 | a closed storage answers nothing for good |
| `BodyProof.RunAccounted` | common/disk_cache_config.go:109-134 | over every run, with repeated closes and failed creations, the counters are the number and size of the open storages of each kind |
| `BodyProof.StepExceedsIff` | common/body_storage.go:262-282 | from any accounted cache within the maximum, an operation exceeds it if and only if it streams an accepted body that does not fit |
| `BodyProof.StaysWithinIff` | common/disk_cache_config.go:170-177 | a run stays within the maximum throughout if and only if none of its operations does that |
| `BodyProof.DiskBounded` | common/disk_cache_config.go:170-177 | disk usage never exceeds the maximum when no body declared long enough for streaming is longer than declared |
| `BodyProof.ShortDeclarationOverflows` | common/body_storage.go:262-282 | after any run within the maximum, a streamed body exceeds it exactly when it does not fit |
| `OggScan.GetOpusDuration` | common/audio.go:196-253 | the scan ends on every byte string and returns the maximum of 0 and the granules of the headers it visits, over 48000 |
| `OggScan.MaxFromIsMax` | common/audio.go:203-253 | that value is an upper bound of the visited granules and is reached |
| `OggScan.ScansStreams` | common/audio.go:203-253 | on every stream of well-formed pages, with junk before, between and after them, exactly the page headers are visited and the result is their signed maximum |
| `OggScan.ScansCutPage` | common/audio.go:228-248 | a last page cut off behind its header still counts and ends the scan |
| `OggScan.GranuleInPlace` | common/audio.go:228-232 | the eight little-endian bytes read back as the signed granule position |
| `Quota.SaturateRange` | common/quota_math.go:72-86 | every result is a 32-bit value, and an unclamped one truncates toward zero |
| `Quota.SaturateExactly` | common/quota_math.go:72-86 | which values are clamped, and to what |
| `Quota.SaturateMonotone` | common/quota_math.go:72-86 | conversion is monotone, infinities included |
| `Quota.RoundedMonotone` | common/quota_math.go:119-130 | rounding conversion is monotone |
| `Quota.RoundClampsIff` | common/quota_math.go:119-136 | a clamp is reported iff the rounded value reaches a bound or is not a number, and strict variants fail exactly then |
| `Quota.DecimalConverts` | common/quota_math.go:138-148 | a decimal converts within one half, and is clamped to a bound, with a report, exactly when it comes within half a unit of it |
| `Quota.DecimalMonotone` | common/quota_math.go:138-148 | the decimal conversion is monotone |
| `Quota.SettleMonotone` | controller/channel-test.go:542-552 | the settled quota is monotone in both token counts |
| `Quota.PriceSettles` | controller/channel-test.go:552-552 | in price mode the tokens do not matter and the price times the unit is truncated, or clamped |
| `Quota.PriceMonotone` | controller/channel-test.go:552-552 | in price mode the quota is monotone in the price |
| `Quota.SettleAtLeastOne` | controller/channel-test.go:546-548 | a nonzero model ratio costs at least one |
| `Quota.SettleError` | controller/channel-test.go:544-545 | the two roundings stay within (ModelRatio + 1) / 2 of the exact product |
| `Quota.StoredAmountExact` | controller/topup.go:242-247 | the stored amount in token mode, rounding of the decimal quotient included |
| `Quota.TokenTopUp` | controller/topup.go:398-400 | the credit is floor(A/q)·q capped, under an exact condition; it never exceeds A and falls short by less than q |
| `Version.NumericIsInteger` | common/version_compare.go:122-132 | comparing digit strings of any length is comparing the integers they denote |
| `Version.IsNumericSegment` | common/version_compare.go:109-120 | the loop decides whether a segment is a non-empty digit string |
| `Version.CompareVersionCores` | common/version_compare.go:77-107 | the loop returns the first decisive segment comparison |
| `Version.VersionsConverse` | common/version_compare.go:37-70 | newer and older are converses for all inputs, and unknown exactly for blank versions |
| `Version.CoresByValue` | common/version_compare.go:77-107 | numeric cores compare by value at the first difference, missing segments as zero |
| `Version.AtMostMeaning` | common/version_compare.go:37-70 | the order of numeric versions: cores by value, then a release above its pre-releases |
| `VersionText.ParsesAsWritten` | common/version_compare.go:24-35 | a version as written, with blanks, a leading v, a suffix and build metadata, parses to its segments and suffix |
| `VersionText.WrittenOrder` | common/version_compare.go:37-70 | written versions compare by the values of their segments and then a release above its pre-releases |
| `VersionText.HigherSegmentWins` | common/version_compare.go:77-107 | the first higher number decides |
| `Version.TotalPreorder` | common/version_compare.go:37-132 | on numeric versions the comparison is a total preorder |
| `Version.NumbersAreVersions` | common/version_compare.go:72-75 | every digit string is a numeric version of one segment |
| `Version.SegmentsBreakIff` | common/version_compare.go:77-107 | a chain of three segments fails to be transitive exactly in the named mixed cases |
| `Version.VersionsBreakIff` | common/version_compare.go:37-107 | a chain of three versions fails to be transitive exactly where its first deciding position breaks, or ties the outer two that compare wrongly beyond |
| `Version.MixedVersionsCycle` | common/version_compare.go:37-132 | 10, 1a and 9 form a cycle |
| `Text.SplitTrimJoin` | model/channel.go:305-310 | splitting a trimmed join gives the parts back |
| `Text.JoinSplit` | model/channel.go:305-310 | joining undoes splitting for every text |
| `Text.LessMeaning` | common/version_compare.go:100-103 | the order of texts: a proper beginning, or the lower character at the first difference |

## Left out

- The order lock covers one process, as the code does; several nodes are not modelled. Handlers of the other payment gateways and subscription orders are left out beyond "any change to orders of another provider".
- The order protocol is a state machine over values rather than a class, since its subject is the interleaving of many goroutines. Log records, the top-up log, the quota cache and the referral rewards are left out; Stripe orders completed by an administrator are credited by amount rather than by money, as one of the other balance changes.
- Real numbers stand for float64 and decimal: rounding of floating-point products is not modelled, only the conversions and the sixteen-digit decimal quotient.
- `Quota.SettleMonotone` and its neighbours cover the non-tiered branches of the settlement; tiered billing expressions, `getMinTopup` and prices in currency are left out.
- Regular expressions, JSON parsing, HTTP fetching, sorting and database queries are parameters: a matcher, a parser of stored keys, a fetched list, sorted providers and a query that answers correctly.
- UpstreamModels.Channel: the redirect mapping is taken as already trimmed. Ability updates are only a success or failure.
- UpstreamScan.ScanOnce: cancellation, query errors, progress reports, sleeping, name samples and notifications are left out; every channel is checked on the values its row holds.
- PricingDiff: values that cannot be compared (nested lists or objects) would panic in the code and are left out; the conversion of provider formats into ratios, OpenRouter prices and rounding to six digits are left out.
- PricingProof.ReportedExactly: requires distinct channel names, which the caller makes unique by appending the channel id (`controller/ratio_sync.go:246-249`).
- ModelsDev.SelectCandidates: visits one provider's models in any order, since they do not influence each other.
- RateLimit: the mutex, the sweeping goroutine's timing and the Redis limiter are left out; sweeps may happen at any time.
- MultiKey: the Vertex AI branch of append mode, key status pages and polling indices are left out, and store failures as well.
- BodyStorage: cache-hit counters, cleanup sweeps, counter resets and file system details are left out; concurrent requests sharing the counters are left out, so the disk limit is for sequential runs.
- BodyStorage.DiskStorage.GetBytes: read errors of an open file are left out.
- ReusableBody.Context.UnmarshalBodyReusable: form parsing is the decoder parameter; the stream decoder's reads are one read.
- OggScan: the reader is a byte string without I/O errors; checksum and stream structure are ignored, as in the code. Other audio formats are left out.
- Version: pre-release text is compared as a string, as in the code, not by the rules of semantic versioning.
- Relay retry loops, token billing, OAuth, sessions, status pages and settings are left out.
