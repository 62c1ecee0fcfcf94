# Virta engine: a verified model of its state machines

Virta's Go engine carries chat messages from platform adapters through an engine,
a chain of stages and a fan-out to sinks, and paces what is sent back. This project
models the parts of it that are state machines or text transformations and proves,
for every input and every run, what those parts promise. Each Dafny module follows
one source component:

| module (file) | component |
|---|---|
| `RateLimit` (Governor.dfy), `AdaptiveRate` (Adaptive.dfy), `Ledger`, `Answers`, `Penalties` (Penalty.dfy) | send pacing: the token-bucket governor and its ledger, the adaptive layer above it and which answers move it, and how long a penalty lasts |
| `Positional`, `Ulid` (Ulid.dfy) | ULID minting: in-place counter, bit-sliced encoding, string order |
| `Segments`, `Spans`, `Filter`, `Masking`, `MaskComposition`, `MaskStage` | profanity masking of message segments |
| `Emotes` | third-party emote rewriting |
| `Pipeline` | drop-oldest fan-out to sinks |
| `Hub` | the stream hub: replay ring, broadcast, resume |
| `Windows`, `Stats`, `Velocity`, `Moments`, `MomentRuns`, `MomentCases` | per-second bucket rings, channel statistics, flood sampling, the spike detector |
| `IdMap`, `Engine` | ingest: ids, first-time marks, deletion lookup through a bounded FIFO map |
| `Logbook` | which messages may ever be written |
| `PasteString` | the theme paste-string codec |
| `Ring`, `Sorting` | fixed rings without modulo arithmetic, and sorting by an order, shared by several modules |

Objects whose methods update fields are classes, loops are loops with invariants,
and every such method is tied to a function of the old state; the laws are lemmas
about those functions. Concurrent parts are step systems: the critical sections of
each goroutine are separate steps and a run is any legal sequence of them.

## Where the code differs from what is said about it

- A comment in internal/ratelimit/adaptive.go:122-123 promises that nothing is sent
  before the wait the platform suggested. Later successes in the same batch may raise the
  limit, by one doubling a quiet period, and shorten that wait
  (`AdaptiveRate.RecoveryCutsAPenaltyShort`). On a real clock they can exactly when the
  burst they can raise the channel to before the wait is over refills the bucket in time
  (`Penalties.PenaltyIsCutShortIff`); so a wait that ends within the quiet period after the
  answer is always kept (`Penalties.PenaltyIsKept`).
- The comment on `SetEnabled` (internal/logbook/logbook.go:68-70) promises that nothing
  captured before logging is switched off is written afterwards. That is so exactly when
  no `Consume` is between its check and the buffer and no flush holds a batch
  (`Logbook.SwitchingOffStopsWritesIff`, `Logbook.WrittenAfterSwitchOff`).
- A resume may push 1024 events into a queue of 256: everything replayed is still queued
  exactly when at most 256 were missed (`Hub.ReplayFitsIff`; `Hub.ReplayOverflows` reaches such a state).
- The 30-second cooldown between moments is kept in whole Unix seconds. On the clock it is
  kept in every run exactly when the ticker fires at the same place in every second
  (`MomentCases.RestIff`); otherwise the gap falls short by at most the ticker's jitter
  (`MomentRuns.GapOnTheClock`).
- The cooldown, open moments and short moments survive a slow or fast ticker only within
  bounds, which are exact: `MomentCases.CooldownIff` (ticks at most 52 s apart),
  `MomentCases.PruningSparesIff` (at most 58 s), `MomentCases.NoMomentIsLostIff` (at least
  0.6 s).
- `State`'s countdown is exact if and only if a token is there or the limit refills; a limit
  that never refills reports 0 (`RateLimit.CountdownExactIff`).
- A chatter whose first message carries the platform's own first-message tag is not recorded
  in the session set, so the next message is marked as a first one too
  (`Engine.TaggedChatterIsMarkedAgain`, `Engine.MarkIsTrueIff`); what the engine marks is exactly the first untagged
  chat message of each author, until the set is full (`Engine.MarksFirstUntagged`).
- Two message ids of different channels can share a lookup key when a channel key contains
  '|' (`Engine.CollisionIff`, `Engine.BarInSlugConfusesDeletion`).

## Model

| member | source | states |
|---|---|---|
| `RateLimit.Governor.SetLimit` | internal/ratelimit/governor.go:58-66 | a new limit is stored and tokens above its burst are cut; no other channel changes |
| `RateLimit.Governor.Penalize` | internal/ratelimit/governor.go:71-83 | after a refill, tokens drop to at most the balance from which the wait earns one token, never above zero |
| `RateLimit.Governor.Submit` | internal/ratelimit/governor.go:88-100 | the entry joins the end of its channel's queue only |
| `RateLimit.Governor.BeginBatch` | internal/ratelimit/governor.go:126-147 | nothing while a batch is in flight; else after a refill the first k queued entries leave for exactly k tokens, k whole tokens being there, and entries stay only when less than one token is left; the flag is raised iff k > 0 |
| `RateLimit.Governor.EndBatch` | internal/ratelimit/governor.go:148-156 | only the sending flag of the channel is lowered |
| `RateLimit.Governor.State` | internal/ratelimit/governor.go:160-177 | queue length of the refilled channel; countdown 0 when a token is there, nothing is queued or nothing refills, else the shortfall over the refill rate; an unknown channel is not created |
| `RateLimit.SendsAreFifoAndExactlyOnce` | internal/ratelimit/governor.go:88-156 | in every interleaving results are delivered in submission order, no result channel receives two values, and those with none are exactly the sends in flight or queued |
| `RateLimit.RateBound` | internal/ratelimit/governor.go:126-203 | with a fixed limit, any interleaving and any stale clock readings, the dequeues in [s,t] of the refill clock number at most Burst + Burst·(t−s)/Window |
| `Ledger.LedgerBalances` | internal/ratelimit/governor.go:126-203 | over any run under a fixed limit: dequeued + tokens left + what a full bucket turned away = what was there + what the refill clock earned |
| `Ledger.QueueWaitsOnlyForTokens` | internal/ratelimit/governor.go:126-203 | the bound from below: after a drain something stays queued only when the quota, less the spill, is spent to less than one |
| `Ledger.FullBucketSendsAtOnce` | internal/ratelimit/governor.go:126-156 | at one clock reading a full bucket lets out min(submitted, Burst) sends, over any number of batches |
| `RateLimit.WindowBound` | internal/ratelimit/governor.go:189-203 | if every pair of dequeues respects a cap, every window does |
| `RateLimit.PenaltyHoldsTheQueue` | internal/ratelimit/governor.go:71-83 | after a penalty, until a faster limit is set, nothing leaves the queue before the wait and one refill interval are over |
| `RateLimit.CountdownExactIff` | internal/ratelimit/governor.go:160-177 | the countdown is the least wait after which a drain moves the queue, if and only if a token is there or the limit refills from a set clock |
| `AdaptiveRate.Adaptive.BaseFor` | internal/ratelimit/adaptive.go:112-120 | the seed with the longest matching prefix, or the default when none matches, whatever the map order |
| `AdaptiveRate.Adaptive.Ensure` | internal/ratelimit/adaptive.go:99-108 | first sight puts a key at its seed, chosen as `BaseFor` chooses, in both maps; later sights change nothing |
| `AdaptiveRate.Adaptive.Hit` | internal/ratelimit/adaptive.go:124-137 | halves the burst, never below one, and stamps the step |
| `AdaptiveRate.Adaptive.MaybeRecover` | internal/ratelimit/adaptive.go:141-158 | doubles the burst up to the seed exactly when below the seed and quiet long enough |
| `AdaptiveRate.AdaptiveAgreement` | internal/ratelimit/adaptive.go:79-158 | in every run, whenever no send is in flight the governor's limit is the adaptive one; the burst stays within one and the seed; every step halves or doubles and raises are a quiet period apart |
| `AdaptiveRate.SeedRateBound` | internal/ratelimit/adaptive.go:79-158 | the seed's rate bound holds across every tighten and recovery |
| `Answers.AnswersMoveTheLimit` | internal/ratelimit/adaptive.go:79-90 | in every run a key was tightened once for each rate-limit answer and raised no more often than sends succeeded; failures move nothing |
| `AdaptiveRate.RecoveryCutsAPenaltyShort` | internal/ratelimit/adaptive.go:122-158 | a run in which a wait of 1000 s ends after 500 s |
| `Penalties.LeavesEarlyIff` | internal/ratelimit/governor.go:58-156 | while no faster limit is set, something can leave the queue before a deadline iff the bucket holds a token or earns one at its rate before then |
| `Penalties.RunsAreTimely` | internal/ratelimit/adaptive.go:79-158 | on a real clock, where all readings but a drain's are those of their own critical section, no stored reading is ever ahead of the time |
| `Penalties.PenaltyIsCutShortIff` | internal/ratelimit/adaptive.go:122-158 | on a real clock, after a rate-limit answer something can leave the queue before the wait is over iff the burst that the batch's other sends can raise the channel to in that time, each raise a quiet period after the step before it, refills the bucket in time |
| `Penalties.PenaltyIsKept` | internal/ratelimit/adaptive.go:122-158 | the wait is kept if it ends within the quiet period after the answer, if the batch holds no other send, or if the burst is the seed |
| `Ulid.Incr` | internal/id/id.go:82-89 | the in-place carry loop computes the byte string plus one |
| `Ulid.IncrementedIsPlusOne` | internal/id/id.go:82-89 | that is +1 modulo 256^n, wrapping exactly when every byte is 255 |
| `Ulid.Encode` | internal/id/id.go:92-121 | the text cut with masks and shifts is the 26-digit base-32 text of the 128-bit number |
| `Ulid.MaskedIsForty` | internal/id/id.go:96-103 | the eight digits masked and shifted out of five bytes are those of the same forty bits |
| `Ulid.EncodedDigitsAreBase32` | internal/id/id.go:92-121 | each character position holds the matching 5-bit digit |
| `Ulid.EncodingOrder` | internal/id/id.go:92-121 | strings compare as the numbers and as the bytes do |
| `Ulid.EncodingInjective` | internal/id/id.go:92-121 | no two byte strings share a text |
| `Ulid.ULID.New` | internal/id/id.go:52-79 | the same millisecond counts the entropy up; another one takes the bytes read, counted up if the read failed; the text is that of 48 bits of milliseconds above the entropy |
| `Ulid.AlphabetIs` | internal/id/id.go:21 | the digits and the capital letters without I, L, O and U, in order |
| `Ulid.NextSortsAfter` | internal/id/id.go:52-79 | whatever the clock reads below 2^48 ms, the next id sorts after the last iff the millisecond is later, or the same and the counter not at its maximum |
| `Ulid.MintedStringsIncrease` | internal/id/id.go:52-121 | over whole runs all minted strings strictly increase iff the milliseconds never go back and no such wrap occurs |
| `Segments.PlainTextOf` | internal/platform/port.go:202-208 | concatenates every segment's text; `Segments.Reading` takes the Reveal field, here `original`, behind masks |
| `Spans.Compact` | internal/filter/filter.go:325-336 | the in-place compaction, sharing its buffer with the spans still to read, computes the coalesced list |
| `Spans.MergeSpans` | internal/filter/filter.go:320-337 | sort and compaction in place give the merged list |
| `Spans.MergedIsNormal` | internal/filter/filter.go:320-337 | merged spans are sorted, nonempty, strictly separated, and cover the same bytes |
| `Spans.NormalIsUnique` | internal/filter/filter.go:320-337 | there is only one such list for a set of bytes, so an unstable sort cannot show |
| `Filter.ScanIsKeywordRuns` | internal/filter/filter.go:286-306 | the scan finds exactly the maximal word runs whose lower-cased text is a keyword |
| `Filter.ScanIsNormal` | internal/filter/filter.go:286-306 | keyword runs are never adjacent, so they come out merged |
| `MaskStage.ScanWords` | internal/filter/filter.go:286-306 | the nested loops compute that scan |
| `MaskStage.WideMatches` | internal/filter/filter.go:307-313 | exactly the nonempty matches, in order |
| `MaskStage.CollectSpans` | internal/filter/filter.go:284-315 | a normal form covering exactly the bytes of keyword runs and nonempty regex matches |
| `MaskStage.SplitMasked` | internal/filter/filter.go:265-279 | the pieces show the text with every span replaced by three U+2217, written out, and are plain text or mask segments showing just that |
| `Masking.SplitVeils` | internal/filter/filter.go:265-279 | the same of the specification |
| `Masking.SplitShades` | internal/filter/filter.go:265-279 | splitting keeps every byte and masks exactly the covered ones |
| `Masking.MaskingIsExact` | internal/filter/filter.go:239-279 | in a text segment a byte is masked iff a keyword run or regex match covers it |
| `Masking.MaskingConserves` | internal/filter/filter.go:239-279 | the original behind masks, and text elsewhere, still concatenate to the same body |
| `MaskStage.Message.MaskSegments` | internal/filter/filter.go:239-262 | other kinds and text with nothing to mask stay as they are; any other text becomes pieces that show it with the runs to mask replaced by the asterisks and keep every byte; the result says whether anything was masked |
| `Masking.MaskingRewrites` | internal/filter/filter.go:239-279 | the same of the specification |
| `MaskStage.Message.ApplyRule` | internal/filter/filter.go:209-227 | a mask rule in scope rewrites the content with its keywords and regexes and marks the message iff some byte must be masked; any other rule leaves it |
| `MaskStage.HitsIff` | internal/filter/filter.go:239-262 | something is reported masked iff some byte must be masked |
| `MaskStage.Message.Annotate` | internal/filter/filter.go:209-230 | every rule in order has its own effect on what the rules before it left; the masked annotation is set iff some mask rule found something |
| `MaskStage.RulesetConserves` | internal/filter/filter.go:209-262 | no ruleset, regexes included, loses or reorders a byte of the body |
| `MaskComposition.MaskingComposes` | internal/filter/filter.go:239-337 | masking with K1 then K2 is masking once with their union |
| `MaskComposition.MaskingCommutes` | internal/filter/filter.go:239-337 | the order of two keyword passes is irrelevant, and repeating one changes nothing |
| `MaskComposition.CutScan` | internal/filter/filter.go:286-306 | a scan splits at every token boundary |
| `MaskStage.RulesetIsOnePass` | internal/filter/filter.go:209-262 | any ruleset whose mask rules in scope carry keywords only masks once with the union of the keywords in scope |
| `MaskStage.RuleOrderIsIrrelevant` | internal/filter/filter.go:209-262 | rulesets with the same keywords in scope give the same message, and a second pass does nothing |
| `Emotes.Merge` | internal/emotes/emotes.go:59-72 | for every nonempty name the first emote in precedence order, and nothing else |
| `Emotes.ContainsEmote` | internal/emotes/emotes.go:184-200 | true iff some whole space-delimited word is in the set |
| `Emotes.ApplyEmotes` | internal/emotes/emotes.go:206-240 | unchanged iff no word is in the set, else the buffered rewrite |
| `Emotes.Rebuild` | internal/emotes/emotes.go:156-179 | the lazy rebuild equals the plain rewrite of every segment: other kinds and text without a word of the set stay, other text becomes pieces that concatenate to it, one emote piece for each such word |
| `Emotes.Annotate` | internal/emotes/emotes.go:151-180 | the same of the message's segments |
| `Emotes.EmotingRewrites` | internal/emotes/emotes.go:151-240 | the same of the specification |
| `Emotes.EmotesKeepText` | internal/emotes/emotes.go:151-240 | plain text and reading of a message never change |
| `Emotes.EmotesAreWholeWords` | internal/emotes/emotes.go:202-240 | one emote segment spans bytes a to b iff they are a whole space-delimited word of the set, and it carries that word's emote |
| `Emotes.EmoteBytes` | internal/emotes/emotes.go:202-240 | a byte lies in an emote segment iff its whole word is in the set |
| `Emotes.SecondPassIsIdle` | internal/emotes/emotes.go:151-240 | a second pass changes nothing |
| `Emotes.MaskThenEmotes` | internal/emotes/emotes.go:151-240 | after any mask rules and then emotes the reading is still the original body |
| `Pipeline.SinkWorker.Push` | internal/pipeline/runner.go:256-270 | at most two rounds; the new event is last, and what left a full buffer is what the worker took and the one drop counted, none if the worker emptied it first |
| `Pipeline.SecondSendSucceeds` | internal/pipeline/runner.go:256-270 | with one producer the second send cannot be refused |
| `Pipeline.SinksAreIsolated` | internal/pipeline/runner.go:132-166 | each sink ends as in a run of its own steps alone |
| `Pipeline.SinkAccounting` | internal/pipeline/runner.go:151-295 | consumed, in flight and buffered are an in-order subsequence of the dispatched events; drops counts exactly the missing; the newest is never missing |
| `Hub.PushBytes` | internal/api/hub.go:142-155 | the new event gets in; what left a full queue is what the write pump took and one dropped, none if the pump emptied it first |
| `Hub.BroadcastTo` | internal/api/hub.go:105-111 | a client gets the event iff it is for all, or the subscription is empty, or names its channel; nothing else changes |
| `Hub.StreamHub.Stamp` | internal/api/hub.go:96-101 | the next sequence number |
| `Hub.StreamHub.Record` | internal/api/hub.go:115-122 | the ring keeps being the last 1024 recorded events |
| `Hub.StreamHub.Publish` | internal/api/hub.go:102-112 | records, then offers the event to every client, as one step |
| `Hub.StreamHub.Collect` | internal/api/hub.go:125-137 | the ring's events past the cursor that are for all, or whose channel an empty or naming subscription selects, ascending |
| `Hub.StreamHub.ReplayTo` | internal/api/hub.go:125-139 | those events are pushed to that client only, whose queue keeps the newest 256 |
| `Hub.StreamHub.Register` | internal/api/hub.go:168-175 | refused iff closed; a new client starts empty |
| `Hub.StreamHub.Unregister` | internal/api/hub.go:178-185 | removes that client only |
| `Hub.ReplayListIs` | internal/api/hub.go:115-139 | sorting what the ring holds gives the newest recorded events in ascending order |
| `Hub.RingIsTheNewest` | internal/api/hub.go:115-122 | in every reachable state the ring is exactly the last 1024 recorded events |
| `Hub.ResumeLeavesNoGap` | internal/api/stream.go:87-96 | after subscribing and then replaying from N, in any interleaving, every wanted event past N that was in the ring at the replay or recorded later has been enqueued |
| `Hub.NewClientGetsEverything` | internal/api/hub.go:168-175 | a client that never subscribes is enqueued every event recorded after it registered |
| `Hub.PublishGivesIff` | internal/api/hub.go:102-112 | publishing enqueues the event for exactly the clients whose subscription selects it |
| `Hub.ReplayIsInOrder` | internal/api/hub.go:125-139 | a replay enqueues the missed events once each, ascending |
| `Hub.ReplayFitsIff` | internal/api/hub.go:125-155 | everything replayed is still queued iff at most 256 events were missed |
| `Hub.ReplayOverflows` | internal/api/hub.go:125-155 | a run of 258 events after which a resume loses one |
| `Windows.LiveSumIsRecount` | internal/stats/stats.go:66-82 | live slots of a ring of seconds add up to a recount of the log over the window |
| `Windows.RecordCounts` | internal/stats/stats.go:52-57 | the reset-or-keep rule keeps every slot equal to the log's weight at its second |
| `Stats.ChannelStats.Record` | internal/stats/stats.go:52-64 | count, author and emotes go to the event's second, resetting a stale bucket |
| `Stats.ChannelStats.TakeSnapshot` | internal/stats/stats.go:66-89 | against every log the ring refines: rate, unique authors and leaderboard are those of a recount over (now−60, now] |
| `Stats.ChannelStats.Active` | internal/stats/stats.go:91-98 | true iff the log has an event in the window |
| `Stats.RunRefines` | internal/stats/stats.go:52-64 | recording any log in time order leaves a ring that refines it |
| `Stats.TopEmotes` | internal/stats/stats.go:214-232 | the n best entries by count then name, whatever order the map is walked in |
| `Stats.TopIsUnique` | internal/stats/stats.go:214-232 | there is only one such leaderboard |
| `Velocity.Record` | internal/velocity/velocity.go:43-68 | against every log the counters refine, the rate is the recount over the 3-second window divided by the elapsed seconds |
| `Velocity.RateIsRecount` | internal/velocity/velocity.go:43-68 | the same as a law of the counters |
| `Velocity.RateOverElapsed` | internal/velocity/velocity.go:54-67 | the divisor is the seconds since the channel's first message, itself included, three at most |
| `Velocity.FirstSecIsTheFirst` | internal/velocity/velocity.go:44-46 | elapsed time counts from the channel's first message unless that fell in Unix second 0, which reads as not started |
| `Velocity.KeepIsExact` | internal/velocity/velocity.go:95-126 | over any stretch above threshold, kept + keep at its end = keep at its start + the sum of threshold/rate over ordinary messages |
| `Velocity.KeptWithinOne` | internal/velocity/velocity.go:117-123 | 0 <= keep < 1, and the number kept is within one of that sum |
| `Velocity.SampledOnlyOverload` | internal/velocity/velocity.go:110-124 | only ordinary messages above threshold are marked |
| `Velocity.CalmResets` | internal/velocity/velocity.go:110-113 | at or under the threshold nothing is marked and the accumulator is reset |
| `Velocity.IsPriority` | internal/velocity/velocity.go:130-141 | first-time chatters and the five badges |
| `Velocity.Stage.Annotate` | internal/velocity/velocity.go:95-126 | the new counters of the message's channel and whether it is marked; other channels unchanged |
| `Velocity.StageIsPerChannel` | internal/velocity/velocity.go:95-126 | a channel's state is a run of its own chat messages |
| `Velocity.MarkedMeansFlooded` | internal/velocity/velocity.go:95-141 | in any run a marked message is an ordinary chat message of a channel whose own recounted rate is above the threshold in force |
| `Moments.ChannelState.Record` | internal/moments/moments.go:79-87 | the event's second gains one, a stale bucket is reset, last-seen moves |
| `Moments.ChannelState.Rate` | internal/moments/moments.go:90-98 | against every log the ring refines, the recount over (now−10, now] divided by 10 |
| `Moments.ChannelState.Remember` | internal/moments/moments.go:101-106 | the last eight messages |
| `Moments.PickNewest` | internal/moments/moments.go:128-136 | the backward scan picks the newest distinct unseen messages |
| `Moments.ChannelState.RefreshExcerpt` | internal/moments/moments.go:116-141 | the first four entries, then in chronological order the newest distinct ring messages not among them that fit eight in all |
| `Moments.NewestIsTheFreshest` | internal/moments/moments.go:113-141 | the fill is distinct, new and exactly the unseen messages of a suffix of the ring, all of it if there is room |
| `Moments.ChannelState.AdvanceSpike` | internal/moments/moments.go:292-315 | peak raised, excerpt refreshed iff the rate is within a tenth of it, quiet count, closing at five below max(3, 1.5·baseline), cooldown of 30 s, moments under 3 s discarded |
| `Moments.ChannelState.Evaluate` | internal/moments/moments.go:250-276 | dropped iff silent for over 300 s; outside a moment the baseline moves by 0.02 and a moment opens iff out of cooldown and the rate is at least max(5, 3·baseline) |
| `MomentRuns.BaselineIsWeighed` | internal/moments/moments.go:262-263 | in every run the baseline is the sum of the calm ticks' rates, each weighing 0.02 and 0.98 times as much for every later one |
| `MomentRuns.RateIsRecount` | internal/moments/moments.go:79-98 | in every run, across pruning, a tick's rate is the recount of all messages ever seen |
| `MomentRuns.MomentsAreFaithful` | internal/moments/moments.go:244-315 | in every run: moments do not overlap; each peak is the maximum rate of its ticks and >= max(5, 3·baseline); each ended at its first five quiet ticks; the excerpt has at most 8 entries and keeps the first 4 onset messages |
| `MomentRuns.PruningSparesOpenMoments` | internal/moments/moments.go:250-254 | with ticks at most 58 s apart pruning never discards an open moment |
| `MomentRuns.CooldownHolds` | internal/moments/moments.go:264-308 | with ticks at most 52 s apart each moment starts, in whole seconds, at least 30 after every earlier one ended |
| `MomentRuns.SteadyTicksKeepTheRest` | internal/moments/moments.go:264-308 | ticks at one place in the second, at most 52 s apart, keep 30 s on the clock between moments |
| `MomentRuns.GapOnTheClock` | internal/moments/moments.go:264-308 | with any ticker the gap falls short of 30 s by at most its jitter, and is more than 29 s |
| `MomentRuns.NoMomentIsLost` | internal/moments/moments.go:244-315 | with ticks 0.6 to 58 s apart every moment opened is persisted once, in order, or still open |
| `MomentCases.PruningSparesIff` | internal/moments/moments.go:250-254 | 58 s is exact |
| `MomentCases.CooldownIff` | internal/moments/moments.go:264-308 | 52 s is exact |
| `MomentCases.NoMomentIsLostIff` | internal/moments/moments.go:303-311 | 0.6 s is exact |
| `MomentCases.RestIff` | internal/moments/moments.go:264-308 | with ticks at most 52 s apart whose places in the second differ by at most j ns, 30 s are kept in every run iff j is 0 |
| `MomentCases.GapUnderThirtySeconds` | internal/moments/moments.go:264-308 | for every e under a second, a run of jitter e with a gap of 30 s less e ns |
| `IdMap.IDMap.PutKey` | internal/engine/idmap.go:30-43 | a known key is updated in place; a new one takes the next slot and evicts its key |
| `IdMap.IDMap.GetKey` | internal/engine/idmap.go:46-50 | the stored ULID or "" |
| `IdMap.GetFindsTheLatest` | internal/engine/idmap.go:30-50 | over any run: the latest ULID of a key among the last cap slot-consuming insertions, else ""; ring entries are distinct and are the map's keys |
| `Engine.Ingester.SetLogging` | internal/engine/engine.go:146 | stores the flag |
| `Engine.Ingester.MarkFirstTime` | internal/engine/engine.go:112-142 | marks an untagged chat author new to the channel's session set while there is room, and records them |
| `Engine.Ingester.Ingest` | internal/engine/engine.go:85-107 | a message leaves with its own id or the minted one, recorded under its channel key and platform id, stamped with the logging flag and perhaps marked; a deletion gets what is recorded under its key; other events untouched |
| `Engine.MarksFirstUntagged` | internal/engine/engine.go:108-142 | over any run, until the set is full, exactly the first untagged chat message of each author is marked |
| `Engine.MarkIsTrueIff` | internal/engine/engine.go:108-142 | with room for the channel's authors, the engine's mark is true to whether the message is its author's first iff the earlier ones were not all tagged |
| `Engine.MarkedOnce` | internal/engine/engine.go:108-142 | no author is marked by the engine twice in a channel |
| `Engine.TaggedChatterIsMarkedAgain` | internal/engine/engine.go:108-118 | after a tagged first message the engine marks the next one as well |
| `Engine.CollisionIff` | internal/engine/engine.go:239-243 | exactly when two (channel, platform id) pairs share a key |
| `Engine.DeletionNamesItsOwnMessage` | internal/engine/engine.go:85-107 | for names without a vertical bar a deletion resolves to nothing or to a message of its own channel and platform id |
| `Engine.DeletionFindsTheNewest` | internal/engine/engine.go:85-107 | a deletion of a message still among the last 8192 slot-consuming insertions resolves to exactly the id the newest such message left with |
| `Engine.LowerFoldsCase` | internal/platform/port.go:223-225 | channel keys tell slugs apart by everything but case |
| `Engine.BarInSlugConfusesDeletion` | internal/engine/engine.go:239-243 | with a vertical bar in a slug it can resolve to another channel's message |
| `Logbook.Sink.SetEnabled` | internal/logbook/logbook.go:71-78 | sets the flag and empties the buffer when off |
| `Logbook.Sink.ConsumeMessage` | internal/logbook/logbook.go:91-105 | buffers a message iff not ephemeral; a full buffer is handed over; the store accepts every batch |
| `Logbook.Sink.Consume` | internal/logbook/logbook.go:86-114 | a message is logged iff open, enabled and not ephemeral; a deletion with an id is passed on iff open and enabled; other events do nothing |
| `Logbook.Sink.Flush` | internal/logbook/logbook.go:141-154 | hands over the whole buffer |
| `Logbook.OnlyLoggedMessagesAreWritten` | internal/engine/engine.go:94-98 | in every interleaving of toggles, ingest, queueing, Consume and flush, everything given to the store was ingested while logging was on, so no batch is refused |
| `Logbook.SwitchingOffStopsWritesIff` | internal/logbook/logbook.go:71-104 | switching off stops all writes iff nothing is between check and buffer and no flush holds a batch |
| `Logbook.WrittenAfterSwitchOff` | internal/logbook/logbook.go:71-104 | a run that writes after switching off |
| `PasteString.EncodeBase64ish` | internal/uikit/vtheme.go:190-212 | the loop computes the base64url text without padding |
| `PasteString.DecodeBase64ish` | internal/uikit/vtheme.go:215-247 | the loop computes the bytes of a text, unknown characters reading as in the table |
| `PasteString.GetDigit` | internal/uikit/vtheme.go:227-236 | a table lookup, zero past the end and outside the alphabet |
| `PasteString.BuildLookup` | internal/uikit/vtheme.go:215-224 | the table maps each alphabet character to its position and all others to -1 |
| `PasteString.EncodingIsBase64` | internal/uikit/vtheme.go:190-212 | every group of characters is the same number as its three bytes, as section 4 of RFC 4648 lays them out |
| `PasteString.PasteFormat` | internal/uikit/vtheme.go:120-130 | the prefix and the encoding; a text without the prefix is refused |
| `PasteString.PasteRoundTrip` | internal/uikit/vtheme.go:120-130 | parsing the paste string of any byte string returns it |
| `PasteString.EncodingShape` | internal/uikit/vtheme.go:190-212 | ceil(4n/3) characters of the alphabet of section 5 of RFC 4648, no padding |
| `PasteString.ReencodeIff` | internal/uikit/vtheme.go:190-247 | re-encoding gives the text back iff it is in the alphabet, leaves no single character over and has zero unused bits |

## Left out

- HTTP, WebSocket transport, JSON, SQL stores, OAuth, the TypeScript and Electron code: plumbing and user interface.
- Floating point and `time.Duration` truncation: rates, tokens, baselines and the keep accumulator are exact reals.
- Integer width: counters and sequence numbers are unbounded; milliseconds below 2^48 are a stated condition where it matters.
- Times before the Unix epoch: seconds are natural numbers, so the negative remainder Go would compute does not arise.
- UTF-8 decoding, the letter-or-digit class, lower-casing and regular expressions: parameters of the filter, assumed only to consume at least one byte, to decode a rune regardless of what follows it, and to report matches in range. `Engine.Lower` folds ASCII letters only.
- Bytes of text are characters below 256; the paste-string decoder reads any other character as outside its table.
- The hide and highlight branches of the filter and their text cache: they touch no content.
- `ChannelStats`, `ChannelRate` and the detector's channel states are modelled per channel: the maps that hold them are values (`Velocity.Stage`) or left out (`Stats`, `Moments`), so pointer sharing between map and callers is not captured.
- Map iteration in `TakeSnapshot` and `TopEmotes`: one step or an arbitrary order; no result depends on it.
- `sort.Slice`: one insertion sort by an order, on values; the results are proved unique where ties could show.
- `Stats.RunRefines`: for events recorded in time order only, as the source intends; a clock that goes back is not covered.
- Shutdown: the runner's and hub's closing races, replay to a client already closed, and the logbook's final flush.
- The replay ring's allocation on first record: it starts out blank instead.
- Reducing messages to what the statistics and the excerpts keep (author fallback, body truncation), stage panics and counters, `Drain` over all keys, `toWire`, webhook delivery, the OBS client, agents: they would add easier members only.
