# Verified models of the Tech News pipeline

This project models the stateful cores of the Tech News aggregator and proves what they keep over whole
runs. `dafny verify dfyconfig.toml` checks all of it.

| file | what it models |
|---|---|
| `TokenBuckets.dfy` | the token bucket: lazy refill, taking, refunding, timed waiting; time is a real clock reading |
| `RateLimiting.dfy` | the domain-aware limiter: one bucket per domain, an optional global bucket, any number of callers interleaved lock region by lock region |
| `SeenWindow.dfy` | the bot's bounded duplicate window and its text file, down to characters and line ends |
| `Delivery.dfy`, `DeliveryRules.dfy` | the bot's pipeline: drop-oldest queue, preparing task, drop-newest queue, publishing task; each stretch between two awaits is one step; what its checks amount to, and that every article gets settled |
| `RingBuffer.dfy` | the engine's article buffer, its eviction and its early-breaking time scan |
| `Polling.dfy` | cursor polling between the bot and that buffer |
| `MessageFit.dfy`, `MessageReading.dfy`, `MessageTags.dfy` | escaping, trimming to a budget and the final safety trim of a Telegram message; what its reader sees; its character references and its tags |
| `LiveFeed.dfy`, `LiveFeedOrder.dfy`, `Sorting.dfy` | the GUI's live feed, archive and duplicate caches, what each handler shows and in which order, with the stable sort they use |
| `EventQueue.dfy` | the GUI event manager's priority queue and its bounded ticks, with handlers that publish and clear while a tick runs |
| `Soak.dfy`, `Regression.dfy` | the soak benchmark's ledger and loop, and its least-squares slope |
| `Crawl.dfy` | the cycle-safe crawl, over any finite link graph |

Objects whose methods update their fields are classes. Each method is proved equal to a step function on
values, or, where it passes through several steps, to a run of them that it returns; the theorems are about
runs of those step functions. What a step function or a check computes is also stated without its name, by
positions, counts or a table of its own. Records of a run (what was evicted, dropped, settled, returned) are ghost state
or part of the value model only.

## What the proofs found

Some claims one would expect do not hold of the code as it stands. Each is stated with its exact condition and,
where it is a failure, with an input or a run that shows it.

- **Pipeline polls are incomplete.** `since_filtered` cuts the scan at twice the limit before it filters.
  The reply is the newest `limit` matches exactly when the newest 2·limit articles hold that many or no
  older one matches (`RingBuffer.FilteredIsCompleteIff`, `RingBuffer.BreakingArticleIsMissed`).
- **A `since` without a time zone filters nothing**: every comparison raises an error that the scan swallows.
  The reply is right exactly when all it can hold is newer anyway (`RingBuffer.NaiveCutoffIsIgnored`,
  `RingBuffer.OldArticleIsReturned`). The bot's own cursors carry a zone.
- **A push at the very time of a reply is lost.** No later poll returns it. Over every run, a push is lost
  exactly when it carries the time of the reply before it or is crowded out of its own poll
  (`Polling.ReturnedByItsPollOrNever`, `Polling.TiedPushIsLost`).
- **`wait` can lose a domain token.** `try_acquire` returns the domain token when the global bucket refuses,
  `wait` does not. A wait loses its token exactly when the domain serves it and the global bucket does not
  (`RateLimiting.RateLimiter.Wait`); `RateLimiting.TokenIsLost` is such a run. Resetting one
  domain refills the global bucket, always (`RateLimiting.RateLimiter.Reset`).
- **`wait` can outlast its timeout**, because it grants the whole of it to each bucket in turn: for a timeout of
  0 or more, exactly when the domain serves it and the two naps together take longer
  (`RateLimiting.WaitOutlastsIff`); with a timeout of 1.5 seconds it can be answered True after 2
  (`RateLimiting.WaitOutlasts`).
- **Ids must be clean to survive a restart.** A blank, untrimmed or multi-line id is remembered in memory but
  not by the file (`SeenWindow.RestartRestoresIffClean`, `SeenWindow.BlankIdIsForgotten`).
- **The file is not written atomically.** A rewrite cut off anywhere but at its last line end forgets the newest
  ids; if it, or an append, is cut off inside a line, the next id is glued to what is left and forgotten as well
  (`SeenWindow.TornRewriteForgetsNewest`, `SeenWindow.TornAppend`).
- **A message without a link can be cut inside a character reference**; the linked branch tests a guard that
  this branch does not (`MessageFit.MessageIsWholeIff`, `MessageFit.UnlinkedMessageCanSplit`). It takes a small
  limit: at the two limits the bot uses every message is whole (`MessageFit.RoomyMessagesAreWhole`).
- **A long address can cost the title its closing tag**, also at the bot's caption limit: nothing keeps the cut
  out of a bold text (`MessageTags.MessageIsBalancedIff`, `MessageTags.LongLinkLeavesBoldOpen`). With a footer
  of at most 250 characters nothing is cut there (`MessageFit.ShortFootersFit`).
- **Archiving by id can lose an address**, because streaming does not add to the id cache
  (`LiveFeed.ArchiveConservesIff`, `LiveFeed.StreamedTwinIsLost`).
- **The region handler does not check a batch against itself** (`LiveFeed.RegionKeepsDistinctIff`,
  `LiveFeed.RepeatInBatchIsShown`). This does no harm as the program stands: what reaches it has passed the
  duplicate gate, and such batches repeat no address (`LiveFeed.DiscoveryKeepsFeed`).
- **A tick can exceed 20 events**: a dispatch that raises is not counted (`EventQueue.TickIsBoundedIff`,
  `EventQueue.TickTakesTwentyOne`; with handlers that publish or clear, `EventQueue.TickExceedsIff`). It takes no
  more than 20 and the failing events it meets (`EventQueue.TicksAreBounded`).
- **A tick can go on for ever**: it ends exactly when its handlers publish only so many failing events
  (`EventQueue.TickEndsIff`). A handler that answers each such event with another keeps it from ending
  (`EventQueue.TickNeedNotEnd`).
- **`silent_data_loss` is always 0**, whatever is recorded or forgotten (`Soak.SilentLossIsAlwaysZero`).

## Model

| member | source | states |
|---|---|---|
| TokenBuckets.TokenBucket.constructor | src/rate_limiter.py:43-51 | a new bucket is full and its refill clock starts now |
| TokenBuckets.TokenBucket.Refill | src/rate_limiter.py:53-66 | credits elapsed time at the rate, cut at capacity, and restarts the clock |
| TokenBuckets.TokenBucket.TryAcquire | src/rate_limiter.py:132-146 | True exactly when the tokens on hand and the inflow since the last refill, cut at capacity, make a whole token, and then takes one |
| TokenBuckets.TokenBucket.AvailableTokens | src/rate_limiter.py:148-157 | reports the tokens after a refill |
| TokenBuckets.TokenBucket.GiveBack | src/rate_limiter.py:328-330 | one token back, never above capacity, no refill |
| TokenBuckets.TokenBucket.FillUp | src/rate_limiter.py:371-373 | full bucket, clock restarted |
| TokenBuckets.TokenBucket.Acquire | src/rate_limiter.py:68-98 | alone and with exact sleeps, every call that ends: with capacity at least 1 it looks at the bucket at most twice, once exactly when it need not or cannot wait, and in a smaller bucket only as often as naps fit into the timeout; its answer is decided by what the first look finds, it succeeds exactly when a token is there or will exist by the deadline, fails on a rate of 0 when it has to wait, keeps the caller exactly that long, and is a run of takes of which only the last can have found a token |
| TokenBuckets.WaitCases | src/rate_limiter.py:68-98 | answer and duration of a blocking acquire case by case, from the tokens first found, the rate, the capacity and the timeout |
| TokenBuckets.LookEnds | src/rate_limiter.py:82-98 | what every look of the loop leads to: one of the three answers, or a nap and another look, with fewer looks left |
| TokenBuckets.Charge | src/rate_limiter.py:53-66 | one lock region takes out no more than was on hand, flowed in or was granted by a reset |
| TokenBuckets.StaysInRange | src/rate_limiter.py:53-90 | over every run of lock regions tokens stay in [0, capacity] |
| TokenBuckets.WindowBound | src/rate_limiter.py:53-146 | in any time window of any run, tokens taken minus refunded are at most capacity + rate × length, plus one capacity per reset |
| TokenBuckets.WindowBoundIsTight | src/rate_limiter.py:53-66 | every whole number of tokens up to that bound is reached by some run |
| TokenBuckets.ResetGrantsBurst | src/rate_limiter.py:371-373 | right after a reset a whole bucket of requests, and any smaller number, can be served at that very moment |
| TokenBuckets.RefillTwice | src/rate_limiter.py:62-66 | an extra refill on the way is invisible later |
| TokenBuckets.RefundUndoesTake | src/rate_limiter.py:326-331 | a refund right after a take leaves the bucket as if nothing had been asked, now and later |
| RateLimiting.RateLimiter.constructor | src/rate_limiter.py:187-213 | no domain buckets, a full global bucket if a global limit is given, and ready for requests |
| RateLimiting.RateLimiter.GetBucket | src/rate_limiter.py:233-250 | returns the domain's bucket as it is, or on first use a bucket of its own, of the limiter's size and rate, full and with its clock at now |
| RateLimiting.RateLimiter.TryAcquire | src/rate_limiter.py:310-333 | is the uninterrupted run of its lock regions, True exactly when both buckets have a token; other domains' buckets are untouched and the limiter stays ready |
| RateLimiting.TryIsAllOrNothing | src/rate_limiter.py:310-333 | the run of the four regions takes one token from each bucket when both have one, and none from either otherwise |
| RateLimiting.TryTakesOneOfEach | src/rate_limiter.py:310-333 | the same by the tokens on hand: the answer, and what is left in both buckets, from each bucket's tokens, rate, size and last refill |
| RateLimiting.RateLimiter.Wait | src/rate_limiter.py:252-277 | domain bucket then global bucket, each with the full timeout, as a run of the same lock regions: answer and duration by what each bucket holds when it is reached, what is left in both, granted exactly when answered True, domain token lost exactly when only the domain serves it; other domains' buckets are untouched and the limiter stays ready |
| RateLimiting.WaitRun | src/rate_limiter.py:252-277 | that run on values: the new state, its grant, its loss, and its place in time |
| RateLimiting.WaitOutlastsIff | src/rate_limiter.py:265-275 | a wait takes longer than its timeout, of 0 or more, exactly when the domain serves it and the naps at the two buckets add up to more |
| RateLimiting.WaitOutlasts | src/rate_limiter.py:265-275 | a concrete wait with timeout 1.5 that is answered True after 2 |
| RateLimiting.RateLimiter.Reset | src/rate_limiter.py:360-383 | the named domain's bucket, or every one, and in both cases the global one hold their whole capacity with their clocks at now; no other bucket changes; and this is a run of resets |
| RateLimiting.RateLimiter.FillAll | src/rate_limiter.py:374-378 | every domain's bucket is reset, as a run of resets |
| RateLimiting.ResetsFill | src/rate_limiter.py:360-378 | resets made at one moment leave the buckets they name full, all others and the global one as they were |
| RateLimiting.GlobalTokensAreGrants | src/rate_limiter.py:271-277 | over any run of any callers, net global tokens equal the True results |
| RateLimiting.DomainTokensAccountedFor | src/rate_limiter.py:266-333 | net domain tokens equal True results plus waits abandoned at the global bucket plus the change in requests under way |
| RateLimiting.HoldingCounts | src/rate_limiter.py:266-333 | requests under way are the callers that hold a domain token and wait for a global one or have yet to give it back |
| RateLimiting.TokenIsLost | src/rate_limiter.py:266-275 | for any two domains and any rate, a run with buckets of size 1 in which a refused wait leaves its domain without the token it took |
| RateLimiting.GlobalLimitHolds | src/rate_limiter.py:206-333 | True results of all domains in any window are at most size + global rate × length, plus one bucket per global reset |
| RateLimiting.DomainLimitHolds | src/rate_limiter.py:233-333 | in the same window each domain's net tokens obey its own bucket's bound, and so do its True results and losses, not counting those of requests that held a token already when the window began |
| RateLimiting.RunsConcat | src/rate_limiter.py:252-333 | runs made one after the other, as by successive calls, are one run: states, grants and losses add up |
| SeenWindow.SeenIds.constructor | telegram_feeder_bot.py:574-601 | start-up holds the ids the file gives, all of them when they are at most max, otherwise the newest ceil(max/2), which are then written back |
| SeenWindow.SeenIds.IsNew | telegram_feeder_bot.py:603-632 | new exactly when not in the window; a new id is appended to window and file while they hold fewer than max, otherwise the window is its newest ceil(max/2) ids and the file is rewritten; agreement of the two is kept for clean ids |
| SeenWindow.CutKeepsNewestHalf | telegram_feeder_bot.py:618-622 | a cut keeps exactly the newest ceil(max/2) ids and the window never exceeds max |
| SeenWindow.LoadedIdsAreClean | telegram_feeder_bot.py:579-583 | ids read from any file are distinct, trimmed, single-line and not blank |
| SeenWindow.IdsInFirstOrder | telegram_feeder_bot.py:579-583 | what any file is read as: the trimmed text of every line that is not blank, each once, in order of first appearance |
| SeenWindow.LinesBetweenBreaks | telegram_feeder_bot.py:579-580 | what the lines of any file are: what stands between line ends, in order, the last one possibly unterminated |
| SeenWindow.StripTakesSpacesOff | telegram_feeder_bot.py:581-581 | stripping takes white space off both ends and nothing else |
| SeenWindow.SpaceCodes | telegram_feeder_bot.py:581-581 | which characters count as white space, by code point |
| SeenWindow.RoundTrip | telegram_feeder_bot.py:594-596 | a window of distinct clean ids is read back from its written file, in order |
| SeenWindow.RestartRestoresWindow | telegram_feeder_bot.py:609-630 | after every offer, and after a crash between append and rewrite, reloading gives the window memory holds or would have held |
| SeenWindow.RestartRestoresIffClean | telegram_feeder_bot.py:574-632 | for a new id reloading restores the window if and only if the id is one trimmed non-blank line |
| SeenWindow.BlankIdIsForgotten | telegram_feeder_bot.py:581-583 | a concrete id that is accepted and not reloaded |
| SeenWindow.TornRewriteForgetsNewest | telegram_feeder_bot.py:624-630 | for every number of characters left of a rewritten file: what the next start loads, that this is the window exactly when at most the last line end is missing, and when the next id appended is lost |
| SeenWindow.TornAppend | telegram_feeder_bot.py:610-613 | after an append cut off inside the id, what the next start loads, and that the next id appended is lost |
| SeenWindow.AcceptedAgainOnlyAfterOthers | telegram_feeder_bot.py:603-632 | over any run an id is accepted again only after at least ceil(max/2) different other ids were accepted in between |
| SeenWindow.RestartsAreInvisible | telegram_feeder_bot.py:574-632 | restarts and such crashes anywhere in a run leave the window an uninterrupted run would have |
| Delivery.FeederBot.Enqueue | telegram_feeder_bot.py:634-659 | the state after receiving an article, and which of the outcomes it had |
| DeliveryRules.HeadlineIff | telegram_feeder_bot.py:641-645 | a title passes exactly when runs of two or more characters that are not white space begin at four places or more |
| DeliveryRules.OutcomeIff | telegram_feeder_bot.py:634-659 | in every reachable state: which articles are ignored, refused as seen, refused for their title, queued, or queued at the cost of the oldest |
| DeliveryRules.OfferChanges | telegram_feeder_bot.py:634-659 | what each of these leaves behind: a refused article changes the duplicate window at most; a queued one is counted and stands last |
| DeliveryRules.OnlyHeadlinesArrive | telegram_feeder_bot.py:636-645 | over every run: every article received, and so every one settled, has an address and a title that passes |
| Delivery.FeederBot.TakeToPrepare | telegram_feeder_bot.py:757-757 | the oldest queued article goes into the preparing task's hand |
| Delivery.FeederBot.Forward | telegram_feeder_bot.py:759-780 | it gets a thumbnail if it has none and joins the publish queue, or is dropped when that is full |
| DeliveryRules.ForwardFillsIn | telegram_feeder_bot.py:759-778 | the image address is the one found exactly when there was none before and one was found; nothing else of the article changes; it goes last into the publish queue, or away when that is full |
| Delivery.FeederBot.TakeToPublish | telegram_feeder_bot.py:800-800 | the oldest prepared article goes into the publishing task's hand |
| Delivery.FeederBot.PublishOne | telegram_feeder_bot.py:802-821 | it is skipped when its summary repeats its title, otherwise attempted and counted if that succeeds |
| DeliveryRules.RepetitionIff | telegram_feeder_bot.py:804-812 | when a summary repeats its title: both are equal once trimmed and in lower case, or the summary is the title with something before and after it and fewer than 30 characters longer |
| DeliveryRules.PublishDecides | telegram_feeder_bot.py:802-821 | the article in hand is settled as skipped exactly in that case, otherwise as attempted with the given success, which alone is counted |
| DeliveryRules.PublishedCounts | telegram_feeder_bot.py:818-820 | in every reachable state the published counter is the number of successful attempts |
| Delivery.StepConserves | telegram_feeder_bot.py:634-835 | every step of every task keeps order, conservation and both queue bounds |
| Delivery.EachArticleInOnePlace | telegram_feeder_bot.py:634-835 | in every reachable state each received article is in exactly one of evicted, queued, preparing, dropped, publish queue, publishing, settled |
| Delivery.SettledInArrivalOrder | telegram_feeder_bot.py:753-835 | articles are settled in arrival order, each as it arrived but for an image address filled in where there was none, skipped exactly when the summary repeats the title, and the published counter counts successes |
| Delivery.RoomIsAlwaysMade | telegram_feeder_bot.py:650-659 | queues stay within their limit and the "could not make room" branch is unreachable |
| Delivery.NewArticleJoinsQueue | telegram_feeder_bot.py:634-659 | a new acceptable article always ends up last in the queue, at the cost of at most the oldest |
| DeliveryRules.EveryArticleIsSettled | telegram_feeder_bot.py:750-835 | nothing stays on its way: from any reachable state, after so many turns of both tasks, whatever lookups and sends bring, every article received has been settled, or was evicted or dropped |
| Delivery.LossOnlyByOverflow | telegram_feeder_bot.py:650-778 | over every run: each evicted article was at some moment the oldest of a full queue, with at least a queue's worth arriving after it; each dropped one found the publish queue full of unpublished articles, with as many having arrived before it; nothing is lost with an unlimited queue or while no more have arrived than it holds |
| Delivery.NoEarlyRepeat | telegram_feeder_bot.py:603-835 | two attempts for the same id are separated by ceil(max_seen/2) other accepted ids |
| RingBuffer.ArticleRingBuffer.constructor | main_engine.py:86-90 | an empty buffer |
| RingBuffer.ArticleRingBuffer.Push | main_engine.py:92-108 | a push is refused exactly when one of the last `capacity` accepted pushes carries its id; otherwise contents are the last min(n, capacity) accepted pushes and the id set exactly the ids held; capacity 0 fails |
| RingBuffer.HeldIff | main_engine.py:94-103 | an id is in the id set exactly when one of the last `capacity` accepted pushes carries it |
| RingBuffer.ArticleRingBuffer.Since | main_engine.py:110-134 | the scan's result for every limit and every kind of time: none, with a zone, without one |
| RingBuffer.SinceReturns | main_engine.py:110-134 | how many entries come back for every limit and every kind of time, and that they are the newest ones, newest first |
| RingBuffer.SinceIsFilterThenLimit | main_engine.py:110-134 | on a buffer in time order the early-breaking scan is filter, newest first, take limit |
| RingBuffer.NaiveCutoffIsIgnored | main_engine.py:124-130 | a time without a zone filters nothing, so the reply is right exactly when all it can hold is newer |
| RingBuffer.OldArticleIsReturned | main_engine.py:124-130 | a concrete buffer whose old article comes back to such a time |
| RingBuffer.ArticleRingBuffer.SinceFiltered | main_engine.py:136-146 | scan with twice the limit, filter by pipeline, take limit |
| RingBuffer.FilteredReturns | main_engine.py:136-146 | for every limit, positive or not: how much of what comes back, and that with a pipeline it is all entries of that pipeline in the scan at twice the limit, in order |
| RingBuffer.OfPipelineSelects | main_engine.py:146-146 | filtering keeps every entry of the pipeline, in order, and nothing else |
| RingBuffer.FilteredIsCompleteIff | main_engine.py:136-146 | for every kind of time, when the filtered reply is the newest `limit` matches, both directions |
| RingBuffer.FoundIsNewer | main_engine.py:121-132 | without a limit the scan finds exactly what is newer |
| RingBuffer.NewerThanSelects | main_engine.py:126-127 | being newer is having a later time stamp, and all such entries are kept in order |
| RingBuffer.BreakingArticleIsMissed | main_engine.py:136-146 | a concrete buffer in which a first poll for breaking articles finds none of the one there is |
| Polling.ReplyIsNewest | main_engine.py:467-486 | of what is newer than the cursor, a reply holds the newest min(capacity, limit, 500) |
| Polling.PushAcceptedIff | main_engine.py:92-108 | a push of the run model is accepted, and recorded as it is, exactly when the capacity is not 0 and none of the last `capacity` accepted pushes carries its id |
| Polling.PushToBuffer | main_engine.py:92-108 | the engine's own buffer takes exactly the pushes the run model takes |
| Polling.RepeatsAreFarApart | main_engine.py:92-108 | over every run, between accepted pushes with one id there are at least `capacity` others |
| Polling.PollReturnsIff | telegram_feeder_bot.py:719-743 | exactly which pushes each successful poll of any run returns, equal time stamps included: each once, as it was pushed, newest first |
| Polling.NeverReturnedTwice | telegram_feeder_bot.py:719-743 | no push is returned by two polls |
| Polling.SameArticleTwice | main_engine.py:92-134 | an article comes back twice, in one reply or in two, only under two pushes with at least `capacity` others in between |
| Polling.HeldArticleChangesNothing | main_engine.py:94-95 | pushing an article again while it is held changes nothing |
| Polling.CursorOfPoll | telegram_feeder_bot.py:723-739 | each poll asks from the time the one before it was answered, and nothing pushed since then is stamped earlier |
| Polling.EveryPushHasItsPoll | telegram_feeder_bot.py:737-739 | every push before the last successful poll lies in the gap of exactly one poll |
| Polling.ReturnedByItsPollOrNever | telegram_feeder_bot.py:719-743 | over every run a push is lost exactly when it carries the very time of the reply before it or min(capacity, limit, 500) pushes or more followed it before its poll; otherwise its poll returns it, and no other does |
| Polling.ExactlyOnceWhenPollsKeepUp | telegram_feeder_bot.py:719-743 | with at most `limit` pushes between successful polls and a buffer that large, a push is returned exactly once unless it carries the time of the earlier reply, failed polls included |
| Polling.TiedPushIsLost | main_engine.py:127-128 | a concrete run in which a push stamped with the cursor's own time never arrives |
| MessageFit.PrefixFitsIff | telegram_feeder_bot.py:191-198 | a prefix fits the room exactly when it is no longer than the longest fitting one |
| MessageFit.SearchLongest | telegram_feeder_bot.py:192-198 | the binary search terminates at the length of that longest prefix |
| MessageFit.TrimToHtmlBudget | telegram_feeder_bot.py:182-200 | empty, unchanged, or that longest prefix right-stripped plus the suffix, by budget |
| MessageFit.TrimmedFits | telegram_feeder_bot.py:182-200 | with the default suffix the escaped result fits every budget of at least 1 |
| MessageFit.EscapedIsWhole | telegram_feeder_bot.py:297-303 | escaped text consists of whole characters and whole references |
| MessageFit.RepairedCutIsWhole | telegram_feeder_bot.py:403-406 | a cut is clean exactly when the last & does not follow the last ;, and the repair removes at most 5 characters and makes it clean |
| MessageFit.LinkedTrim | telegram_feeder_bot.py:395-408 | the kept body is a whole prefix, the link part stays, the result fits if the link part leaves 10 characters, and only then when the body has 12 or more |
| MessageFit.UnlinkedTrim | telegram_feeder_bot.py:409-410 | without a link the result fits from max_len 10 on and is clean exactly when the same guard is quiet |
| MessageFit.MakeHeader | telegram_feeder_bot.py:295-316 | the header for the three layouts, with the title trimmed to 250 escaped characters |
| MessageFit.WithSection | telegram_feeder_bot.py:379-381 | appends a section for the trimmed text, nothing for an empty one |
| MessageFit.SafetyTrim | telegram_feeder_bot.py:394-412 | the two trimming branches |
| MessageReading.SafetyTrimKeeps | telegram_feeder_bot.py:394-410 | for every message and limit, by positions: which part is protected, how many characters stay before it, and where a split reference moves the cut |
| MessageFit.FormatArticleMessage | telegram_feeder_bot.py:293-412 | the message is the safety-trimmed draft of its parts |
| MessageReading.DraftReads | telegram_feeder_bot.py:293-392 | the whole draft: the layout for the kind of article, and the title, summary, overview and address, read back by a table of references of its own as the texts that were to be shown |
| MessageReading.EscapedReadsBack | telegram_feeder_bot.py:297-303 | a reader gets back exactly the text that was escaped, and no character that means something in HTML is left |
| MessageReading.TrimmedKeepsLongest | telegram_feeder_bot.py:182-200 | a text whose escaped form fits is untouched; otherwise the longest prefix that leaves room for the ellipsis is kept, less the white space at its end |
| MessageReading.SummaryShownIff | telegram_feeder_bot.py:365-379 | which summaries are shown in full, by the room each layout gives them |
| MessageReading.OverviewShownIff | telegram_feeder_bot.py:383-388 | which overviews are shown in full |
| MessageFit.DraftIsWhole | telegram_feeder_bot.py:305-392 | every draft consists of whole characters and whole references |
| MessageFit.LinkIsFound | telegram_feeder_bot.py:396-399 | the protected part never reaches above the message's own link, and is that link exactly when the address holds no link mark |
| MessageFit.EscapeKeepsMarks | telegram_feeder_bot.py:303-303 | escaping neither makes nor hides a link mark |
| MessageFit.FormattedMessage | telegram_feeder_bot.py:293-412 | for every article and limit: the draft, or a prefix of it, dots and the protected part; with an address the prefix is whole and the message fits if the protected part leaves 10 characters, and only then, or when the draft fits, if the trimmed title has at least two escaped characters |
| MessageFit.MessageIsWholeIff | telegram_feeder_bot.py:394-412 | for every article and limit, exactly when the message splits no character reference; never when it has a link |
| MessageFit.UnlinkedMessageCanSplit | telegram_feeder_bot.py:409-410 | a concrete article and limit whose message ends inside a reference |
| MessageFit.RoomyMessagesAreWhole | telegram_feeder_bot.py:414-426 | at the limits of the bot's two calls no message is ever split |
| MessageFit.ShortFootersFit | telegram_feeder_bot.py:414-426 | at those limits nothing is trimmed as long as the footer is short |
| MessageFit.LinkLength | telegram_feeder_bot.py:322-322 | the link is 39 characters longer than the escaped address |
| MessageFit.BudgetsSuffice | telegram_feeder_bot.py:365-388 | unless a minimum budget steps in, long messages fit without the safety trim |
| MessageTags.DraftIsBalanced | telegram_feeder_bot.py:305-392 | every draft closes every tag it opens |
| MessageTags.BalancedIff | telegram_feeder_bot.py:305-392 | a text is balanced exactly when it is put together from plain texts, bold texts and links, none within another |
| MessageTags.CutIsBalancedIff | telegram_feeder_bot.py:400-401 | a first part of a balanced text is balanced exactly when its last `<` begins a complete closing tag |
| MessageTags.LinkedTrimTags | telegram_feeder_bot.py:396-408 | a trimmed message is balanced exactly when the body leaves open what the protected part closes |
| MessageTags.MessageIsBalancedIff | telegram_feeder_bot.py:394-412 | for every article and limit, exactly when the tags of the message are balanced |
| MessageTags.LongLinkLeavesBoldOpen | telegram_feeder_bot.py:419-419 | a concrete caption at limit 1000 whose title is left without its closing tag |
| Sorting.SortIsStablePermutation | gui_qt/app_qt_migrated.py:1151-1151 | sorting permutes, orders descending and keeps equal keys in order |
| Sorting.WithKeySelects | gui_qt/app_qt_migrated.py:1151-1151 | what stable means: the elements of each key, all of them, in the order they had |
| LiveFeed.FeedWindow.constructor | gui_qt/app_qt_migrated.py:292-297 | nothing live, archived or cached, and no id cache yet |
| LiveFeed.FeedWindow.CanonicalizeArticles | gui_qt/app_qt_migrated.py:1137-1152 | convert, keep the first article per address, sort by time |
| LiveFeed.CanonicalUrls | gui_qt/app_qt_migrated.py:1137-1152 | the canonical list has every address of the raw one exactly once, newest first |
| LiveFeedOrder.CanonicalShows | gui_qt/app_qt_migrated.py:1137-1152 | the canonical list article by article: the first of each address and all without one, converted, newest first, in the order they came in where times are equal |
| LiveFeedOrder.ConversionFillsIn | gui_qt/app_qt_migrated.py:1137-1152 | conversion fills in a missing title and a missing id and leaves the rest alone |
| LiveFeedOrder.UniqueKeepsFirst | gui_qt/app_qt_migrated.py:1142-1149 | by positions: which articles are kept |
| LiveFeed.FeedWindow.Show | gui_qt/app_qt_migrated.py:1178-1183 | the caches are rebuilt from the live list |
| LiveFeed.FeedWindow.NotDisplayed | gui_qt/app_qt_migrated.py:880-880 | the articles of a batch the caches do not know |
| LiveFeedOrder.DuplicateIff | gui_qt/app_qt_migrated.py:1154-1183 | after a list has been shown an article is taken for a duplicate exactly when one on it has its address, its title up to case and surrounding white space, or its id |
| LiveFeedOrder.NewOnesAreRemembered | gui_qt/app_qt_migrated.py:721-893 | after a streamed article or a region batch exactly those are duplicates that were before, or that share address or title with an article just shown |
| LiveFeedOrder.TitlesAreFolded | gui_qt/app_qt_migrated.py:1154-1183 | titles are compared without surrounding white space and in lower case |
| LiveFeedOrder.UnseenSelects | gui_qt/app_qt_migrated.py:880-880 | what is not displayed is all of the batch that is no duplicate, in order |
| LiveFeed.FeedWindow.OnStreamArticle | gui_qt/app_qt_migrated.py:721-733 | a new article goes first, the list is cut at 1000, address and title are cached |
| LiveFeedOrder.StreamShows | gui_qt/app_qt_migrated.py:721-733 | position by position what is live after a streamed article |
| LiveFeed.StreamKeepsFeed | gui_qt/app_qt_migrated.py:721-733 | streaming keeps addresses distinct and cached, and below the limit loses nothing |
| LiveFeed.RepeatedStreamCaughtIff | gui_qt/app_qt_migrated.py:724-730 | streaming an article again is caught exactly when it has an address or title, or its id was cached |
| LiveFeed.FeedWindow.OnRegionDiscoveryComplete | gui_qt/app_qt_migrated.py:877-893 | the unseen part of the batch goes in front, in order |
| LiveFeedOrder.RegionShows | gui_qt/app_qt_migrated.py:877-893 | what is live after a region batch: all of it that is no duplicate, in order, then what was live, cut at 1000 |
| LiveFeed.RegionKeepsDistinctIff | gui_qt/app_qt_migrated.py:877-893 | live addresses stay distinct if and only if the unseen articles that end up live have distinct addresses |
| LiveFeed.RepeatInBatchIsShown | gui_qt/app_qt_migrated.py:877-893 | a concrete batch with one address twice that the handler alone would show twice |
| LiveFeed.DiscoveredUrls | src/engine/dedup_gate.py:152-182 | what passes the duplicate gate repeats no address, whatever its memory, its title test and the quality filter decide |
| LiveFeed.DiscoveryKeepsFeed | gui_qt/app_qt_migrated.py:848-893 | a batch from a region discovery keeps live addresses distinct and cached |
| LiveFeed.FeedWindow.OnFetchComplete | gui_qt/app_qt_migrated.py:1420-1449 | older articles not in the new cycle are archived, the new cycle is ranked and shown |
| LiveFeedOrder.FetchShows | gui_qt/app_qt_migrated.py:1420-1449 | an empty cycle changes nothing; otherwise exactly the canonical list is live, in order of rank and of that list where ranks are equal, and exactly the older articles with other addresses that were not archived go to the archive, in order |
| LiveFeed.FetchConserves | gui_qt/app_qt_migrated.py:1434-1449 | every address live before a fetch is live or archived after it, and the archive only grows |
| LiveFeed.FeedWindow.OnCrawlerCompleted | gui_qt/app_qt_migrated.py:1744-1757 | found articles first, then live ones with other addresses, cut at 1000 |
| LiveFeedOrder.CrawlShows | gui_qt/app_qt_migrated.py:1744-1757 | what is live after a crawl: the canonical list, then all live articles with other addresses in the order they had, cut at 1000 |
| LiveFeed.CrawlKeepsFeed | gui_qt/app_qt_migrated.py:1744-1757 | a merge keeps addresses distinct and cached, and below the limit shows exactly the union of addresses |
| LiveFeed.FeedWindow.OnLaunch | gui_qt/app_qt_migrated.py:606-609 | the live list is emptied and nothing else changes |
| LiveFeed.LaunchKeeps | gui_qt/app_qt_migrated.py:606-609 | that keeps feed and archive consistent, loses exactly the unarchived live addresses, and leaves them known as duplicates |
| LiveFeed.FeedWindow.OnBatchRestored | gui_qt/app_qt_migrated.py:1677-1681 | the restored batch, canonical, replaces the live list |
| LiveFeedOrder.RestoredShows | gui_qt/app_qt_migrated.py:1677-1681 | exactly the canonical batch is live afterwards and the archive is as it was |
| LiveFeed.FeedWindow.OnArticleArchived | gui_qt/app_qt_migrated.py:1685-1704 | archives the article and removes its id and address from the live list |
| LiveFeedOrder.ArchiveShows | gui_qt/app_qt_migrated.py:1685-1704 | which article a request archives and when, and that all live articles with another id and another address stay, in order |
| LiveFeed.ArchiveKeeps | gui_qt/app_qt_migrated.py:1685-1704 | the archive's address set stays that of its history, once each, and what exactly stays live |
| LiveFeed.ArchiveConservesIff | gui_qt/app_qt_migrated.py:1685-1704 | no live address is lost if and only if no live article shares the id with another unarchived address |
| LiveFeed.UniqueIdsAreSafe | gui_qt/app_qt_migrated.py:1685-1704 | with one address per id every request about a live article is safe |
| LiveFeed.StreamedTwinIsLost | gui_qt/app_qt_migrated.py:721-733 | a concrete run, of articles as the emitters convert them, in which archiving one article loses another's address |
| LiveFeed.RunKeepsFeedAndArchive | gui_qt/app_qt_migrated.py:606-1757 | in every run whose region batches do not repeat an address, live addresses are distinct, caches cover them, and the archive is consistent |
| LiveFeed.CarefulRunLosesNothing | gui_qt/app_qt_migrated.py:721-1757 | over every run of fetches, safe archive requests and articles that come in while there is room for them, every address live or archived at any moment is live or archived at the end |
| EventQueue.EventManager.constructor | gui_qt/event_manager.py:69-77 | nothing pending, numbering starts |
| EventQueue.EventManager.Publish | gui_qt/event_manager.py:110-115 | the event is queued under the next sequence number |
| EventQueue.EventManager.ProcessEvents | gui_qt/event_manager.py:119-130 | every tick that ends, whatever its handlers publish and clear, is a tick of the run model; if they do neither it hands out exactly a prefix of the queue |
| EventQueue.EventManager.RunHandlers | gui_qt/event_manager.py:132-137 | what the handlers of one event do, in order |
| EventQueue.QuietTick | gui_qt/event_manager.py:119-130 | a tick in which no handler touches the queue takes exactly its first TickLength events |
| EventQueue.QuietTickEnds | gui_qt/event_manager.py:119-130 | and it ends |
| EventQueue.LoopIsRun | gui_qt/event_manager.py:119-137 | the turns of a tick's loop, handlers included, are a stretch of a run |
| EventQueue.EventManager.ClearQueue | gui_qt/event_manager.py:179-184 | nothing stays pending, numbering goes on |
| EventQueue.DispatchOrder | gui_qt/event_manager.py:110-184 | over every run: what is pending waits by priority, the smallest number first, and by sequence number; equal priorities are first in first out across ticks; each event is dispatched, pending or cleared exactly once |
| EventQueue.DispatchTakesMostUrgent | gui_qt/event_manager.py:110-130 | at every dispatch of every run nothing left pending has a smaller priority number, or the same one and was published earlier |
| EventQueue.QuietTickTakesMostUrgent | gui_qt/event_manager.py:119-130 | nor has anything a quiet tick leaves behind, against everything it handed out |
| EventQueue.EventsAreGenuine | gui_qt/event_manager.py:110-130 | what is pending, dispatched or cleared under a number is the event published under it |
| EventQueue.OnlyMalformedFails | gui_qt/event_manager.py:132-168 | which dispatches raise |
| EventQueue.TicksAreBounded | gui_qt/event_manager.py:119-130 | over every run, handlers that publish and clear included: each tick has at most 20 successes and dispatches at most 20 more than the failing events pending at its start or published during it; one that ended had exactly 20 successes or left the queue empty; and every dispatch belongs to a tick |
| EventQueue.FailingIsRecorded | gui_qt/event_manager.py:119-130 | the failing events of that bound are those pending at the start of the tick whose dispatch raises and those published since |
| EventQueue.TickEndsIff | gui_qt/event_manager.py:119-130 | a tick ends exactly when its handlers publish only so many failing events |
| EventQueue.TickEndsWithin | gui_qt/event_manager.py:119-130 | and then within 20 and as many turns as failing events were pending and are published |
| EventQueue.TickSuccesses | gui_qt/event_manager.py:119-130 | at most 20 successful dispatches per tick, and exactly 20 when anything is left |
| EventQueue.TickIsBoundedIff | gui_qt/event_manager.py:119-147 | a tick with quiet handlers takes at most 20 events exactly when none of the first 20 raises or nothing lies behind them |
| EventQueue.TickExceedsIff | gui_qt/event_manager.py:119-147 | a tick whose handlers publish and clear takes more than 20 exactly when one of its first 20 fails and something is pending after them |
| EventQueue.TickTakesTwentyOne | gui_qt/event_manager.py:119-147 | a concrete queue of 21 events that one tick takes whole |
| EventQueue.TickNeedNotEnd | gui_qt/event_manager.py:119-147 | a concrete tick that never ends: its handler answers each failing event with another |
| EventQueue.DrainTime | gui_qt/event_manager.py:119-130 | n events are gone after ceil(n/20) ticks, and need that many when none raises |
| Soak.ObservationLedger.RecordGenerated | benchmarks/benchmark_operational_soak.py:61-63 | generated and in flight grow together |
| Soak.ObservationLedger.RecordPersisted | benchmarks/benchmark_operational_soak.py:65-67 | moves from in flight to persisted |
| Soak.ObservationLedger.RecordRejected | benchmarks/benchmark_operational_soak.py:69-71 | moves from in flight to rejected |
| Soak.ObservationLedger.RecordDropped | benchmarks/benchmark_operational_soak.py:73-75 | moves from in flight to dropped |
| Soak.SilentLossIsAlwaysZero | benchmarks/benchmark_operational_soak.py:77-85 | after any sequence of records the loss figure is 0 and in_flight is what is unaccounted for |
| Soak.SilentLossShowsGap | benchmarks/benchmark_operational_soak.py:77-85 | on counters of any other origin the figure is what is missing, if anything is |
| Soak.GenerateBatch | benchmarks/benchmark_operational_soak.py:274-301 | every item is counted, those dropped or rejected are settled, the rest are in flight in order |
| Soak.WrittenAre | benchmarks/benchmark_operational_soak.py:274-301 | what goes to the writer: the items of the batch neither dropped nor a multiple of twenty, in order |
| Soak.SettleWrites | benchmarks/benchmark_operational_soak.py:324-332 | each written item is persisted on success and rejected otherwise |
| Soak.SuccessesAre | benchmarks/benchmark_operational_soak.py:324-332 | the items counted as persisted are those whose write succeeds |
| Soak.RunBatch | benchmarks/benchmark_operational_soak.py:271-332 | whatever the storm drops and however writes end, a turn of the loop settles every item under its own fate with nothing in flight |
| Soak.ExecuteRegime | benchmarks/benchmark_operational_soak.py:245-421 | every checkpoint is conserved by count and never negative, and the final counts tally every item |
| Soak.SettledCounts | benchmarks/benchmark_operational_soak.py:271-332 | what the settled counters count: the items the storm drops, the others that are a multiple of twenty or whose write does not succeed, and the rest |
| Regression.DenominatorSign | benchmarks/benchmark_operational_soak.py:439-443 | n·Σx² − (Σx)² is never negative and 0 exactly when all x agree |
| Regression.DenominatorIsPairSpread | benchmarks/benchmark_operational_soak.py:443-443 | the denominator is the sum of squared distances between the x of every two samples |
| Regression.SlopeIsLeastSquares | benchmarks/benchmark_operational_soak.py:443-445 | the unclamped slope with its intercept has the smallest squared error, and only that line has |
| Regression.ReportedSlopeIsBest | benchmarks/benchmark_operational_soak.py:433-447 | the clamped slope is the unique best among lines that do not fall |
| Regression.ReportedWithoutLine | benchmarks/benchmark_operational_soak.py:433-447 | a run of under a minute or with fewer than two samples reports its growth, or 0; samples too close together report 0; and no report is negative |
| Regression.ExactDataRecoveredIff | benchmarks/benchmark_operational_soak.py:443-445 | exact data of slope b >= 0 are reported as b exactly when the guard passes or b is 0 |
| Crawl.QueueLinks | benchmarks/benchmark_source_discovery.py:166-168 | links to unvisited pages join the queue in order |
| Crawl.NotVisitedSelects | benchmarks/benchmark_source_discovery.py:166-168 | these are all links of the page that were not visited, in order |
| Crawl.Traverse | benchmarks/benchmark_source_discovery.py:155-171 | terminates on every graph, counts each page once, visits min(max hops, reachable) reachable pages, all of them exactly when they are at most max hops, and the nearest ones first; its queue is left empty when fewer pages are reachable than the limit and not when more are |
| Crawl.SitesAreReachable | benchmarks/benchmark_source_discovery.py:147-171 | all five pages of the benchmark's graph are reachable, so its verdict holds |
| Crawl.Frontier | benchmarks/benchmark_source_discovery.py:160-168 | a page k links away has been visited, or something queued is at most k links away |

## Left out

- TokenBuckets.TokenBucket.Acquire: stated for a caller alone on the bucket; contended waiting is covered by the run theorems. A bucket of capacity below 1 and positive rate never holds a token, so an untimed call on it never returns and is not modelled; negative rates are not modelled either.
- RateLimiting.RateLimiter.Wait: the same premises; a division by zero is an answer of its own. The asynchronous variants have the same lock regions and are covered by the run theorems.
- Lock objects themselves: each locked region is one atomic step.
- Extracting a domain from an address: the limiter takes the domain as given.
- Floating-point rounding: times, rates and samples are reals.
- SeenWindow.SeenIds.constructor: file agreement is promised for files whose last line is terminated, as every file this program writes is; in the theorems about runs file writes are taken to succeed and an append to be atomic.
- Delivery.FeederBot.Forward: the thumbnail lookup is an arbitrary reply; task cancellation leaves an article in a task's hand for good.
- Delivery.FeederBot.PublishOne: the Telegram call is an arbitrary success or failure.
- Network transport, SSE parsing, retry and back-off, logging, configuration.
- Polling.ReturnedByItsPollOrNever: assumes that the engine's clock does not run backwards; its readings may repeat. Time stamps the buffer could not parse do not occur, since it writes them itself.
- MessageFit.FormatArticleMessage: cleaning of titles, summaries and contents, the duplicate-summary test, hashtag choice and address decoding are inputs; hashtags are any letters, digits, blanks and `#`.
- MessageTags.MessageIsBalancedIff: knows the tags the message is built from; Telegram's other tags cannot occur, since all text is escaped.
- LiveFeed.DiscoveredUrls: the canonical form of an address is an arbitrary function, the title test and the quality filter are arbitrary decisions.
- lower() and the id digest: arbitrary functions, since they are the platform's.
- LiveFeed.FeedWindow.OnFetchComplete: the relevance scores are an arbitrary ranking; history snapshots, counters and widgets are not modelled.
- EventQueue.EventManager.ProcessEvents: a tick that never ends is not a call of this method; EventQueue.TickEndsIff says which these are. What handlers do is given for the k-th event of the tick; a handler that runs the GUI's event loop, and so a tick within a tick, is not modelled. Subscriber lists, signals and the metrics cache are not modelled.
- Soak: the wall clock, fault injection, search latencies and memory samples; batch sizes, drops and write results are arbitrary.
- Lease coordinator, ingestion queue, discovery lifecycle, SSRF guard, pipeline runner and storage: not part of this model.
