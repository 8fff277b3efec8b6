# findingway-js core, modelled in Dafny

findingway-js is a Discord bot that mirrors the Final Fantasy XIV Party
Finder into Discord channels. This project models the parts of it that
decide what the bot does, and proves properties of that model:

- the Lodestone portrait lookup: its bounded cache, its persistent store,
  its per-key and global cooldowns, and its background queue;
- the Tomestone client: its rate limiter, cooldown, request scheduler and
  activity paging, plus the duty-progress lookup on an activity payload;
- the Party Finder listings and their derived values;
- the job and role tables;
- the Discord presentation helpers: title, tags, minimum item level, code
  boxes, descriptions, the listing's character, the thumbnail decision and
  the portrait-update queue;
- the recruitment posts: their composition rules, routing, expiry and
  membership;
- the marketboard helpers;
- the pacing of the main loop.

Time is an explicit `now` in milliseconds. HTTP replies, scraped pages, the
Postgres store and random jitter enter the model as parameters or as
abstract maps. Each module has one `.dfy` file:

| file | module | source |
|---|---|---|
| common.dfy | Common | string helpers the JavaScript takes from its runtime (trim, case, indexOf, split, join, replaceAll, decimal numbers) |
| cache.dfy | LruCache | src/lodestone/cache.js |
| lodestone.dfy | Lodestone | src/lodestone/lodestone.js, the store contract of src/lodestone/store_postgres.js |
| durations.dfy | Durations | parseDurationMs in src/tomestone/tomestone.js and src/index.js |
| tomestone.dfy | Tomestone | src/tomestone/tomestone.js (client) |
| duty_progress.dfy | DutyProgress | src/tomestone/tomestone.js (getDutyProgress and its helpers) |
| jobs.dfy | Jobs | src/ffxiv/job.js |
| roles.dfy | Roles | src/ffxiv/role.js |
| party_finder.dfy | PartyFinder | src/ffxiv/listings.js |
| recruitment.dfy | Recruitment | src/discord/recruitment.js (rules) |
| recruitment_board.dfy | RecruitmentBoard | src/discord/recruitment.js (manager state) |
| discord.dfy | Discord | src/discord/discord.js |
| marketboard.dfy | Marketboard | src/marketboard/marketboard.js |
| main_loop.dfy | MainLoop | src/index.js |

## Model

| member | source | states |
|---|---|---|
| LruCache.Cache.constructor | src/lodestone/cache.js:14-19 | a new cache is empty and keeps the ttl and maxSize it was given |
| LruCache.Cache.Get | src/lodestone/cache.js:21-42 | the new contents and the result are those of Lookup: a missing key misses, an expired entry is deleted and misses, a live negative entry misses and changes nothing, a live positive hit is returned with one more hit and moved to the most-recent end |
| LruCache.Cache.Peek | src/lodestone/cache.js:44-56 | the new contents and the result are those of Peeked: an expired entry is deleted and missing, a live entry, negative or not, is returned as it is |
| LruCache.Cache.EvictLRU | src/lodestone/cache.js:84-89 | the oldest key, if any, is removed and the others keep their order |
| LruCache.Cache.Insert | src/lodestone/cache.js:58-82 | the key is deleted, the oldest key evicted when size >= maxSize, and the entry appended at the most-recent end; the cache stays well formed |
| LruCache.Cache.Set | src/lodestone/cache.js:58-69 | set inserts a positive entry expiring ttlMs after now |
| LruCache.Cache.SetNegative | src/lodestone/cache.js:71-82 | setNegative inserts a negative entry expiring ten minutes after now |
| LruCache.Cache.Cleanup | src/lodestone/cache.js:105-112 | the loop that deletes while iterating leaves exactly Swept: the expired entries gone, the rest unchanged and in order |
| LruCache.Cache.Size | src/lodestone/cache.js:114-116 | the size is the number of entries and of keys, and at most maxSize when maxSize >= 1 |
| LruCache.Cache.Clear | src/lodestone/cache.js:118-120 | the cache is empty |
| LruCache.StoreSize | src/lodestone/cache.js:17 | the recency order and the entry map hold the same number of keys |
| LruCache.EvictRemovesOldest | src/lodestone/cache.js:84-89 | eviction removes exactly the first key, keeps every other entry and the order of the rest |
| LruCache.InsertedValid | src/lodestone/cache.js:58-82 | inserting keeps the cache within its capacity, at most maxSize entries once maxSize >= 1 |
| LruCache.InsertedKeyIsNewest | src/lodestone/cache.js:58-82 | after set or setNegative the key is the most recent and holds the new entry; every other key keeps its entry unless it was the oldest key evicted |
| LruCache.LookupHit | src/lodestone/cache.js:36-41 | a live positive hit returns the character, adds one hit and moves the key to the end, the others keeping their order and entries |
| LruCache.LookupAtDeadline | src/lodestone/cache.js:27-50 | an entry is still served at exactly its deadline, by get and by peek |
| LruCache.LookupExpired | src/lodestone/cache.js:27-53 | past its deadline get and peek both report a miss and delete the entry |
| LruCache.LookupNegative | src/lodestone/cache.js:32-55 | get on a live negative entry misses and changes nothing; peek returns it marked negative |
| LruCache.LookupFoundIff | src/lodestone/cache.js:21-42 | get finds something exactly when the key holds a live positive entry |
| LruCache.PeekChangesNoEntry | src/lodestone/cache.js:44-56 | peek never reorders keys or changes an entry; at most it deletes the expired key asked about |
| LruCache.ReadKeySurvivesEviction | src/lodestone/cache.js:36-89 | a key just read is not the next one evicted, unless it is the only key |
| LruCache.SweptKeepsLive | src/lodestone/cache.js:105-112 | cleanup removes exactly the expired entries, keeps live entries unchanged and keeps the surviving keys in order |
| LruCache.SweptPrefixStep | src/lodestone/cache.js:107-111 | visiting one key deletes it exactly when it has expired |
| Lodestone.DropAfterAt | src/lodestone/lodestone.js:14-17 | the part before ' @ ' is a trimmed prefix of the name without ' @ ', and a name without it is kept |
| Lodestone.DropFromParen | src/lodestone/lodestone.js:18-21 | the part before ' (' is a trimmed prefix without ' (', and a name without it is kept |
| Lodestone.NormalizeWorld | src/lodestone/lodestone.js:10-23 | the normalised world is a trimmed prefix of the trimmed input holding neither ' @ ' nor ' (', and a trimmed name free of both is returned unchanged |
| Lodestone.NormalizeWorldIdempotent | src/lodestone/lodestone.js:10-23 | normalising twice is normalising once |
| Lodestone.LodestoneBaseForLanguage | src/lodestone/lodestone.js:25-38 | the case-insensitive language code picks the jp (for jp and ja), fr, de or, for anything else, na portal |
| Lodestone.CacheKeyCollides | src/lodestone/lodestone.js:68-70 | keys ignore letter case and surrounding whitespace of the name and the world |
| Lodestone.CacheKeyInjective | src/lodestone/lodestone.js:68-70 | two keys are equal only when the trimmed lower-cased names and worlds are, as long as the names hold no '@' |
| Lodestone.StoreGetId | src/lodestone/store_postgres.js:199-223 | getId returns only positive ids |
| Lodestone.StoreRoundTrip | src/lodestone/store_postgres.js:159-267 | a row set is read back by get as a hit, a negative or (past its expiry) a miss, its id is read back by getId when positive, and other keys read as before |
| Lodestone.GlobalCooldownOnlyExtends | src/lodestone/lodestone.js:96-101 | setting the global cooldown keeps the later of the old and the new deadline |
| Lodestone.CooldownCheckForgets | src/lodestone/lodestone.js:84-114 | a cooldown is active exactly while now is at or before its deadline; a check that finds it over deletes the deadline, and the combined check is active iff either cooldown is |
| Lodestone.LadderEnqueuesOnlyOnMiss | src/lodestone/lodestone.js:270-327 | a lookup queues a fetch exactly when cache and store miss, no cooldown is active and the key is not in flight; it awaits the in-flight fetch when the key is claimed, and fails with a cooldown error only after a miss |
| Lodestone.CacheHitAnswersFirst | src/lodestone/lodestone.js:276-281 | a live positive cache entry answers the lookup whatever the store holds |
| Lodestone.NegativeEntryAnswersNotFound | src/lodestone/lodestone.js:283-286 | a live negative cache entry answers not-found and changes nothing |
| Lodestone.StoreDecidesOnCacheMiss | src/lodestone/lodestone.js:139-164 | with no cache entry the store's miss, negative row or hit decides, and a found row is copied into the cache |
| Lodestone.QueueProceedsIff | src/lodestone/lodestone.js:243-268 | a background fetch goes on exactly when peek finds no live entry and the store misses |
| Lodestone.NegativeCachedIff | src/lodestone/lodestone.js:224-241 | a key is negatively cached iff the cache holds a live negative entry or the store holds a live negative row |
| Lodestone.CachedPortraitFoundIff | src/lodestone/lodestone.js:200-222 | the cached-only lookup finds a portrait iff the cache holds a live positive entry or the store a live positive row |
| Lodestone.NegativeOnlyWithoutRateLimit | src/lodestone/lodestone.js:385-473 | a negative entry is written exactly when there was no usable stored id and the search failed without a 429 or found nothing; cooldowns start exactly on a 429; never both |
| Lodestone.FetchSucceedsIff | src/lodestone/lodestone.js:385-424 | a fetch succeeds exactly by the stored id or by the search, and by the stored id whenever that id resolves |
| Lodestone.SearchFailureEffects | src/lodestone/lodestone.js:431-443 | a failed first search page fails the fetch with its message, and its own effects are all the fetch's effects |
| Lodestone.FetchEffectsVisible | src/lodestone/lodestone.js:385-473 | after a successful fetch the cache returns the character, the store holds it and its cooldown is cleared; after a not-found both hold a negative entry; after a 429 cache and store are untouched and both cooldowns are active for their durations |
| Lodestone.RememberedVisible | src/lodestone/lodestone.js:166-177 | a remembered character is returned by the next cache read and by the store until its ttl |
| Lodestone.NegatedVisible | src/lodestone/lodestone.js:179-198 | a forgotten character reads negative from the cache and the store |
| Lodestone.QueueAppend | src/lodestone/lodestone.js:315-320 | appending a request adds its key to the queued keys and keeps keys distinct when the key was not queued |
| Lodestone.ClaimFollowsLadder | src/lodestone/lodestone.js:297-320 | after a miss, the cooldown check and the in-flight claim give the ladder's outcome, and only an enqueued request joins the queue and claims its key |
| Lodestone.PortraitStepFollowsLadder | src/lodestone/lodestone.js:270-327 | the whole lookup follows the ladder over its stages, changes no dispatcher state unless the stages missed, and queues the request exactly on a full miss with no cooldown and no claim |
| Lodestone.QueueStepEnqueuesIff | src/lodestone/lodestone.js:243-268 | a background fetch is queued exactly when its checks miss, no cooldown is active and the key is not in flight; otherwise queue and claims are unchanged |
| Lodestone.LodestoneClient.constructor | src/lodestone/lodestone.js:41-58 | a new client has an empty cache with the given ttl and size, no store, queue, claims or cooldowns, and the given cooldown lengths |
| Lodestone.LodestoneClient.SetStore | src/lodestone/lodestone.js:64-66 | the store is the one given |
| Lodestone.LodestoneClient.MarkInFlight | src/lodestone/lodestone.js:72-78 | claiming succeeds iff the key was not claimed, and the key is claimed afterwards |
| Lodestone.LodestoneClient.ClearInFlight | src/lodestone/lodestone.js:80-82 | the key's claim is released |
| Lodestone.LodestoneClient.IsGlobalCooldownActive | src/lodestone/lodestone.js:84-94 | the answer and the new deadline are those of GlobalActive and GlobalAfterCheck |
| Lodestone.LodestoneClient.SetGlobalCooldown | src/lodestone/lodestone.js:96-101 | the deadline becomes the later of the old one and now plus the duration |
| Lodestone.LodestoneClient.IsKeyCooldownActive | src/lodestone/lodestone.js:103-114 | the answer and the new map are those of KeyActive and KeyAfterCheck |
| Lodestone.LodestoneClient.SetKeyCooldown | src/lodestone/lodestone.js:116-118 | the key's deadline is overwritten with now plus the duration |
| Lodestone.LodestoneClient.ClearKeyCooldown | src/lodestone/lodestone.js:120-122 | the key's deadline is removed |
| Lodestone.LodestoneClient.CoolingDown | src/lodestone/lodestone.js:297-299 | the global check runs first and the key check only when the global one is inactive |
| Lodestone.LodestoneClient.GetStoreEntry | src/lodestone/lodestone.js:139-164 | the store's answer is returned and a found row is copied into the cache |
| Lodestone.LodestoneClient.PersistPositive | src/lodestone/lodestone.js:166-177 | the character is stored as positive until now plus the cache ttl |
| Lodestone.LodestoneClient.PersistNegative | src/lodestone/lodestone.js:179-198 | a not-found row with no id is stored as negative for ten minutes |
| Lodestone.LodestoneClient.GetCharacterPortraitCached | src/lodestone/lodestone.js:200-222 | a disabled client answers nothing; otherwise cache and result are those of CachedStages |
| Lodestone.LodestoneClient.IsNegativeCached | src/lodestone/lodestone.js:224-241 | a disabled client answers false; otherwise cache and result are those of NegativeStages |
| Lodestone.LodestoneClient.Enqueue | src/lodestone/lodestone.js:315-320 | the request is appended and its key claimed |
| Lodestone.LodestoneClient.ClaimOrWait | src/lodestone/lodestone.js:297-320 | dispatcher and outcome are those of ClaimStep |
| Lodestone.LodestoneClient.QueueCharacterPortraitFetch | src/lodestone/lodestone.js:243-268 | a disabled client changes nothing; otherwise cache and dispatcher follow QueueStep |
| Lodestone.LodestoneClient.QueueChecks | src/lodestone/lodestone.js:249-256 | cache and answer are those of QueueStages |
| Lodestone.LodestoneClient.Stages | src/lodestone/lodestone.js:276-295 | cache and stage are those of PortraitStages |
| Lodestone.LodestoneClient.GetCharacterPortrait | src/lodestone/lodestone.js:270-327 | a disabled client fails and changes nothing; otherwise cache, dispatcher and outcome are those of PortraitStep |
| Lodestone.LodestoneClient.PollCache | src/lodestone/lodestone.js:329-347 | past the deadline a poll times out; before it, a cached character with a portrait is ready, one without fails, a live negative entry fails as not found, and anything else keeps polling |
| Lodestone.LodestoneClient.TakeNext | src/lodestone/lodestone.js:355-358 | the worker takes the oldest request, if any, and marks it as being handled |
| Lodestone.LodestoneClient.SearchCharacter | src/lodestone/lodestone.js:426-473 | the first result's id is returned; a failed first page returns its message and its effects are those of SearchEffects |
| Lodestone.LodestoneClient.Remember | src/lodestone/lodestone.js:405-411 | cache, store and cooldowns are those of Remembered |
| Lodestone.LodestoneClient.Forget | src/lodestone/lodestone.js:179-198 | cache and store are those of Negated |
| Lodestone.LodestoneClient.FetchBySearch | src/lodestone/lodestone.js:396-424 | outcome and effects follow the search path of FetchPathOf |
| Lodestone.LodestoneClient.FetchPortraitDirect | src/lodestone/lodestone.js:385-424 | outcome and effects follow FetchPathOf from the stored id |
| Lodestone.LodestoneClient.HandleRequest | src/lodestone/lodestone.js:370-383 | the key's claim is released and the response and effects are those of Handled |
| Lodestone.LodestoneClient.Answer | src/lodestone/lodestone.js:372-379 | the response and effects are those of Handled |
| Lodestone.LodestoneClient.Release | src/lodestone/lodestone.js:380-382 | the finally block releases the key's claim |
| Durations.PositiveNumberTaken | src/tomestone/tomestone.js:54-80 | a numeric count setting is taken exactly when it is positive, else the default |
| Durations.PositiveIntOrPositive | src/tomestone/tomestone.js:54-80 | a count setting yields a positive value or the default, and an unset one the default |
| Durations.ScanTotal | src/tomestone/tomestone.js:15-37 | the regex loop sums amount times unit over every match of `(\d+)([smhd])`, i.e. Total |
| Durations.ParseText | src/tomestone/tomestone.js:10-39 | trimmed text yields its Total when positive and the fallback otherwise |
| Durations.ParseDurationMs | src/tomestone/tomestone.js:1-40 | falsy values fall back, a finite number is taken when positive, other values are read as text |
| Durations.ParseEnvDurationMs | src/index.js:22-57 | anything but a non-empty string falls back; strings are read like the Tomestone parser reads them |
| Durations.TextDurationPositiveOrFallback | src/tomestone/tomestone.js:15-39 | the text reading is positive or the fallback, the Total exactly when the Total is positive |
| Durations.DurationPositiveOrFallback | src/tomestone/tomestone.js:1-40 | both parsers return a positive duration or the fallback |
| Durations.ParsersAgreeOnText | src/index.js:22-57 | the two parsers agree on strings; on numbers the entry point's falls back while the Tomestone one takes a positive number |
| Durations.NonFiniteFallsBack | src/tomestone/tomestone.js:6-39 | an infinite number is not taken as a number and, having no digits, falls back |
| Durations.AmountRoundTrip | src/tomestone/tomestone.js:15-37 | a decimal amount followed by a unit letter adds that many units, whatever follows |
| Durations.HourAndAHalf | src/tomestone/tomestone.js:15-37 | "1h30m" is 5 400 000 ms |
| Durations.MatchMsScales | src/tomestone/tomestone.js:19-33 | one match adds its decimal amount times 1000, 60 000, 3 600 000 or 86 400 000 ms |
| Durations.TotalConcat | src/tomestone/tomestone.js:15-37 | texts that do not meet inside a run of digits are summed separately |
| MainLoop.RoundSleep | src/index.js:221-268 | a failed scrape sleeps the whole minute; otherwise the sleep is the minute less every channel's time, clamped at zero |
| MainLoop.SumMonotone | src/index.js:260-261 | the time charged grows with every channel that took non-negative time |
| MainLoop.SleepBounds | src/index.js:260-268 | the sleep lies between zero and a minute, is zero exactly when the channels used the whole minute, and otherwise is the minute left over |
| Tomestone.ConfigPositive | src/tomestone/tomestone.js:43-97 | every limit, count and duration the constructor derives is positive, and the client is enabled exactly when it has a token |
| Tomestone.DefaultConfig | src/tomestone/tomestone.js:43-97 | unconfigured, the client allows 36000 requests an hour, 10 activity pages, one request at a time, 500 ms spacing, 250 ms jitter, 5 and 10 minute 429 and 403 cooldowns, a 30 s timeout and the tomestone.gg base URL |
| Tomestone.KeptAfterSpec | src/tomestone/tomestone.js:123-127 | pruning keeps exactly the timestamps after the cutoff and never grows the list |
| Tomestone.KeptAfterConcat | src/tomestone/tomestone.js:126 | pruning distributes over concatenation, so it keeps the order |
| Tomestone.KeptAfterTwice | src/tomestone/tomestone.js:123-127 | pruning at one cutoff and then a later one is pruning at the later one |
| Tomestone.AdmitThenTrack | src/tomestone/tomestone.js:129-136 | an admitted request, once tracked, leaves at most rateLimit timestamps, all inside the window; a refused one means the window is full |
| Tomestone.CooledMonotone | src/tomestone/tomestone.js:145-156 | the cooldown deadline becomes the later of the old one and now plus the duration, the reason changes only with a later deadline, and a positive cooldown is active straight away |
| Tomestone.FailureCooldowns | src/tomestone/tomestone.js:281-289 | a 429 cools down for the Retry-After back-off, a 403 for the 403 cooldown, any other status changes nothing; a missing or zero Retry-After uses the 429 cooldown |
| Tomestone.RetryAfterSeconds | src/tomestone/tomestone.js:282-285 | a Retry-After of n > 0 seconds backs off n * 1000 ms |
| Tomestone.RequestEffects | src/tomestone/tomestone.js:245-301 | a refused request sends nothing and only prunes; a sent one is tracked; a payload comes only from a successful reply and then no cooldown changes; only 429 and 403 touch the cooldown |
| Tomestone.PreferredAvatarChoice | src/tomestone/tomestone.js:107-114 | the avatar is trimmed, the custom image wins whenever it is non-empty, and no profile gives '' |
| Tomestone.FollowBound | src/tomestone/tomestone.js:451-461 | the page loop makes at most maxActivityPages less the pages already fetched requests and only adds to the items |
| Tomestone.FollowAppends | src/tomestone/tomestone.js:451-461 | the loop's result is the items already gathered followed by those it fetches itself |
| Tomestone.ActivityAllShape | src/tomestone/tomestone.js:440-485 | one to maxActivityPages requests are made; a failed first page fails the whole fetch; a paginated first page comes back with no next page and items starting with its own; a page without a paginator comes back as it was |
| Tomestone.AsWrittenExceedsConcurrency | src/tomestone/tomestone.js:166-200 | with one request allowed at a time, two requests scheduled back to back both get timers and then both run |
| Tomestone.ProcessSpec | src/tomestone/tomestone.js:166-200 | dispatching keeps the slot invariant, does nothing when the slots are full or the queue empty, and otherwise takes the oldest job and starts it now or sets a timer after the spacing and jitter |
| Tomestone.ScheduleSpec | src/tomestone/tomestone.js:158-164 | scheduling keeps the invariant; with every slot taken the job only joins the queue; with a slot free and nothing queued the job takes the slot at once, running now or behind a WaitMs timer; with a queue waiting its head goes first |
| Tomestone.FireSpec | src/tomestone/tomestone.js:195-196 | a timer firing keeps the invariant and leaves the queue alone |
| Tomestone.CompleteSpec | src/tomestone/tomestone.js:188-192 | a request settling keeps the invariant |
| Tomestone.RunningBounded | src/tomestone/tomestone.js:166-200 | under the invariant at most maxConcurrentRequests requests run |
| Tomestone.TomestoneClient.constructor | src/tomestone/tomestone.js:43-97 | the settings become the configuration; no timestamps, cooldown, queue, timers or running requests |
| Tomestone.TomestoneClient.CleanupOldRequests | src/tomestone/tomestone.js:123-127 | the timestamps are those after now less the window, in order |
| Tomestone.TomestoneClient.CanMakeRequest | src/tomestone/tomestone.js:129-132 | the new state and the answer are those of Admit |
| Tomestone.TomestoneClient.TrackRequest | src/tomestone/tomestone.js:134-136 | now is appended to the timestamps |
| Tomestone.TomestoneClient.SetCooldown | src/tomestone/tomestone.js:149-156 | the limits are those of Cooled |
| Tomestone.TomestoneClient.Request | src/tomestone/tomestone.js:245-301 | the limits and the payload are those of RequestStep |
| Tomestone.TomestoneClient.FetchActivityAll | src/tomestone/tomestone.js:440-465 | the loop's limits, payload and request count are those of ActivityAll |
| Tomestone.TomestoneClient.ScheduleRequest | src/tomestone/tomestone.js:158-164 | the dispatcher becomes Schedule of the old one, keeping the slot invariant; this is the corrected dispatcher of Findings row 2 (as written: ScheduleAsWritten) |
| Tomestone.TomestoneClient.ProcessQueue | src/tomestone/tomestone.js:166-200 | the dispatcher becomes Process of the old one; this is the corrected dispatcher of Findings row 2, which takes the slot at dispatch (as written: ProcessAsWritten) |
| Tomestone.TomestoneClient.TimerFired | src/tomestone/tomestone.js:174-196 | the dispatcher becomes Fire of the old one, keeping the invariant; this is the corrected dispatcher of Findings row 2 (as written: FireAsWritten) |
| Tomestone.TomestoneClient.RequestSettled | src/tomestone/tomestone.js:183-192 | the dispatcher becomes Complete of the old one, keeping the invariant; this is the corrected dispatcher of Findings row 2 |
| DutyProgress.SquashSpaced | src/tomestone/tomestone.js:630-632 | collapsing the separator runs leaves only `[a-z0-9]` and single spaces, empty exactly for empty input, and keeps a leading label character |
| DutyProgress.NormalizeLabelShape | src/tomestone/tomestone.js:626-634 | every normalised label is words of `[a-z0-9]` joined by single spaces, with no space at either end |
| DutyProgress.NormalizeLabelFixed | src/tomestone/tomestone.js:626-634 | a string that already has that shape normalises to itself |
| DutyProgress.NormalizeLabelIdempotent | src/tomestone/tomestone.js:626-634 | normalising twice is normalising once |
| DutyProgress.SlugToLabelIsNormalize | src/tomestone/tomestone.js:636-641 | turning dashes and underscores into spaces first changes nothing: slugToLabel is normalizeLabel |
| DutyProgress.MatchesDutyIff | src/tomestone/tomestone.js:643-657 | matchesDuty holds exactly when some non-empty normalised candidate equals, contains or is contained in the duty label |
| DutyProgress.OwnLabelMatches | src/tomestone/tomestone.js:643-657 | a candidate that normalises to the (non-empty) duty label matches |
| DutyProgress.BlankCandidatesNeverMatch | src/tomestone/tomestone.js:645-651 | candidates that normalise to nothing never match |
| DutyProgress.FirstHitSpec | src/tomestone/tomestone.js:778-807 | the scan returns the first index from i on whose encounter matches one of the labels, or none when no later index does |
| DutyProgress.SearchGroupsSpec | src/tomestone/tomestone.js:674-692 | the category scan returns the first matching encounter of the first category holding one, with its index, or nothing when no category does |
| DutyProgress.FindEncounterMatchFirst | src/tomestone/tomestone.js:659-695 | findEncounterMatch walks ultimate, savage, extremes, criterion, chaotic and quantum in that order and returns the first encounter whose name, zone, compact name or link matches the duty |
| DutyProgress.FindEncounterMatchMissing | src/tomestone/tomestone.js:660-662 | without encounters or a duty label there is no match |
| DutyProgress.FindEncounterIndexFirst | src/tomestone/tomestone.js:778-808 | findEncounterIndex is the first index whose encounter matches one of the non-empty candidate labels, and -1 exactly when none does |
| DutyProgress.PresentTargetsSpec | src/tomestone/tomestone.js:702-713 | the tried targets are exactly the present ones among the keys, each with the target stored under its key, the first key's first when present |
| DutyProgress.TargetEntriesOrder | src/tomestone/tomestone.js:702-713 | the preferred category's target is tried first when present, then savage, ultimate, extremes, chaotic and quantum; criterion only when preferred |
| DutyProgress.SearchTargetsSpec | src/tomestone/tomestone.js:715-742 | the target search returns the first tried target whose name or slugs match the duty, with its index in its category's list, or nothing when none matches |
| DutyProgress.FindProgressionTargetFirst | src/tomestone/tomestone.js:697-745 | findProgressionTarget returns the first tried target that matches, or nothing when none does |
| DutyProgress.GetProgressionTargetForCategory | src/tomestone/tomestone.js:747-768 | the category's target is found exactly when the encounters hold one, and it is returned under that category |
| DutyProgress.FormatProgressSpec | src/tomestone/tomestone.js:588-604 | "Not Cleared" exactly when there is no target or neither a name nor a percent; otherwise "Progress: " then the trimmed name and percent, joined by a space when both are there; never "Cleared" |
| DutyProgress.DutyProgressNull | src/tomestone/tomestone.js:549-586 | the answer is null exactly when there is no payload, the duty normalises to nothing, or neither an encounter nor a progression target matches |
| DutyProgress.DutyProgressCleared | src/tomestone/tomestone.js:559-570 | "Cleared" exactly when the matched encounter is completed or its category's target lies past it |
| DutyProgress.DutyProgressAtTarget | src/tomestone/tomestone.js:566-574 | when the category's target points at the matched encounter, the answer is that target's progress |
| DutyProgress.DutyProgressByTarget | src/tomestone/tomestone.js:564-585 | otherwise the first matching progression target gives the progress, a match without one is "Not Cleared", and no match is null |
| DutyProgress.DutyProgressOutcomes | src/tomestone/tomestone.js:549-604 | every answer is "Cleared", "Not Cleared" or a "Progress: " line |
| Jobs.TankCodes | src/ffxiv/job.js:2-7 | each tank code is three capitals and looks up exactly its own job |
| Jobs.HealerCodes | src/ffxiv/job.js:8-13 | each healer code is three capitals and looks up exactly its own job |
| Jobs.MeleeCodes | src/ffxiv/job.js:14-19 | each melee code is three capitals and looks up exactly its own job |
| Jobs.RangedCodes | src/ffxiv/job.js:20-22 | each ranged code is three capitals and looks up exactly its own job |
| Jobs.CasterCodes | src/ffxiv/job.js:23-27 | each caster code is three capitals and looks up exactly its own job |
| Jobs.BaseClassCodes | src/ffxiv/job.js:28-32 | each base-class code is three capitals and looks up exactly its own job |
| Jobs.NeverUnknown | src/ffxiv/job.js:33-49 | the Unknown entry is never found by an upper-cased lookup |
| Jobs.FromCodeIff | src/ffxiv/job.js:1-34 | the table finds a known job precisely for that job's code |
| Jobs.FromCodeSpec | src/ffxiv/job.js:1-34 | a hit names a known job whose code is exactly the key |
| Jobs.CapitalCodeFixed | src/ffxiv/job.js:45 | a capital code survives trimming and upper-casing, and upper-casing undoes lower-casing |
| Jobs.FromAbbreviationSpec | src/ffxiv/job.js:41-50 | fromAbbreviation gives a job exactly when the trimmed, upper-cased text is its code, and Unknown exactly when that text is no code |
| Jobs.FromAbbreviationOfCode | src/ffxiv/job.js:41-58 | a job's code, upper or lower case, reads back as the job |
| Jobs.CustomEmojiName | src/ffxiv/job.js:1-34 | two custom emoji with names of one length are equal only when the names are |
| Jobs.EmojiFallback | src/ffxiv/job.js:52-54 | only Unknown shows the DOH emoji |
| Jobs.EmojiInjective | src/ffxiv/job.js:1-34 | no two jobs share an emoji |
| Jobs.TablesConsistent | src/ffxiv/job.js:60-136 | a healer type is given only to healers and a DPS subcategory only to DPS; only Unknown has the unknown role; the two healer classes without a type are ACN and CNJ; every DPS has a subcategory |
| Jobs.AllJobsClassified | src/ffxiv/job.js:138-146 | every job getAllJobs offers has its group's role (and healer type or subcategory) and is known |
| Roles.RolesEqual | src/ffxiv/role.js:8-13 | rolesEqual holds exactly when the lists are equal |
| Roles.EmojisDistinct | src/ffxiv/role.js:20-44 | the eight role emoji are distinct |
| Roles.EmojiSpec | src/ffxiv/role.js:20-44 | a role list shows the AnyRole emoji exactly when it is none of the seven listed combinations, and the listed ones show emoji of their own |
| Roles.RoleNames | src/ffxiv/role.js:51-64 | one name per role, in order |
| Roles.RoleNameSpec | src/ffxiv/role.js:51-64 | role names hold no '/', are never "Any", and differ for different roles |
| Roles.ToStringSplits | src/ffxiv/role.js:46-67 | splitting the text of a non-empty list on '/' gives back one name per role |
| Roles.ToStringInjective | src/ffxiv/role.js:46-67 | only the empty list reads "Any", and distinct lists read differently |
| Roles.RoleEmptyNotAny | src/ffxiv/role.js:46-67 | a non-empty list never reads "Any" |
| PartyFinder.ExpiresAt | src/ffxiv/listings.js:54-85 | a parsed expiry never lies before now |
| PartyFinder.UpdatedAt | src/ffxiv/listings.js:87-118 | a parsed update time never lies after now |
| PartyFinder.PatternReadBack | src/ffxiv/listings.js:70-81 | a text made of a digit-free prefix, digits and a digit-free rest is matched by the count pattern exactly when the pattern's suffix starts the rest, and the match reads the digits back |
| PartyFinder.ReadSeconds | src/ffxiv/listings.js:70-73 | a count of seconds is read by the first pattern, in seconds |
| PartyFinder.ReadMinutes | src/ffxiv/listings.js:74-77 | a count of minutes passes the seconds pattern and is read in minutes |
| PartyFinder.ReadHours | src/ffxiv/listings.js:78-81 | a count of hours passes the first two patterns and is read in hours |
| PartyFinder.ExpiresInSeconds | src/ffxiv/listings.js:54-85 | "in N seconds" expires N seconds from now, for any run of digits N |
| PartyFinder.ExpiresInMinutes | src/ffxiv/listings.js:54-85 | "in N minutes" expires N minutes from now |
| PartyFinder.ExpiresInHours | src/ffxiv/listings.js:54-85 | "in N hours" expires N hours from now |
| PartyFinder.UpdatedSecondsAgo | src/ffxiv/listings.js:87-118 | "N seconds ago" was updated N seconds before now |
| PartyFinder.UpdatedMinutesAgo | src/ffxiv/listings.js:87-118 | "N minutes ago" was updated N minutes before now |
| PartyFinder.UpdatedHoursAgo | src/ffxiv/listings.js:87-118 | "N hours ago" was updated N hours before now |
| PartyFinder.ExpiringSoonIn | src/ffxiv/listings.js:138-146 | on one clock reading a listing expiring ms from now is expiring soon exactly when 0 < ms <= threshold, and one expiring "now" is not |
| PartyFinder.MemberCount | src/ffxiv/listings.js:120-122 | the member count is at most the number of slots |
| PartyFinder.MemberCountSpec | src/ffxiv/listings.js:120-132 | members and open slots add up to the party size; the count is the size exactly when every slot is filled and zero exactly when none is |
| PartyFinder.IsFull | src/ffxiv/listings.js:124-126 | a full listing has at least eight slots |
| PartyFinder.OpenRoles | src/ffxiv/listings.js:128-132 | one role text per open slot |
| PartyFinder.OpenRolesSpec | src/ffxiv/listings.js:128-132 | an open slot reads "Any" exactly when it accepts any role, and two open slots read alike exactly when they accept the same roles |
| PartyFinder.HasRoleSpec | src/ffxiv/listings.js:134-136 | hasRole holds exactly when some open slot accepts the role |
| PartyFinder.FormattedMemberCountParses | src/ffxiv/listings.js:148-150 | parseInt reads the member count back from "N/8" |
| PartyFinder.FormattedMemberCountSplits | src/ffxiv/listings.js:148-150 | "N/8" splits on '/' into the count and "8" |
| PartyFinder.MatchesOwnDuty | src/ffxiv/listings.js:152-155 | a listing matches its own duty name in any case |
| PartyFinder.MatchesDutyMonotone | src/ffxiv/listings.js:152-155 | no duty names match nothing, and more names never lose a match |
| PartyFinder.TagsListSpec | src/ffxiv/listings.js:157-162 | the tag list is empty only for an empty string, and joining it with ", " gives the string back |
| PartyFinder.HasTagSpec | src/ffxiv/listings.js:164-167 | every listed tag is found in any case, hasTag ignores case, and a listing without tags has none |
| PartyFinder.DescriptionMentions | src/ffxiv/listings.js:169-181 | a word written anywhere in the description is found case-insensitively |
| PartyFinder.PartyKinds | src/ffxiv/listings.js:169-181 | "practice" in the description makes a practice party; "reclear" or "farm", or a Loot or Duty Completion tag, a reclear party |
| PartyFinder.Tags | src/ffxiv/listings.js:43-48 | getTags is never empty and returns the tags when there are any |
| PartyFinder.UniqueIdSplits | src/ffxiv/listings.js:183-185 | an id made of fields without '_' splits back into data centre, id and creator |
| PartyFinder.UniqueIdInjective | src/ffxiv/listings.js:183-185 | such listings share an id exactly when data centre, id and creator agree |
| PartyFinder.ForDutyAndDataCentreSpec | src/ffxiv/listings.js:193-197 | the filter keeps, in order, exactly the listings of that duty and data centre |
| PartyFinder.UpdatedWithinLastSpec | src/ffxiv/listings.js:214-222 | the filter fails exactly when some update text does not parse, and otherwise keeps, in order, exactly the listings updated at or after now less the duration |
| PartyFinder.LatestAtUnique | src/ffxiv/listings.js:199-212 | at most one listing is the first of the latest |
| PartyFinder.Listings.constructor | src/ffxiv/listings.js:189-191 | a new collection is empty |
| PartyFinder.Listings.ForDuty | src/ffxiv/listings.js:193-197 | a fresh collection holding ForDutyAndDataCentre of the listings |
| PartyFinder.Listings.WithinLast | src/ffxiv/listings.js:214-222 | fails exactly when UpdatedWithinLast does, else a fresh collection holding its listings |
| PartyFinder.Listings.MostRecentUpdated | src/ffxiv/listings.js:199-212 | a parse failure exactly when some update text does not parse; no listing exactly when none was updated after the epoch; otherwise the first of the latest |
| PartyFinder.Listings.Add | src/ffxiv/listings.js:224-229 | the listings become Added of the old ones |
| PartyFinder.MostRecentBy | src/ffxiv/listings.js:203-211 | the loop keeps the first listing with the greatest time after the epoch, and fails when a time does not parse |
| PartyFinder.AddedSpec | src/ffxiv/listings.js:224-229 | add keeps ids distinct and the listings already there, adds exactly the new id, and changes nothing when the id is present |
| Recruitment.TallyJob | src/discord/recruitment.js:468-501 | the switch on a job adds one to the tally of its kind (tank, pure or shield healer, melee, caster or ranged) and nothing for any other job |
| Recruitment.FilledJobs | src/discord/recruitment.js:468-470 | the jobs of the filled slots are no more than the slots |
| Recruitment.FilledJobsIgnoreOpenSlots | src/discord/recruitment.js:468-470 | changing an open slot for another open slot changes no tally |
| Recruitment.KeyInjective | src/discord/recruitment.js:512-538 | the seven keys of the missing-role object are distinct |
| Recruitment.TankNeedsSpec | src/discord/recruitment.js:512-521 | the main and off tank are listed exactly when fewer than two tanks fill them |
| Recruitment.HealerNeedsSpec | src/discord/recruitment.js:523-528 | a pure and a shield healer are listed exactly when that kind is not filled |
| Recruitment.DpsNeedsSpec | src/discord/recruitment.js:530-538 | melee is listed below two melee, caster and ranged when none is filled |
| Recruitment.MissingSpec | src/discord/recruitment.js:503-540 | a key is listed exactly when its tally is short of the standard party |
| Recruitment.NothingMissing | src/discord/recruitment.js:503-540 | a post is filled exactly when it has two tanks, a pure and a shield healer, two melee, a caster and a ranged DPS |
| Recruitment.GetMissingRoles | src/discord/recruitment.js:460-540 | the loop's missing list is Missing of the tallies of the filled slots |
| Recruitment.MemberJobs | src/discord/recruitment.js:1211-1225 | one job per member, in order |
| Recruitment.ValidateStandardComposition | src/discord/recruitment.js:1205-1245 | the loop's verdict is StandardVerdict of the members' role counts |
| Recruitment.StandardVerdictExact | src/discord/recruitment.js:1205-1245 | on a party within two tanks, two healers and four DPS, a job is accepted exactly when its role is known and the party stays within those limits |
| Recruitment.CategoriesPartition | src/ffxiv/job.js:60-99 | every job has exactly one role category |
| Recruitment.StandardPartySize | src/discord/recruitment.js:1205-1245 | a party of known jobs within the standard limits has at most eight members |
| Recruitment.ValidateUltimateSavageComposition | src/discord/recruitment.js:1247-1344 | the loop's verdict is UltimateVerdict of the members' composition |
| Recruitment.UltimateVerdictExact | src/discord/recruitment.js:1247-1344 | on a party within two tanks, one healer of each kind, two melee and one caster (or one melee and two casters) and one ranged, a job is accepted exactly when it has a seat and the party stays within those limits |
| Recruitment.FakeMeleeRule | src/discord/recruitment.js:1308-1330 | with one melee and two casters another melee is refused; with two melee and one caster another caster is refused |
| Recruitment.DutyRaidFirst | src/discord/recruitment.js:564-640 | the raid is the first branch whose test the lower-cased duty passes; no branch means no raid |
| Recruitment.ProgRoles | src/discord/recruitment.js:564-640 | every raid has at least one progression role |
| Recruitment.ProgressionRolesSpec | src/discord/recruitment.js:564-640 | no roles exactly when the duty names no raid; otherwise the clear list with a Duty Completion or Loot tag and the progression list without |
| Recruitment.RecruitmentChannelSpec | src/discord/recruitment.js:542-562 | the first channel of the preferred type (ultimate for Ultimate duties, savage otherwise) is chosen; failing that, the first channel that is no menu |
| Recruitment.RecruitmentChannelNone | src/discord/recruitment.js:542-562 | with only menu channels there is no channel |
| Recruitment.FindUserListingSpec | src/discord/recruitment.js:296-308 | the listing found is the first whose lower-cased creator contains or is contained in the display name, none when no creator does; an empty name matches the first listing |
| Recruitment.ParseAgrees | src/discord/recruitment.js:1050-1065 | the code as written and the intended parse agree on every animated emoji and on every static emoji not named "a" |
| Recruitment.ParseCustomEmojiRoundTrip | src/discord/recruitment.js:1050-1065 | the intended parse reads back the name and id of `<:n:i>` and of `<a:n:i>` |
| Recruitment.ParseCustomEmojiPlain | src/discord/recruitment.js:1051-1056 | unbracketed text is the name with no id, both ways |
| Recruitment.ParseCustomEmojiNamedA | src/discord/recruitment.js:1058-1059 | as written, a static emoji named "a" loses its name and id; the intended parse keeps them |
| Recruitment.ComponentEmojiOf | src/discord/recruitment.js:1067-1073 | a custom emoji with a non-empty name other than "a" and a non-empty id becomes a component emoji with that name and id |
| Recruitment.JobComponentEmojiSpec | src/discord/recruitment.js:1067-1073 | a known job's emoji parses alike both ways, keeps the job's code as its name, and, for a non-empty id free of ':', becomes the component emoji (code, id) |
| RecruitmentBoard.Lookup | src/discord/recruitment.js:1078 | a post or request is found exactly when its id is a key of the map, and it is the value filed there |
| RecruitmentBoard.RemoveFirstSpec | src/discord/recruitment.js:1360-1407 | splicing out the first member with the user's id shortens the list by one, removes one membership of that user and keeps every other member in order |
| RecruitmentBoard.ReviewPostSpec | src/discord/recruitment.js:43-65 | a post is skipped exactly when it is younger than two minutes; it expires exactly when it is old enough and there is no board or no listing with its listing's id; otherwise it takes the first listing with that id |
| RecruitmentBoard.RefreshedOf | src/discord/recruitment.js:50-59 | a post still listed takes the current listing and keeps everything else; any other post is unchanged |
| RecruitmentBoard.ReviewedSpec | src/discord/recruitment.js:39-71 | after the check a post remains exactly when it did not expire; a post in its grace period is untouched; a remaining post keeps its message id and changes only its listing |
| RecruitmentBoard.JoinCheckOf | src/discord/recruitment.js:1074-1108 | the post being gone, the host joining without owning the guild and an existing membership are refused, each exactly in its case; anyone else may open the job menu |
| RecruitmentBoard.SelectionSpec | src/discord/recruitment.js:1142-1203 | a request is filed exactly when a job was picked, it is known, the post is live and the post's validator (the stricter one for Ultimate and Savage duties) accepts it; the request names the post, the user, the job and the host; a refusal carries the validator's reason |
| RecruitmentBoard.LeaveSpec | src/discord/recruitment.js:1346-1377 | a user leaves exactly when the post is live and the user is a member; leaving drops one membership of that user from that post and changes nothing else; otherwise nothing changes |
| RecruitmentBoard.KickSpec | src/discord/recruitment.js:1379-1417 | a kick happens exactly when a member was picked, the post is live, the requester is its host and the picked user is a member; a non-host is refused; the kick drops one membership of the picked user and changes nothing else |
| RecruitmentBoard.ApproveSpec | src/discord/recruitment.js:1419-1457 | the request is consumed in every case but an unknown one; approval happens exactly when the request's post is live and appends exactly the requester with the requested job to that post, changing no other post |
| RecruitmentBoard.DenySpec | src/discord/recruitment.js:1459-1486 | the request is consumed and no post changes; it is denied exactly when the request and its post both exist |
| RecruitmentBoard.RecruitmentManager.constructor | src/discord/recruitment.js:15-25 | no posts, no pending requests and no board |
| RecruitmentBoard.RecruitmentManager.UpdateListings | src/discord/recruitment.js:31-37 | the board against which posts expire is the one given |
| RecruitmentBoard.RecruitmentManager.StorePost | src/discord/recruitment.js:902-918 | the new post, with no members, is filed under its message id and nothing else changes |
| RecruitmentBoard.RecruitmentManager.Recipients | src/discord/recruitment.js:130-140 | the host, then every member in order |
| RecruitmentBoard.RecruitmentManager.MarkRecruitmentExpired | src/discord/recruitment.js:122-144 | the host and every member are notified, in that order, and the post is dropped |
| RecruitmentBoard.RecruitmentManager.ReviewPosts | src/discord/recruitment.js:43-65 | every post takes its refreshed form; the posts collected are exactly the expired ones, as they were |
| RecruitmentBoard.RecruitmentManager.RemoveExpired | src/discord/recruitment.js:69-71 | every collected post is marked expired, so the posts left are those before less the ids collected |
| RecruitmentBoard.RecruitmentManager.CheckExpiredRecruitments | src/discord/recruitment.js:39-71 | the posts left are Reviewed of the posts before, and every expired post was collected and removed |
| RecruitmentBoard.RecruitmentManager.HandleJoinRequest | src/discord/recruitment.js:1074-1108 | the handler's verdict is JoinCheckOf of the post under the message id |
| RecruitmentBoard.RecruitmentManager.HandleJobSelection | src/discord/recruitment.js:1142-1203 | the outcome is SelectionOf of the post; only a sent request is filed under its id and otherwise the pending requests are unchanged |
| RecruitmentBoard.RecruitmentManager.HandleLeaveRequest | src/discord/recruitment.js:1346-1377 | the new posts and the outcome are LeaveStep of the old posts |
| RecruitmentBoard.RecruitmentManager.HandleKickMember | src/discord/recruitment.js:1379-1417 | the new posts and the outcome are KickStep of the old posts |
| RecruitmentBoard.RecruitmentManager.HandleApproveJoin | src/discord/recruitment.js:1419-1457 | the new posts, the new pending requests and the outcome are ApproveStep of the old ones |
| RecruitmentBoard.RecruitmentManager.HandleDenyJoin | src/discord/recruitment.js:1459-1486 | the new pending requests and the outcome are DenyStep of the old ones; the posts are unchanged |
| RecruitmentBoard.FirstCharAbsent | src/discord/recruitment.js:994-998 | a pattern whose first character does not occur in a text does not occur in it |
| RecruitmentBoard.OnlyCandidateAbsent | src/discord/recruitment.js:994-998 | a pattern that can only start at one place, and does not occur there, does not occur |
| RecruitmentBoard.ReplaceLeading | src/discord/recruitment.js:994-998 | replacing every occurrence of a pattern that only occurs at the start replaces just that one |
| RecruitmentBoard.ReplaceWhole | src/discord/recruitment.js:994-998 | replacing a pattern in itself yields the replacement |
| RecruitmentBoard.MarkOnly | src/discord/recruitment.js:993-999 | a tag matched by no earlier marked tag, whose marked form no later tag matches, comes out of the chain marked exactly once |
| RecruitmentBoard.FormatTagsUnmarked | src/discord/recruitment.js:989-1000 | non-empty tags containing none of the marked tags are returned as they are |
| RecruitmentBoard.CompletionApart | src/discord/recruitment.js:994-998 | the marked "Duty Completion" contains none of the later tags |
| RecruitmentBoard.CompleteApart | src/discord/recruitment.js:994-998 | "Duty Complete" does not contain "Duty Completion" and its marked form contains none of the later tags |
| RecruitmentBoard.LootApart | src/discord/recruitment.js:994-998 | "Loot" contains no earlier tag and its marked form no later one |
| RecruitmentBoard.PracticeApart | src/discord/recruitment.js:994-998 | "Practice" contains no earlier tag and its marked form no later one |
| RecruitmentBoard.OnePlayerApart | src/discord/recruitment.js:994-998 | "One Player per Job" contains none of the earlier tags |
| RecruitmentBoard.OnePlayerNotPractice | src/discord/recruitment.js:997-998 | "One Player per Job" does not contain "Practice" |
| RecruitmentBoard.MarkedTagsApart | src/discord/recruitment.js:994-998 | each marked tag contains no earlier one and its marked form no later one |
| RecruitmentBoard.FormatTagsMarksTagOnce | src/discord/recruitment.js:989-1000 | each of the five tags on its own gets the marker exactly once; "Duty Complete" and "Duty Completion" differ at their thirteenth character, so neither replacement touches the other's output |
| Discord.ParseListingCharacter | src/discord/discord.js:317-320 | no listing names no character |
| Discord.NoAtNoSeparator | src/discord/discord.js:324 | a string without '@' never holds " @ " |
| Discord.SplitAtSeparator | src/discord/discord.js:324-327 | "name @ world" splits on " @ " into exactly the name and the world when neither holds '@' |
| Discord.TitleRoundTrip | src/discord/discord.js:158-168 | parsing the title built from a name and a world gives back the name, and the world unless the listing's own world names the same world in another case |
| Discord.PlainCreator | src/discord/discord.js:322-347 | a creator without " @ " is the name, trimmed, and the world is the listing's normalised world |
| Discord.TitleKeepsAddressedCreator | src/discord/discord.js:164-166 | a creator that already holds '@' is the title on its own |
| Discord.FormatTags | src/discord/discord.js:170-175 | the result is "No tags" or the tags themselves; "No tags" for no tags, and the tags as given unless they trim to "_ _" |
| Discord.FormatTagsIdempotent | src/discord/discord.js:170-175 | formatting formatted tags changes nothing |
| Discord.FormatMinIL | src/discord/discord.js:177-180 | blank input gives "N/A" |
| Discord.KeycapsRoundTrip | src/discord/discord.js:181-191 | reading the keycap form back gives every character of the input, in order |
| Discord.KeycapsLength | src/discord/discord.js:181-191 | the keycap form is never shorter, is as long exactly when there is no digit, and starts with the first character |
| Discord.MinILRoundTrip | src/discord/discord.js:177-192 | a non-blank minimum item level is formatted losslessly |
| Discord.NoFenceAcross | src/discord/discord.js:216-226 | no triple backtick runs across a separator without backticks between two fence-free parts |
| Discord.JoinNoFence | src/discord/discord.js:225 | fence-free parts joined by a backtick-free separator are fence-free |
| Discord.SanitizedHasNoFence | src/discord/discord.js:221-226 | the sanitised text never holds a triple backtick, and text without one is unchanged |
| Discord.BoxedIsOneBlock | src/discord/discord.js:216-219 | a boxed value is the opening fence and a newline, the sanitised text with no fence in it, a newline and the closing fence |
| Discord.TruncateDescriptionSpec | src/discord/discord.js:228-236 | a non-empty description comes out trimmed with no line break or tab, and one without such characters is only trimmed |
| Discord.AsWrittenThrowsForEveryNamedListing | src/discord/discord.js:259-261 | as written, with both clients enabled every listing titled "c @ w" reaches the undefined getCharacterId and throws; with Tomestone off it reaches the cache |
| Discord.ThumbnailUncachedIff | src/discord/discord.js:247-288 | the thumbnail is reported not cached exactly when the client is on, a character is named, there is no Tomestone avatar, the cache holds no live entry for the key and the store has nothing; it is then the fallback and the fetch has been claimed |
| Discord.CacheAndStoreMiss | src/discord/discord.js:271-285 | the portrait lookup and the negative check both miss exactly when the cache has no live entry and the store has nothing, and then the queue lets the fetch through |
| Discord.ThumbnailPrefersAvatar | src/discord/discord.js:259-269 | a Tomestone avatar, when there is one, is the thumbnail and the Lodestone client is untouched |
| Discord.GetListingThumbnailInfo | src/discord/discord.js:247-288 | no client gives the fallback; otherwise the new cache, the new dispatcher and the answer are ThumbnailStep of the old ones, and the store is unchanged |
| Discord.ResolvedOnlyEdited | src/discord/discord.js:406-423 | a message stops waiting only if it was looked at and its edit succeeded |
| Discord.ResolvedUpToOnlyEdited | src/discord/discord.js:406-423 | after any number of the entries, only messages that were looked at and whose edit succeeded have stopped waiting |
| Discord.Discord.ResolvePending | src/discord/discord.js:406-423 | the entries are tried in order: the cache ends as Resolved says and the entries deleted are exactly the ones Resolved names |
| Discord.Discord.ResolveOne | src/discord/discord.js:407-422 | one entry: the cache steps as CachedStages says, and the entry is deleted exactly when a non-empty portrait was found and its message edit succeeded |
| Discord.PendingLifetime | src/discord/discord.js:379-404 | an entry queued at t is still waiting at now exactly when now is at most four minutes after t; sweeping at two times is sweeping at the later one |
| Discord.OutsideChannelSpec | src/discord/discord.js:77-81 | cleaning a channel leaves no entry of it and every other entry as it was |
| Discord.Discord.constructor | src/discord/discord.js:37 | no message waits for a portrait |
| Discord.Discord.QueuePortraitUpdate | src/discord/discord.js:365-381 | while the client is on and a character and an embed are given, the message is filed under its id with a deadline four minutes on; otherwise nothing changes |
| Discord.Discord.DropExpired | src/discord/discord.js:396-404 | the entries past their deadline are deleted and the others are collected, each exactly once |
| Discord.Discord.ProcessPendingPortraits | src/discord/discord.js:391-424 | with the client off nothing changes; otherwise every unexpired entry is tried once, the cache becomes Resolved's, and the entries left are the unexpired ones less those resolved |
| Discord.Discord.CleanChannel | src/discord/discord.js:77-81 | the entries left are exactly those of other channels |
| Marketboard.QualityString | src/marketboard/marketboard.js:25-27 | "HQ" exactly for a high-quality listing and "NQ" exactly for any other |
| Marketboard.StackInfoSpec | src/marketboard/marketboard.js:29-31 | the singular "1 item" exactly for a quantity of one, and the text reads back as the quantity |
| Marketboard.UpdateTimeFields | src/marketboard/marketboard.js:37-39 | the stamp splits on ':' into the tag, the update time and "R>", and its middle field reads back as the update time |
| Marketboard.HqListingsSpec | src/marketboard/marketboard.js:148-171 | exactly the high-quality entries of the reply are kept, converted and stamped with the item id the reply carries, each once |
| Marketboard.FetchListingsForDc | src/marketboard/marketboard.js:148-171 | the loop's listings are HqListings of the reply and the count is their number |
| Marketboard.Tagged | src/marketboard/marketboard.js:99-101 | every listing of a data centre is stamped with that data centre and nothing else changes |
| Marketboard.InsertByPricePerm | src/marketboard/marketboard.js:108 | inserting a listing adds exactly that listing |
| Marketboard.InsertByPriceBound | src/marketboard/marketboard.js:108 | inserting a listing no dearer than a bound into listings under that bound keeps every price under it |
| Marketboard.InsertByPriceSorted | src/marketboard/marketboard.js:108 | inserting into a price-ordered list keeps it price-ordered |
| Marketboard.InsertByPriceSpec | src/marketboard/marketboard.js:108 | inserting into a price-ordered list keeps it price-ordered and adds exactly the listing |
| Marketboard.SortByPriceSorted | src/marketboard/marketboard.js:108 | the sorted listings are in ascending price order |
| Marketboard.SortByPricePerm | src/marketboard/marketboard.js:108 | the sorted listings are a permutation of the input |
| Marketboard.SortByPriceSpec | src/marketboard/marketboard.js:108 | sorting gives a price-ordered permutation of the listings |
| Marketboard.InsertByPriceStable | src/marketboard/marketboard.js:108 | inserting places a listing behind every listing of its own price |
| Marketboard.SortByPriceStable | src/marketboard/marketboard.js:108 | the sort is stable: the listings of any one price keep their order |
| Marketboard.TopListingsSpec | src/marketboard/marketboard.js:108-112 | at most ten listings are kept (all when there are at most ten), cheapest first, each one of the gathered ones, and none dearer than any listing dropped |
| Marketboard.TopListingsStable | src/marketboard/marketboard.js:108-112 | of the listings at any one price, those kept are the first ones in data-centre and reply order |
| Marketboard.GetItemData | src/marketboard/marketboard.js:93-123 | the item's entry holds its id, name and icon and TopListings of the data centres' replies |
| Marketboard.CheapestSpec | src/marketboard/marketboard.js:57-65 | a name is mapped exactly when an item of that name has listings, and to the first listing of the last such item |
| Marketboard.GetCheapestListings | src/marketboard/marketboard.js:57-65 | the loop's map is Cheapest of the items |
| Marketboard.GarlandIconSpec | src/marketboard/marketboard.js:260-275 | no URL exactly for a missing icon, a non-string non-number or an empty string; a number names the file of that number and a string names itself less one leading slash |
| Marketboard.GarlandIconSlash | src/marketboard/marketboard.js:269-271 | only one leading slash is dropped, and a numeric string names the same file as the number |
| Marketboard.FallbackIconSpec | src/marketboard/marketboard.js:277-288 | the fallback ignores letter case; the honey pot exactly for a gemdraught, the popcorn exactly for popcorn that is no gemdraught, and none otherwise |
| Common.TrimSpec | src/discord/discord.js:159-160 | the trimmed text neither starts nor ends with whitespace and is the input with only whitespace cut from each end |
| Common.TrimIdempotent | src/discord/discord.js:159-160 | trimming twice is trimming once |
| Common.FilterSpec | src/ffxiv/listings.js:195 | filtering keeps exactly the elements that pass, in their order |
| Common.JoinSplit | src/ffxiv/listings.js:161 | splitting on a separator and joining with it gives back the text |
| Common.SplitJoin | src/ffxiv/listings.js:161 | joining separator-free parts and splitting again gives back the parts |

## Left out

- HTTP, Discord and Postgres I/O: fetch calls, channel, message, DM and role calls, and the SQL of src/lodestone/store_postgres.js. Replies enter as parameters. The store is an abstract map with the expiry and negative-entry rules of src/lodestone/store_postgres.js:159-267.
- store_postgres's Tomestone tables and `cleanupExpired` (src/lodestone/store_postgres.js:269): these are storage housekeeping with no decision in them.
- HTML scraping: `collectCharacterIds`, `fetchCharacterById` and the image extraction. A Lodestone search result is an input: the first page failed, a later page failed (that error propagates as in the code), or the ids found.
- Timers and asynchrony: `setTimeout`/`setInterval`, the 60-second `Promise.race` in getCharacterPortrait, the 200 ms polling of `waitForCache`, the worker's `sleep(rateLimitMs)` between requests, and the five-second portrait updater. Time is an explicit `now`. The worker is a step over its queue. A timer firing is a method call.
- Interleaving of concurrent async handlers: each method runs to completion.
- Random jitter (`Math.random`) is a parameter, the draw.
- Floating point: `formatPrice` (`toFixed`) and `parsePercent` (`parseFloat`) are not modelled. Progress percentages are kept as the text the payload holds.
- Case mapping is ASCII-only. JavaScript's `toLowerCase`/`toUpperCase` are Unicode-wide.
- `URLSearchParams` decoding of a progression target's link: the encounter and zone values are taken as already decoded strings.
- Tomestone `refreshActivityCache` and `startRefresh` (src/tomestone/tomestone.js:487-548): a store-driven background refresh made of I/O and a timer.
- Marketboard `getLowestPrices` and `getIconURL`/`verifyIconURL` (src/marketboard/marketboard.js:73-91,174-257): these loop over network probes. The icon URL reaches GetItemData as a parameter.
- Embeds, select menus, buttons, colours and message text, including `getListingColor`, `createListingEmbed`, `postListings` and the marketboard embeds.
- `refreshRecruitmentPosts` (src/discord/recruitment.js:73-120): it rebuilds embeds and schedules the 30-second auto-delete of a filled post. The `filled` flag it sets belongs to that part.
- The recruitment creation dialogue: `handleInteraction` routing, the search, modal and role-selection steps, and their caches (`selectedRolesCache`, `customMessageCache`, `listingCache`). Also `handleDeleteRecruitment` and `findOrCreateRole`. A finished post enters through StorePost.
- Post fields that only feed embeds: guildId, hostAvatar, customMessage, selectedRoles, filled, and a member's approvedAt stamp.
- The guild owner lookup in handleJoinRequest is a parameter, isOwner. A failed lookup is isOwner = false, as in the code.
- The user id fallback chain (`interaction.member?.user?.id || interaction.user?.id || ''`) is a given user id.
- The order in which a JavaScript Map is iterated. DropExpired returns the unexpired entries in an order the model does not fix. ProcessPendingPortraits is proved for the order returned.
- Logging, the web server and src/discord/colors.js.
- The main loop's channel updates and its exit after one round when ONCE is set (src/index.js:262): the loop is modelled only through the durations of the updates.
- Recruitment.JobComponentEmojiSpec: the component-emoji clause is stated for emoji ids that are non-empty and free of ':'. Every id in the job table is a non-empty string of digits, but the lemma takes that as its hypothesis rather than proving it for each of the 31 literal ids.
- Durations.ParseDurationMs: a numeric setting is an integer (`Setting.Number`). A fractional positive setting, which the source at src/tomestone/tomestone.js:6-7 returns as it is, is not represented, because the model has no floating point.

## Findings

| source | as written | input that shows it | evidently intended | confidence | as-written member | corrected member |
|---|---|---|---|---|---|---|
| src/discord/discord.js:259-261 | with Tomestone enabled, the thumbnail lookup calls `lodestoneClient.getCharacterId`, which LodestoneClient does not define, so it throws a TypeError | any listing whose creator is "c @ w", for a name c and a world w, while both clients are enabled | resolve the character id from the backing store (its getId) and fall through to the portrait cache when there is none | high (not executed) | Discord.AsWrittenThrowsForEveryNamedListing | Discord.GetListingThumbnailInfo |
| src/tomestone/tomestone.js:166-200 | processQueue counts a request as active only when its timer fires, so requests scheduled during the wait also pass the `activeRequests < maxConcurrentRequests` test | maxConcurrentRequests = 1 and a jitter draw with 0 < draw < requestJitterMs (250 ms by default): two requests scheduled at the same moment both get timers and both run | take the slot when the request is dispatched, so at most maxConcurrentRequests requests are waiting or running (the invariant ProcessSpec keeps, from which RunningBounded follows) | high (not executed) | Tomestone.AsWrittenExceedsConcurrency | Tomestone.ProcessSpec |
| src/discord/recruitment.js:1058-1064 | after stripping `<:` the parse also strips a leading `a:`, which eats the name of a static emoji named "a" | `<:a:123>` parses to an empty name and an empty id | strip `a:` only from an animated emoji, `<a:...>` | medium (not executed) | Recruitment.ParseCustomEmojiNamedA | Recruitment.ParseCustomEmojiRoundTrip |
