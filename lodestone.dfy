/** The Lodestone portrait client (src/lodestone/lodestone.js): world-name
    normalisation, cache keys, the backing store's read/write semantics
    (src/lodestone/store_postgres.js) and the request pipeline around the
    cache: lookup order, cooldowns, in-flight claims, the FIFO request queue
    and negative caching. Replies of the Lodestone web site are inputs. */
module Lodestone {
  import opened Common
  import opened LruCache

  // ---------------------------------------------------------------------
  // normalizeWorld
  // ---------------------------------------------------------------------

  /** `result.split(' @ ')[0].trim()` when the separator occurs. */
  function DropAfterAt(t: string): (r: string)
    requires Trimmed(t)
    ensures Trimmed(r) && r <= t && !Contains(r, " @ ")
    ensures !Contains(t, " @ ") ==> r == t
  {
    if Contains(t, " @ ") then
      var head := Split(t, " @ ")[0];
      SplitHead(t, " @ ");
      TrimmedPrefixFacts(head, t, " @ ");
      Trim(head)
    else t
  }

  /** Trimming a prefix p of s that is free of pat, where s has no leading
      whitespace, gives a prefix of s that is still free of pat. */
  lemma TrimmedPrefixFacts(p: string, s: string, pat: string)
    requires p <= s && !Contains(p, pat)
    ensures Trimmed(Trim(p))
    ensures (s == [] || !IsSpace(s[0])) ==> Trim(p) <= s && !Contains(Trim(p), pat)
  {
    TrimSpec(p);
    if s == [] || !IsSpace(s[0]) {
      TrimPrefixIsPrefix(p, s);
      TrimPrefixIsPrefix(p, p);
      NoContainsPrefix(Trim(p), p, pat);
    }
  }

  /** `result.slice(0, idx).trim()` when `' ('` occurs at an index > 0. */
  function DropFromParen(t: string): (r: string)
    ensures Trimmed(t) ==> Trimmed(r) && r <= t && !Contains(r, " (")
    ensures !Contains(t, " (") ==> r == t
  {
    match IndexOf(t, " (")
    case None => t
    case Some(idx) =>
      if idx > 0 then
        NoContainsBeforeFirst(t, " (", idx);
        TrimmedPrefixFacts(t[..idx], t, " (");
        Trim(t[..idx])
      else t
  }

  /** normalizeWorld: the world name without surrounding whitespace, without
      a " @ datacentre" suffix and without a " (...)" suffix. */
  function NormalizeWorld(world: string): (r: string)
    ensures Trimmed(r) && !Contains(r, " @ ") && !Contains(r, " (")
    ensures r <= Trim(world)
    ensures !Contains(Trim(world), " @ ") && !Contains(Trim(world), " (") ==> r == Trim(world)
  {
    if world == "" then ""
    else
      TrimSpec(world);
      var a := DropAfterAt(Trim(world));
      var r := DropFromParen(a);
      NoContainsPrefix(r, a, " @ ");
      r
  }

  /** Normalising a normalised world name changes nothing. */
  lemma NormalizeWorldIdempotent(world: string)
    ensures NormalizeWorld(NormalizeWorld(world)) == NormalizeWorld(world)
  {
    var r := NormalizeWorld(world);
    TrimOfTrimmed(r);
  }

  /** The portal of the Lodestone site for a language code. */
  function LodestoneBaseForLanguage(language: string): (base: string)
    ensures var lang := Lower(language);
            base == if lang == "jp" || lang == "ja" then "https://jp.finalfantasyxiv.com/lodestone"
                    else if lang == "fr" then "https://fr.finalfantasyxiv.com/lodestone"
                    else if lang == "de" then "https://de.finalfantasyxiv.com/lodestone"
                    else "https://na.finalfantasyxiv.com/lodestone"
  {
    match Lower(language)
    case "jp" => "https://jp.finalfantasyxiv.com/lodestone"
    case "ja" => "https://jp.finalfantasyxiv.com/lodestone"
    case "fr" => "https://fr.finalfantasyxiv.com/lodestone"
    case "de" => "https://de.finalfantasyxiv.com/lodestone"
    case _ => "https://na.finalfantasyxiv.com/lodestone"
  }

  // ---------------------------------------------------------------------
  // cacheKey
  // ---------------------------------------------------------------------

  function Part(s: string): string { Lower(Trim(s)) }

  /** cacheKey: trimmed, lower-cased name and world joined by '@'. */
  function CacheKey(name: string, world: string): string
  {
    Part(name) + "@" + Part(world)
  }

  /** Keys that differ only in letter case or in surrounding whitespace
      collide. */
  lemma CacheKeyCollides(name: string, world: string, p: string, q: string)
    requires forall k :: 0 <= k < |p| ==> IsSpace(p[k])
    requires forall k :: 0 <= k < |q| ==> IsSpace(q[k])
    ensures CacheKey(Lower(name), Lower(world)) == CacheKey(name, world)
    ensures CacheKey(p + name + q, q + world + p) == CacheKey(name, world)
  {
    TrimLower(name);
    LowerIdempotent(Trim(name));
    TrimLower(world);
    LowerIdempotent(Trim(world));
    PaddedTrim(p, name, q);
    PaddedTrim(q, world, p);
  }

  /** Keys are injective on the trimmed, lower-cased parts as long as the
      name part has no '@'. */
  lemma CacheKeyInjective(n1: string, w1: string, n2: string, w2: string)
    requires '@' !in Part(n1) && '@' !in Part(n2)
    requires CacheKey(n1, w1) == CacheKey(n2, w2)
    ensures Part(n1) == Part(n2) && Part(w1) == Part(w2)
  {
    SeparatorUnique(Part(n1), Part(w1), Part(n2), Part(w2), '@');
  }

  // ---------------------------------------------------------------------
  // The backing store (store_postgres.js), as a map from cache key to row
  // ---------------------------------------------------------------------

  /** A stored row; characterId 0 stands for SQL null. */
  datatype StoreRow = StoreRow(characterId: int, name: string, world: string, portrait: string,
                               avatar: string, isNegative: bool, fetchedAt: int, expiresAt: int)

  type Rows = map<string, StoreRow>

  datatype StoreLookup = StoreMiss | StoreNegative | StoreHit(data: Character)
  {
    predicate Found() { !StoreMiss? }
  }

  /** store.get: absent or expired rows are misses; negative rows say so;
      positive rows give back the character. No store at all is a miss. */
  function StoreGet(store: Option<Rows>, key: string, now: int): StoreLookup
  {
    if store.None? || key !in store.value then StoreMiss
    else
      var row := store.value[key];
      if now > row.expiresAt then StoreMiss
      else if row.isNegative then StoreNegative
      else StoreHit(Character(row.characterId, row.name, row.world, row.portrait, row.avatar, row.fetchedAt))
  }

  /** store.getId: the stored character id when positive, expired or not. */
  function StoreGetId(store: Option<Rows>, key: string): (id: Option<int>)
    ensures id.Some? ==> id.value > 0
  {
    if store.None? || key !in store.value || store.value[key].characterId <= 0 then None
    else Some(store.value[key].characterId)
  }

  /** store.set: an upsert of the row for key; ids <= 0 are stored as null. */
  function StorePut(store: Option<Rows>, key: string, data: Character, expiresAt: int, isNegative: bool): Option<Rows>
  {
    if store.None? then None
    else Some(store.value[key := StoreRow(if data.id > 0 then data.id else 0, data.name, data.world,
                                          data.portrait, data.avatar, isNegative, data.fetchedAt, expiresAt)])
  }

  /** What is written is what is read back until the row expires; the id is
      read back without regard to expiry. Other keys are not affected. */
  lemma StoreRoundTrip(store: Option<Rows>, key: string, data: Character, expiresAt: int,
                       isNegative: bool, now: int, other: string)
    requires store.Some? && other != key
    ensures var s := StorePut(store, key, data, expiresAt, isNegative);
            StoreGet(s, key, now) ==
              if now > expiresAt then StoreMiss
              else if isNegative then StoreNegative
              else StoreHit(data.(id := if data.id > 0 then data.id else 0))
    ensures StoreGetId(StorePut(store, key, data, expiresAt, isNegative), key) ==
              if data.id > 0 then Some(data.id) else None
    ensures StoreGet(StorePut(store, key, data, expiresAt, isNegative), other, now) == StoreGet(store, other, now)
  {
  }

  /** getStoreEntry: read the store and copy what it holds into the cache. */
  function Backfilled(st: Store, store: Option<Rows>, key: string, now: int, ttlMs: int, maxSize: int): (Store, StoreLookup)
  {
    match StoreGet(store, key, now)
    case StoreMiss => (st, StoreMiss)
    case StoreNegative => (Inserted(st, key, NegativeEntry(now), maxSize), StoreNegative)
    case StoreHit(c) => (Inserted(st, key, PositiveEntry(c, now, ttlMs), maxSize), StoreHit(c))
  }

  /** `avatar || portrait || ''`. */
  function PortraitUrl(c: Character): string
  {
    if c.avatar != "" then c.avatar else c.portrait
  }

  // ---------------------------------------------------------------------
  // Cooldowns
  // ---------------------------------------------------------------------

  /** A cooldown deadline is active while `now <= until`. */
  predicate GlobalActive(until: Option<int>, now: int)
  {
    until.Some? && !(now > until.value)
  }

  /** isGlobalCooldownActive forgets an expired deadline. */
  function GlobalAfterCheck(until: Option<int>, now: int): Option<int>
  {
    if until.Some? && now > until.value then None else until
  }

  /** setGlobalCooldown: the new deadline is taken only when it is later. */
  function Extended(current: Option<int>, until: int): (r: Option<int>)
  {
    if current.None? || until > current.value then Some(until) else current
  }

  predicate KeyActive(cooldowns: map<string, int>, key: string, now: int)
  {
    key in cooldowns && !(now > cooldowns[key])
  }

  function KeyAfterCheck(cooldowns: map<string, int>, key: string, now: int): map<string, int>
  {
    if key in cooldowns && now > cooldowns[key] then cooldowns - {key} else cooldowns
  }

  /** `isGlobalCooldownActive() || isKeyCooldownActive(key)`: the key check,
      and its clean-up, only run when the global cooldown is not active. */
  function CoolingCheck(until: Option<int>, cooldowns: map<string, int>, key: string, now: int)
    : (Option<int>, map<string, int>, bool)
  {
    if GlobalActive(until, now) then (until, cooldowns, true)
    else (GlobalAfterCheck(until, now), KeyAfterCheck(cooldowns, key, now), KeyActive(cooldowns, key, now))
  }

  /** The global deadline never moves earlier, and ends no earlier than the
      one just requested. */
  lemma GlobalCooldownOnlyExtends(current: Option<int>, until: int)
    ensures Extended(current, until).Some?
    ensures Extended(current, until).value >= until
    ensures current.Some? ==> Extended(current, until).value >= current.value
    ensures Extended(current, until).value == until || Extended(current, until) == current
  {
  }

  /** A check reports the cooldown active iff now <= until; a check that
      finds it over forgets it, and one that finds it running keeps it. */
  lemma CooldownCheckForgets(until: Option<int>, cooldowns: map<string, int>, key: string, now: int)
    ensures GlobalActive(until, now) <==> until.Some? && now <= until.value
    ensures !GlobalActive(until, now) ==> GlobalAfterCheck(until, now).None?
    ensures GlobalActive(until, now) ==> GlobalAfterCheck(until, now) == until
    ensures KeyActive(cooldowns, key, now) <==> key in cooldowns && now <= cooldowns[key]
    ensures !KeyActive(cooldowns, key, now) ==> key !in KeyAfterCheck(cooldowns, key, now)
    ensures KeyActive(cooldowns, key, now) ==> KeyAfterCheck(cooldowns, key, now) == cooldowns
    ensures CoolingCheck(until, cooldowns, key, now).2 <==> GlobalActive(until, now) || KeyActive(cooldowns, key, now)
  {
  }

  // ---------------------------------------------------------------------
  // The lookup pipeline as decisions
  // ---------------------------------------------------------------------

  datatype LookupError =
    | ClientDisabled        // 'lodestone client is disabled'
    | CharacterNotFound     // 'character not found: <name> @ <world>'
    | SearchCooldown        // 'lodestone search cooldown active'
    | DetailFetchFailed     // 'failed to fetch character'
    | SearchFailed(message: string)
    | PortraitUnavailable   // 'portrait not available: <name> @ <world>'
    | ResponseTimeout       // 'response timeout'

  /** How far getCharacterPortrait got before the cooldown check. */
  datatype Stage = CacheHit(url: string) | NegativeCached | StoreFound(url: string) | StoreNegativeFound | Miss

  datatype PortraitOutcome = Portrait(url: string) | Failed(error: LookupError) | AwaitInFlight | Enqueued

  /** Cache get, then negative peek, then the store (with back-fill). */
  function PortraitStages(st: Store, store: Option<Rows>, key: string, now: int, ttlMs: int, maxSize: int): (Store, Stage)
  {
    var got := Lookup(st, key, now);
    if got.1.Some? then (got.0, CacheHit(PortraitUrl(got.1.value)))
    else
      var peeked := Peeked(got.0, key, now);
      if peeked.1.Some? && peeked.1.value.IsNegative() then (peeked.0, NegativeCached)
      else
        var fill := Backfilled(peeked.0, store, key, now, ttlMs, maxSize);
        match fill.1
        case StoreMiss => (fill.0, Miss)
        case StoreNegative => (fill.0, StoreNegativeFound)
        case StoreHit(c) => (fill.0, StoreFound(PortraitUrl(c)))
  }

  /** The rest of getCharacterPortrait: cooldown, then the in-flight claim. */
  function PortraitLadder(stage: Stage, cooling: bool, claimed: bool): PortraitOutcome
  {
    match stage
    case CacheHit(u) => Portrait(u)
    case NegativeCached => Failed(CharacterNotFound)
    case StoreFound(u) => Portrait(u)
    case StoreNegativeFound => Failed(CharacterNotFound)
    case Miss => if cooling then Failed(SearchCooldown) else if !claimed then AwaitInFlight else Enqueued
  }

  /** A request is queued only after every earlier check came up empty. */
  lemma LadderEnqueuesOnlyOnMiss(stage: Stage, cooling: bool, claimed: bool)
    ensures PortraitLadder(stage, cooling, claimed) == Enqueued <==> stage == Miss && !cooling && claimed
    ensures PortraitLadder(stage, cooling, claimed) == AwaitInFlight <==> stage == Miss && !cooling && !claimed
    ensures PortraitLadder(stage, cooling, claimed) == Failed(SearchCooldown) <==> stage == Miss && cooling
    ensures PortraitLadder(stage, cooling, claimed).Failed? && !stage.Miss? ==>
              PortraitLadder(stage, cooling, claimed) == Failed(CharacterNotFound)
  {
  }

  /** A live positive cache entry answers first, whatever the store holds. */
  lemma CacheHitAnswersFirst(st: Store, store: Option<Rows>, key: string, now: int, ttlMs: int, maxSize: int)
    requires key in st.data && !st.data[key].Expired(now) && !st.data[key].IsNegative()
    ensures PortraitStages(st, store, key, now, ttlMs, maxSize) ==
            (Lookup(st, key, now).0, CacheHit(PortraitUrl(st.data[key].payload.character)))
  {
  }

  /** A live negative cache entry answers not-found and leaves the cache and
      the store alone. */
  lemma NegativeEntryAnswersNotFound(st: Store, store: Option<Rows>, key: string, now: int, ttlMs: int, maxSize: int)
    requires key in st.data && !st.data[key].Expired(now) && st.data[key].IsNegative()
    ensures PortraitStages(st, store, key, now, ttlMs, maxSize) == (st, NegativeCached)
  {
  }

  /** With no live entry for the key, the store decides, and what it holds
      is copied into the cache. */
  lemma StoreDecidesOnCacheMiss(st: Store, store: Option<Rows>, key: string, now: int, ttlMs: int, maxSize: int)
    requires key !in st.data
    ensures var r := PortraitStages(st, store, key, now, ttlMs, maxSize);
            match StoreGet(store, key, now)
            case StoreMiss => r == (st, Miss)
            case StoreNegative => r == (Inserted(st, key, NegativeEntry(now), maxSize), StoreNegativeFound)
            case StoreHit(c) => r == (Inserted(st, key, PositiveEntry(c, now, ttlMs), maxSize), StoreFound(PortraitUrl(c)))
  {
  }

  /** queueCharacterPortraitFetch's checks before the cooldown: peek must find
      no entry of any kind and the store nothing. */
  function QueueStages(st: Store, store: Option<Rows>, key: string, now: int, ttlMs: int, maxSize: int): (Store, bool)
  {
    var peeked := Peeked(st, key, now);
    if peeked.1.Some? then (peeked.0, false)
    else
      var fill := Backfilled(peeked.0, store, key, now, ttlMs, maxSize);
      (fill.0, fill.1.StoreMiss?)
  }

  /** A background fetch goes ahead exactly when the cache holds no live
      entry for the key (positive or negative) and the store has nothing. */
  lemma QueueProceedsIff(st: Store, store: Option<Rows>, key: string, now: int, ttlMs: int, maxSize: int)
    ensures QueueStages(st, store, key, now, ttlMs, maxSize).1 <==>
            (key !in st.data || st.data[key].Expired(now)) && StoreGet(store, key, now) == StoreMiss
    ensures QueueStages(st, store, key, now, ttlMs, maxSize).1 ==>
            QueueStages(st, store, key, now, ttlMs, maxSize).0 == Peeked(st, key, now).0
  {
  }

  /** getCharacterPortraitCached: cache get, then the store. */
  function CachedStages(st: Store, store: Option<Rows>, key: string, now: int, ttlMs: int, maxSize: int)
    : (Store, string, bool)
  {
    var got := Lookup(st, key, now);
    if got.1.Some? then (got.0, PortraitUrl(got.1.value), true)
    else
      var fill := Backfilled(got.0, store, key, now, ttlMs, maxSize);
      match fill.1
      case StoreHit(c) => (fill.0, PortraitUrl(c), true)
      case _ => (fill.0, "", false)
  }

  /** isNegativeCached: a live negative cache entry, else the store's flag. */
  function NegativeStages(st: Store, store: Option<Rows>, key: string, now: int, ttlMs: int, maxSize: int)
    : (Store, bool)
  {
    var peeked := Peeked(st, key, now);
    if peeked.1.Some? && peeked.1.value.IsNegative() then (peeked.0, true)
    else
      var fill := Backfilled(peeked.0, store, key, now, ttlMs, maxSize);
      (fill.0, fill.1.StoreNegative?)
  }

  /** A key is negatively cached iff the cache holds a live negative entry,
      or it holds no live negative entry and the store holds a live
      negative row. */
  lemma NegativeCachedIff(st: Store, store: Option<Rows>, key: string, now: int, ttlMs: int, maxSize: int)
    ensures NegativeStages(st, store, key, now, ttlMs, maxSize).1 <==>
            (key in st.data && !st.data[key].Expired(now) && st.data[key].IsNegative())
            || StoreGet(store, key, now) == StoreNegative
  {
  }

  /** The portrait reported found comes from a live positive cache entry or
      a live positive store row. */
  lemma CachedPortraitFoundIff(st: Store, store: Option<Rows>, key: string, now: int, ttlMs: int, maxSize: int)
    ensures CachedStages(st, store, key, now, ttlMs, maxSize).2 <==>
            (key in st.data && !st.data[key].Expired(now) && !st.data[key].IsNegative())
            || StoreGet(store, key, now).StoreHit?
  {
  }

  // ---------------------------------------------------------------------
  // Fetching (fetchPortraitDirect, searchCharacter)
  // ---------------------------------------------------------------------

  /** What the Lodestone search replied: the first page failed with an error
      message, a later page failed, or the ids collected from all pages. */
  datatype SearchReply = FirstPageFailed(message: string) | LaterPageFailed(message: string) | Results(ids: seq<int>)

  /** Which way fetchPortraitDirect went. */
  datatype FetchPath =
    | ByStoredId(c: Character)
    | RateLimited(message: string)
    | SearchErrorNegative(message: string)
    | SearchErrorPlain(message: string)
    | NoResults
    | DetailMissing
    | BySearch(c: Character)

  /** fetchPortraitDirect's path, from the stored id, what fetching that id
      gave, the search reply and what fetching the first search hit gave. */
  function FetchPathOf(storedId: Option<int>, byStoredId: Option<Character>, reply: SearchReply,
                       detail: Option<Character>): FetchPath
  {
    if storedId.Some? && byStoredId.Some? then ByStoredId(byStoredId.value)
    else match reply
      case FirstPageFailed(msg) => if Contains(msg, "429") then RateLimited(msg) else SearchErrorNegative(msg)
      case LaterPageFailed(msg) => SearchErrorPlain(msg)
      case Results(ids) =>
        if |ids| == 0 then NoResults
        else if detail.None? then DetailMissing
        else BySearch(detail.value)
  }

  datatype FetchOutcome = Fetched(url: string) | FetchFailed(error: LookupError)

  function OutcomeOf(path: FetchPath): FetchOutcome
  {
    match path
    case ByStoredId(c) => Fetched(PortraitUrl(c))
    case RateLimited(msg) => FetchFailed(SearchFailed(msg))
    case SearchErrorNegative(msg) => FetchFailed(SearchFailed(msg))
    case SearchErrorPlain(msg) => FetchFailed(SearchFailed(msg))
    case NoResults => FetchFailed(CharacterNotFound)
    case DetailMissing => FetchFailed(DetailFetchFailed)
    case BySearch(c) => Fetched(PortraitUrl(c))
  }

  /** Paths that write a negative entry to the cache and the store. */
  predicate WritesNegative(path: FetchPath) { path.SearchErrorNegative? || path.NoResults? }

  /** Paths that start the global and per-key cooldowns. */
  predicate StartsCooldown(path: FetchPath) { path.RateLimited? }

  /** A negative entry is written exactly when the search itself failed
      with an error not mentioning 429, or found nobody; a 429 starts the
      cooldowns instead and never writes a negative entry. */
  lemma NegativeOnlyWithoutRateLimit(storedId: Option<int>, byStoredId: Option<Character>,
                                     reply: SearchReply, detail: Option<Character>)
    ensures var p := FetchPathOf(storedId, byStoredId, reply, detail);
            WritesNegative(p) <==>
              !(storedId.Some? && byStoredId.Some?)
              && ((reply.FirstPageFailed? && !Contains(reply.message, "429")) || reply == Results([]))
    ensures var p := FetchPathOf(storedId, byStoredId, reply, detail);
            StartsCooldown(p) <==>
              !(storedId.Some? && byStoredId.Some?) && reply.FirstPageFailed? && Contains(reply.message, "429")
    ensures var p := FetchPathOf(storedId, byStoredId, reply, detail);
            !(WritesNegative(p) && StartsCooldown(p))
  {
  }

  /** A fetch succeeds with the character's avatar (or portrait) exactly on
      the stored-id and search-hit paths. */
  lemma FetchSucceedsIff(storedId: Option<int>, byStoredId: Option<Character>,
                         reply: SearchReply, detail: Option<Character>)
    ensures var p := FetchPathOf(storedId, byStoredId, reply, detail);
            OutcomeOf(p).Fetched? <==> p.ByStoredId? || p.BySearch?
    ensures storedId.Some? && byStoredId.Some? ==>
            OutcomeOf(FetchPathOf(storedId, byStoredId, reply, detail)) == Fetched(PortraitUrl(byStoredId.value))
  {
  }

  /** The part of the client's state that fetching changes. */
  datatype Side = Side(cache: Store, store: Option<Rows>, globalUntil: Option<int>, keyCooldown: map<string, int>)

  /** Settings that the effects of a fetch depend on. */
  datatype Settings = Settings(ttlMs: int, maxSize: int, globalCooldownMs: int, perKeyCooldownMs: int)

  /** A fetched character is cached, persisted and its cooldown cleared. */
  function Remembered(s: Side, key: string, c: Character, now: int, cfg: Settings): Side
  {
    Side(Inserted(s.cache, key, PositiveEntry(c, now, cfg.ttlMs), cfg.maxSize),
         StorePut(s.store, key, c, now + cfg.ttlMs, false),
         s.globalUntil, s.keyCooldown - {key})
  }

  /** A character not found is cached and persisted as negative. */
  function Negated(s: Side, key: string, name: string, world: string, now: int, cfg: Settings): Side
  {
    s.(cache := Inserted(s.cache, key, NegativeEntry(now), cfg.maxSize),
       store := StorePut(s.store, key, Character(0, name, world, "", "", now), now + NEGATIVE_TTL_MS, true))
  }

  /** A rate-limited search starts the global and the key cooldown. */
  function Cooled(s: Side, key: string, now: int, cfg: Settings): Side
  {
    s.(globalUntil := Extended(s.globalUntil, now + cfg.globalCooldownMs),
       keyCooldown := s.keyCooldown[key := now + cfg.perKeyCooldownMs])
  }

  /** searchCharacter's own effects: only a failed first page has any. */
  function SearchEffects(reply: SearchReply, s: Side, key: string, name: string, world: string,
                         now: int, cfg: Settings): Side
  {
    if reply.FirstPageFailed? then
      if Contains(reply.message, "429") then Cooled(s, key, now, cfg) else Negated(s, key, name, world, now, cfg)
    else s
  }

  /** The effects of fetchPortraitDirect along each path. */
  function FetchEffects(path: FetchPath, s: Side, key: string, name: string, world: string,
                        now: int, cfg: Settings): Side
  {
    match path
    case ByStoredId(c) => Remembered(s, key, c, now, cfg)
    case BySearch(c) => Remembered(s, key, c, now, cfg)
    case RateLimited(_) => Cooled(s, key, now, cfg)
    case SearchErrorNegative(_) => Negated(s, key, name, world, now, cfg)
    case NoResults => Negated(s, key, name, world, now, cfg)
    case SearchErrorPlain(_) => s
    case DetailMissing => s
  }

  /** A search that failed decides the fetch: its own effects are all the
      fetch has, and its message is the error. */
  lemma SearchFailureEffects(reply: SearchReply, detail: Option<Character>, s: Side, key: string,
                             name: string, world: string, now: int, cfg: Settings)
    requires !reply.Results?
    ensures var path := FetchPathOf(None, None, reply, detail);
            OutcomeOf(path) == FetchFailed(SearchFailed(reply.message))
            && FetchEffects(path, s, key, name, world, now, cfg) == SearchEffects(reply, s, key, name, world, now, cfg)
  {
  }

  /** After a successful fetch the next cache read of the key returns the
      fetched character, and the store serves it until the cache TTL ends;
      after a not-found the key reads as negative in cache and store. */
  lemma FetchEffectsVisible(path: FetchPath, s: Side, key: string, name: string, world: string,
                            now: int, cfg: Settings)
    requires ValidStore(s.cache, cfg.maxSize) && s.store.Some? && cfg.ttlMs >= 0
    ensures var r := FetchEffects(path, s, key, name, world, now, cfg);
            (path.ByStoredId? || path.BySearch?) ==>
              Lookup(r.cache, key, now).1 == Some(path.c)
              && StoreGet(r.store, key, now + cfg.ttlMs).StoreHit?
              && key !in r.keyCooldown
    ensures var r := FetchEffects(path, s, key, name, world, now, cfg);
            WritesNegative(path) ==>
              Peeked(r.cache, key, now).1.Some? && Peeked(r.cache, key, now).1.value.IsNegative()
              && StoreGet(r.store, key, now + NEGATIVE_TTL_MS) == StoreNegative
    ensures var r := FetchEffects(path, s, key, name, world, now, cfg);
            StartsCooldown(path) ==>
              r.cache == s.cache && r.store == s.store
              && GlobalActive(r.globalUntil, now + cfg.globalCooldownMs)
              && KeyActive(r.keyCooldown, key, now + cfg.perKeyCooldownMs)
  {
    match path
    case ByStoredId(c) => RememberedVisible(s, key, c, now, cfg);
    case BySearch(c) => RememberedVisible(s, key, c, now, cfg);
    case SearchErrorNegative(_) => NegatedVisible(s, key, name, world, now, cfg);
    case NoResults => NegatedVisible(s, key, name, world, now, cfg);
    case _ =>
  }

  lemma RememberedVisible(s: Side, key: string, c: Character, now: int, cfg: Settings)
    requires ValidStore(s.cache, cfg.maxSize) && s.store.Some? && cfg.ttlMs >= 0
    ensures var r := Remembered(s, key, c, now, cfg);
            Lookup(r.cache, key, now).1 == Some(c)
            && StoreGet(r.store, key, now + cfg.ttlMs).StoreHit?
            && key !in r.keyCooldown
  {
    var e := PositiveEntry(c, now, cfg.ttlMs);
    InsertedKeyIsNewest(s.cache, key, e, cfg.maxSize);
    var st := Inserted(s.cache, key, e, cfg.maxSize);
    assert key in st.data && st.data[key] == e;
  }

  lemma NegatedVisible(s: Side, key: string, name: string, world: string, now: int, cfg: Settings)
    requires ValidStore(s.cache, cfg.maxSize) && s.store.Some?
    ensures var r := Negated(s, key, name, world, now, cfg);
            Peeked(r.cache, key, now).1.Some? && Peeked(r.cache, key, now).1.value.IsNegative()
            && StoreGet(r.store, key, now + NEGATIVE_TTL_MS) == StoreNegative
  {
    var e := NegativeEntry(now);
    InsertedKeyIsNewest(s.cache, key, e, cfg.maxSize);
    var st := Inserted(s.cache, key, e, cfg.maxSize);
    assert key in st.data && st.data[key] == e;
  }

  // ---------------------------------------------------------------------
  // The client
  // ---------------------------------------------------------------------

  /** A queued fetch; hasWaiter is true when a caller awaits its response. */
  datatype Request = Request(key: string, name: string, world: string, hasWaiter: bool)

  /** The keys of the queued requests. */
  function QueueKeys(q: seq<Request>): set<string>
  {
    if q == [] then {} else {q[0].key} + QueueKeys(q[1..])
  }

  /** No key is queued twice. */
  predicate KeysDistinct(q: seq<Request>)
  {
    q == [] || (q[0].key !in QueueKeys(q[1..]) && KeysDistinct(q[1..]))
  }

  lemma {:induction false} QueueAppend(q: seq<Request>, r: Request)
    ensures QueueKeys(q + [r]) == QueueKeys(q) + {r.key}
    ensures KeysDistinct(q) && r.key !in QueueKeys(q) ==> KeysDistinct(q + [r])
  {
    if q != [] {
      assert (q + [r])[1..] == q[1..] + [r];
      QueueAppend(q[1..], r);
    } else {
      assert ([r])[1..] == [];
    }
  }

  /** The client state the cooldown check and the in-flight claim touch. */
  datatype Dispatch = Dispatch(globalUntil: Option<int>, keyCooldown: map<string, int>,
                               queue: seq<Request>, inFlight: set<string>)

  /** After every earlier check missed: the cooldown check (which forgets
      expired deadlines), then the in-flight claim, then the queue. */
  function ClaimStep(d: Dispatch, req: Request, now: int): (Dispatch, PortraitOutcome)
  {
    var cooling := CoolingCheck(d.globalUntil, d.keyCooldown, req.key, now);
    var checked := d.(globalUntil := cooling.0, keyCooldown := cooling.1);
    if cooling.2 then (checked, Failed(SearchCooldown))
    else if req.key in d.inFlight then (checked, AwaitInFlight)
    else (checked.(queue := d.queue + [req], inFlight := d.inFlight + {req.key}), Enqueued)
  }

  /** getCharacterPortrait as a whole: the cache and store stages, and on a
      miss the claim. */
  function PortraitStep(st: Store, store: Option<Rows>, d: Dispatch, req: Request, now: int,
                        ttlMs: int, maxSize: int): (Store, Dispatch, PortraitOutcome)
  {
    var stages := PortraitStages(st, store, req.key, now, ttlMs, maxSize);
    if stages.1.Miss? then
      var claim := ClaimStep(d, req, now);
      (stages.0, claim.0, claim.1)
    else (stages.0, d, PortraitLadder(stages.1, false, false))
  }

  /** queueCharacterPortraitFetch as a whole: its checks, and when they all
      miss the claim (whose outcome nobody waits for). */
  function QueueStep(st: Store, store: Option<Rows>, d: Dispatch, req: Request, now: int,
                     ttlMs: int, maxSize: int): (Store, Dispatch)
  {
    var stages := QueueStages(st, store, req.key, now, ttlMs, maxSize);
    if stages.1 then (stages.0, ClaimStep(d, req, now).0) else (stages.0, d)
  }

  /** The claim follows the ladder; the request joins the queue, and its key
      the in-flight set, exactly when the outcome is Enqueued; only the
      cooldown check touches the deadlines. */
  lemma ClaimFollowsLadder(d: Dispatch, req: Request, now: int)
    ensures var cooling := CoolingCheck(d.globalUntil, d.keyCooldown, req.key, now);
            var r := ClaimStep(d, req, now);
            r.1 == PortraitLadder(Miss, cooling.2, req.key !in d.inFlight)
            && (r.0.globalUntil, r.0.keyCooldown) == (cooling.0, cooling.1)
            && r.0.queue == (if r.1 == Enqueued then d.queue + [req] else d.queue)
            && r.0.inFlight == (if r.1 == Enqueued then d.inFlight + {req.key} else d.inFlight)
  {
  }

  /** Outcome of the whole lookup: the ladder over the stages, with the
      cooldown and the claim taken from the state before the call; a stage
      that answers leaves the dispatch state alone. */
  lemma PortraitStepFollowsLadder(st: Store, store: Option<Rows>, d: Dispatch, req: Request, now: int,
                                  ttlMs: int, maxSize: int)
    ensures var stages := PortraitStages(st, store, req.key, now, ttlMs, maxSize);
            var cooling := CoolingCheck(d.globalUntil, d.keyCooldown, req.key, now);
            var r := PortraitStep(st, store, d, req, now, ttlMs, maxSize);
            r.0 == stages.0
            && r.2 == PortraitLadder(stages.1, cooling.2, req.key !in d.inFlight)
            && (!stages.1.Miss? ==> r.1 == d)
            && (r.2 == Enqueued <==> stages.1.Miss? && !cooling.2 && req.key !in d.inFlight)
            && r.1.queue == (if r.2 == Enqueued then d.queue + [req] else d.queue)
  {
    var stages := PortraitStages(st, store, req.key, now, ttlMs, maxSize);
    if stages.1.Miss? {
      ClaimFollowsLadder(d, req, now);
    }
  }

  /** A background request queues the key only when its checks miss, no
      cooldown is active and the key is not already claimed. */
  lemma QueueStepEnqueuesIff(st: Store, store: Option<Rows>, d: Dispatch, req: Request, now: int,
                             ttlMs: int, maxSize: int)
    ensures var r := QueueStep(st, store, d, req, now, ttlMs, maxSize);
            var cooling := CoolingCheck(d.globalUntil, d.keyCooldown, req.key, now);
            ((r.1.queue == d.queue + [req]) <==>
               (QueueStages(st, store, req.key, now, ttlMs, maxSize).1 && !cooling.2 && req.key !in d.inFlight))
            && (r.1.queue != d.queue + [req] ==> r.1.queue == d.queue && r.1.inFlight == d.inFlight)
  {
    var stages := QueueStages(st, store, req.key, now, ttlMs, maxSize);
    assert d.queue + [req] != d.queue by { assert |d.queue + [req]| == |d.queue| + 1; }
    if stages.1 {
      ClaimFollowsLadder(d, req, now);
    }
  }

  /** handleRequest for one request: the fetch's effects, and its outcome
      for the waiter if there is one. */
  function Handled(req: Request, s: Side, byStoredId: Option<Character>, reply: SearchReply,
                   detail: Option<Character>, now: int, cfg: Settings): (Option<FetchOutcome>, Side)
  {
    var key := CacheKey(req.name, req.world);
    var path := FetchPathOf(StoreGetId(s.store, key), byStoredId, reply, detail);
    (if req.hasWaiter then Some(OutcomeOf(path)) else None, FetchEffects(path, s, key, req.name, req.world, now, cfg))
  }

  /** The result of one poll of waitForCache. */
  datatype Poll = Ready(url: string) | PollFailed(error: LookupError) | KeepPolling

  class LodestoneClient {
    /** The switch the public entry points consult (isEnabled). */
    const enabled: bool
    const lodestoneBase: string
    const cache: Cache
    const rateLimitMs: int
    const perKeyCooldownMs: int
    const globalCooldownMs: int
    var store: Option<Rows>
    var requestQueue: seq<Request>
    var inFlight: set<string>
    var keyCooldown: map<string, int>
    var globalUntil: Option<int>
    /** Keys the worker has taken off the queue and not yet finished. */
    ghost var handling: set<string>

    /** Every in-flight key is either queued exactly once or being handled. */
    ghost predicate Claims()
      reads this`requestQueue, this`inFlight, this`handling
    {
      KeysDistinct(requestQueue)
      && inFlight == QueueKeys(requestQueue) + handling
      && QueueKeys(requestQueue) !! handling
    }

    ghost predicate Valid()
      reads this`requestQueue, this`inFlight, this`handling, cache
    {
      cache.Valid() && Claims()
    }

    /** The state that fetching changes. */
    function SideState(): Side
      reads this`store, this`globalUntil, this`keyCooldown, cache
    {
      Side(cache.State(), store, globalUntil, keyCooldown)
    }

    function Dispatcher(): Dispatch
      reads this`globalUntil, this`keyCooldown, this`requestQueue, this`inFlight
    {
      Dispatch(globalUntil, keyCooldown, requestQueue, inFlight)
    }

    function Config(): Settings
    {
      Settings(cache.ttlMs, cache.maxSize, globalCooldownMs, perKeyCooldownMs)
    }

    constructor(enabled: bool, language: string, cacheTtlMs: int, maxCacheSize: int,
                perKeyCooldownMs: int, globalCooldownMs: int)
      ensures Valid() && fresh(cache)
      ensures this.enabled == enabled && lodestoneBase == LodestoneBaseForLanguage(language)
      ensures cache.ttlMs == cacheTtlMs && cache.maxSize == maxCacheSize && cache.State() == Store([], map[])
      ensures store == None && requestQueue == [] && inFlight == {} && keyCooldown == map[] && globalUntil == None
      ensures rateLimitMs == 5000
      ensures this.perKeyCooldownMs == perKeyCooldownMs && this.globalCooldownMs == globalCooldownMs
    {
      this.enabled := enabled;
      lodestoneBase := LodestoneBaseForLanguage(language);
      cache := new Cache(cacheTtlMs, maxCacheSize);
      rateLimitMs := 5000;
      this.perKeyCooldownMs := perKeyCooldownMs;
      this.globalCooldownMs := globalCooldownMs;
      store := None;
      requestQueue := [];
      inFlight := {};
      keyCooldown := map[];
      globalUntil := None;
      handling := {};
    }

    method SetStore(rows: Option<Rows>)
      modifies this`store
      ensures store == rows
    {
      store := rows;
    }

    /** Claims the key; fails, changing nothing, if it is already claimed. */
    method MarkInFlight(key: string) returns (ok: bool)
      modifies this`inFlight
      ensures ok <==> key !in old(inFlight)
      ensures inFlight == old(inFlight) + {key}
    {
      if key in inFlight {
        return false;
      }
      inFlight := inFlight + {key};
      return true;
    }

    method ClearInFlight(key: string)
      modifies this`inFlight
      ensures inFlight == old(inFlight) - {key}
    {
      inFlight := inFlight - {key};
    }

    method IsGlobalCooldownActive(now: int) returns (active: bool)
      modifies this`globalUntil
      ensures active == GlobalActive(old(globalUntil), now)
      ensures globalUntil == GlobalAfterCheck(old(globalUntil), now)
    {
      if globalUntil.None? {
        return false;
      }
      if now > globalUntil.value {
        globalUntil := None;
        return false;
      }
      return true;
    }

    method SetGlobalCooldown(durationMs: int, now: int)
      modifies this`globalUntil
      ensures globalUntil == Extended(old(globalUntil), now + durationMs)
    {
      var until := now + durationMs;
      if globalUntil.None? || until > globalUntil.value {
        globalUntil := Some(until);
      }
    }

    method IsKeyCooldownActive(key: string, now: int) returns (active: bool)
      modifies this`keyCooldown
      ensures active == KeyActive(old(keyCooldown), key, now)
      ensures keyCooldown == KeyAfterCheck(old(keyCooldown), key, now)
    {
      if key !in keyCooldown {
        return false;
      }
      if now > keyCooldown[key] {
        keyCooldown := keyCooldown - {key};
        return false;
      }
      return true;
    }

    /** Overwrites the key's deadline, even with an earlier one. */
    method SetKeyCooldown(key: string, durationMs: int, now: int)
      modifies this`keyCooldown
      ensures keyCooldown == old(keyCooldown)[key := now + durationMs]
    {
      keyCooldown := keyCooldown[key := now + durationMs];
    }

    method ClearKeyCooldown(key: string)
      modifies this`keyCooldown
      ensures keyCooldown == old(keyCooldown) - {key}
    {
      keyCooldown := keyCooldown - {key};
    }

    method CoolingDown(key: string, now: int) returns (active: bool)
      modifies this`globalUntil, this`keyCooldown
      ensures (globalUntil, keyCooldown, active) == CoolingCheck(old(globalUntil), old(keyCooldown), key, now)
    {
      active := IsGlobalCooldownActive(now);
      if !active {
        active := IsKeyCooldownActive(key, now);
      }
    }

    method GetStoreEntry(key: string, now: int) returns (r: StoreLookup)
      requires cache.Valid()
      modifies cache
      ensures cache.Valid()
      ensures (cache.State(), r) == Backfilled(old(cache.State()), old(store), key, now, cache.ttlMs, cache.maxSize)
    {
      r := StoreGet(store, key, now);
      match r
      case StoreMiss =>
      case StoreNegative => cache.SetNegative(key, now);
      case StoreHit(c) => cache.Set(key, c, now);
    }

    method PersistPositive(key: string, data: Character, now: int)
      modifies this`store
      ensures store == StorePut(old(store), key, data, now + cache.ttlMs, false)
    {
      if store.Some? {
        store := StorePut(store, key, data, now + cache.ttlMs, false);
      }
    }

    method PersistNegative(key: string, name: string, world: string, now: int)
      modifies this`store
      ensures store == StorePut(old(store), key, Character(0, name, world, "", "", now), now + NEGATIVE_TTL_MS, true)
    {
      if store.Some? {
        store := StorePut(store, key, Character(0, name, world, "", "", now), now + NEGATIVE_TTL_MS, true);
      }
    }

    method GetCharacterPortraitCached(name: string, world: string, now: int) returns (url: string, found: bool)
      requires Valid()
      modifies cache
      ensures Valid()
      ensures !enabled ==> url == "" && !found && cache.State() == old(cache.State())
      ensures enabled ==>
                (cache.State(), url, found) ==
                CachedStages(old(cache.State()), old(store), CacheKey(name, world), now, cache.ttlMs, cache.maxSize)
    {
      if !enabled {
        return "", false;
      }
      var key := CacheKey(name, world);
      var cached := cache.Get(key, now);
      if cached.Some? {
        return PortraitUrl(cached.value), true;
      }
      var entry := GetStoreEntry(key, now);
      if entry.Found() {
        if entry.StoreNegative? {
          return "", false;
        }
        return PortraitUrl(entry.data), true;
      }
      return "", false;
    }

    method IsNegativeCached(name: string, world: string, now: int) returns (negative: bool)
      requires Valid()
      modifies cache
      ensures Valid()
      ensures !enabled ==> !negative && cache.State() == old(cache.State())
      ensures enabled ==>
                (cache.State(), negative) ==
                NegativeStages(old(cache.State()), old(store), CacheKey(name, world), now, cache.ttlMs, cache.maxSize)
    {
      if !enabled {
        return false;
      }
      var key := CacheKey(name, world);
      var entry := cache.Peek(key, now);
      if entry.Some? && entry.value.IsNegative() {
        return true;
      }
      var stored := GetStoreEntry(key, now);
      if stored.Found() {
        return stored.StoreNegative?;
      }
      return false;
    }

    /** Appends a request for a key just claimed. */
    method Enqueue(req: Request)
      requires Claims() && req.key !in inFlight
      modifies this`requestQueue, this`inFlight
      ensures Claims()
      ensures requestQueue == old(requestQueue) + [req] && inFlight == old(inFlight) + {req.key}
    {
      inFlight := inFlight + {req.key};
      requestQueue := requestQueue + [req];
      QueueAppend(old(requestQueue), req);
    }

    /** After every earlier check missed: the cooldown check, then the
        in-flight claim, then the request joins the queue. */
    method ClaimOrWait(name: string, world: string, key: string, now: int, waiter: bool)
      returns (out: PortraitOutcome)
      requires Claims()
      modifies this`requestQueue, this`inFlight, this`globalUntil, this`keyCooldown
      ensures Claims()
      ensures (Dispatcher(), out) == ClaimStep(old(Dispatcher()), Request(key, name, world, waiter), now)
    {
      var cooling := CoolingDown(key, now);
      if cooling {
        return Failed(SearchCooldown);
      }
      if key in inFlight {
        return AwaitInFlight;
      }
      Enqueue(Request(key, name, world, waiter));
      return Enqueued;
    }

    method QueueCharacterPortraitFetch(name: string, world: string, now: int)
      requires Valid()
      modifies this`requestQueue, this`inFlight, this`globalUntil, this`keyCooldown, cache
      ensures Valid()
      ensures !enabled ==> unchanged(this) && cache.State() == old(cache.State())
      ensures enabled ==>
                (cache.State(), Dispatcher()) ==
                QueueStep(old(cache.State()), old(store), old(Dispatcher()),
                          Request(CacheKey(name, world), name, world, false), now, cache.ttlMs, cache.maxSize)
    {
      if enabled {
        var key := CacheKey(name, world);
        ghost var stages := QueueStages(cache.State(), store, key, now, cache.ttlMs, cache.maxSize);
        var proceed := QueueChecks(key, now);
        assert proceed == stages.1;
        if proceed {
          var _ := ClaimOrWait(name, world, key, now, false);
        }
      }
    }

    /** queueCharacterPortraitFetch's checks before the cooldown. */
    method QueueChecks(key: string, now: int) returns (proceed: bool)
      requires cache.Valid()
      modifies cache
      ensures cache.Valid()
      ensures (cache.State(), proceed) == QueueStages(old(cache.State()), old(store), key, now, cache.ttlMs, cache.maxSize)
    {
      var peeked := cache.Peek(key, now);
      if peeked.Some? {
        return false;
      }
      var stored := GetStoreEntry(key, now);
      return stored.StoreMiss?;
    }

    /** getCharacterPortrait's checks before the cooldown. */
    method Stages(key: string, now: int) returns (stage: Stage)
      requires cache.Valid()
      modifies cache
      ensures cache.Valid()
      ensures (cache.State(), stage) == PortraitStages(old(cache.State()), old(store), key, now, cache.ttlMs, cache.maxSize)
    {
      var cached := cache.Get(key, now);
      if cached.Some? {
        return CacheHit(PortraitUrl(cached.value));
      }
      var peeked := cache.Peek(key, now);
      if peeked.Some? && peeked.value.IsNegative() {
        return NegativeCached;
      }
      var stored := GetStoreEntry(key, now);
      match stored {
        case StoreMiss => return Miss;
        case StoreNegative => return StoreNegativeFound;
        case StoreHit(c) => return StoreFound(PortraitUrl(c));
      }
    }

    method GetCharacterPortrait(name: string, world: string, now: int) returns (out: PortraitOutcome)
      requires Valid()
      modifies this`requestQueue, this`inFlight, this`globalUntil, this`keyCooldown, cache
      ensures Valid()
      ensures !enabled ==> out == Failed(ClientDisabled) && unchanged(this) && cache.State() == old(cache.State())
      ensures enabled ==>
                (cache.State(), Dispatcher(), out) ==
                PortraitStep(old(cache.State()), old(store), old(Dispatcher()),
                             Request(CacheKey(name, world), name, world, true), now, cache.ttlMs, cache.maxSize)
    {
      if !enabled {
        out := Failed(ClientDisabled);
      } else {
        var key := CacheKey(name, world);
        ghost var stages := PortraitStages(cache.State(), store, key, now, cache.ttlMs, cache.maxSize);
        var stage := Stages(key, now);
        assert stage == stages.1;
        if stage.Miss? {
          out := ClaimOrWait(name, world, key, now, true);
        } else {
          out := PortraitLadder(stage, false, false);
        }
      }
    }

    /** One poll of waitForCache, which runs until `deadline`. */
    method PollCache(key: string, now: int, deadline: int) returns (p: Poll)
      requires cache.Valid()
      modifies cache
      ensures cache.Valid()
      ensures now >= deadline ==> p == PollFailed(ResponseTimeout) && cache.State() == old(cache.State())
      ensures now < deadline ==>
                var got := Lookup(old(cache.State()), key, now);
                if got.1.Some? then
                  cache.State() == got.0
                  && p == (if PortraitUrl(got.1.value) == "" then PollFailed(PortraitUnavailable)
                           else Ready(PortraitUrl(got.1.value)))
                else
                  var peeked := Peeked(got.0, key, now);
                  cache.State() == peeked.0
                  && p == (if peeked.1.Some? && peeked.1.value.IsNegative() then PollFailed(CharacterNotFound)
                           else KeepPolling)
    {
      if now >= deadline {
        return PollFailed(ResponseTimeout);
      }
      var cached := cache.Get(key, now);
      if cached.Some? {
        var url := PortraitUrl(cached.value);
        if url == "" {
          return PollFailed(PortraitUnavailable);
        }
        return Ready(url);
      }
      var peeked := cache.Peek(key, now);
      if peeked.Some? && peeked.value.IsNegative() {
        return PollFailed(CharacterNotFound);
      }
      return KeepPolling;
    }

    /** The worker takes the oldest request off the queue. */
    method TakeNext() returns (req: Option<Request>)
      requires Claims()
      modifies this`requestQueue, this`handling
      ensures Claims()
      ensures old(requestQueue) == [] ==> req == None && requestQueue == [] && handling == old(handling)
      ensures old(requestQueue) != [] ==>
                req == Some(old(requestQueue)[0]) && requestQueue == old(requestQueue)[1..]
                && handling == old(handling) + {req.value.key}
    {
      if requestQueue == [] {
        return None;
      }
      var head := requestQueue[0];
      ghost var q := requestQueue;
      requestQueue := requestQueue[1..];
      handling := handling + {head.key};
      return Some(head);
    }

    /** searchCharacter: only a failure of the first page is handled here; a
        429 in its message starts both cooldowns, anything else caches the
        key as not found. The error is passed on either way. */
    method SearchCharacter(name: string, world: string, key: string, now: int, reply: SearchReply)
      returns (first: Option<int>, error: Option<string>)
      requires cache.Valid()
      modifies this`globalUntil, this`keyCooldown, this`store, cache
      ensures cache.Valid()
      ensures SideState() == SearchEffects(reply, old(SideState()), key, name, world, now, Config())
      ensures error == (if reply.Results? then None else Some(reply.message))
      ensures first == (if reply.Results? && |reply.ids| > 0 then Some(reply.ids[0]) else None)
    {
      match reply
      case FirstPageFailed(msg) =>
        if Contains(msg, "429") {
          SetGlobalCooldown(globalCooldownMs, now);
          SetKeyCooldown(key, perKeyCooldownMs, now);
        } else {
          cache.SetNegative(key, now);
          PersistNegative(key, name, world, now);
        }
        return None, Some(msg);
      case LaterPageFailed(msg) =>
        return None, Some(msg);
      case Results(ids) =>
        if |ids| == 0 {
          return None, None;
        }
        return Some(ids[0]), None;
    }

    /** Caches and persists a fetched character and clears its cooldown. */
    method Remember(key: string, c: Character, now: int)
      requires cache.Valid()
      modifies this`store, this`keyCooldown, cache
      ensures cache.Valid()
      ensures SideState() == Remembered(old(SideState()), key, c, now, Config())
    {
      cache.Set(key, c, now);
      PersistPositive(key, c, now);
      ClearKeyCooldown(key);
    }

    /** Records a character as not found, in the cache and in the store. */
    method Forget(key: string, name: string, world: string, now: int)
      requires cache.Valid()
      modifies this`store, cache
      ensures cache.Valid()
      ensures SideState() == Negated(old(SideState()), key, name, world, now, Config())
    {
      cache.SetNegative(key, now);
      PersistNegative(key, name, world, now);
    }

    /** fetchPortraitDirect after the stored id gave nothing: search, then
        fetch the first hit. */
    method FetchBySearch(name: string, world: string, key: string, now: int,
                         reply: SearchReply, detail: Option<Character>) returns (out: FetchOutcome)
      requires cache.Valid()
      modifies this`globalUntil, this`keyCooldown, this`store, cache
      ensures cache.Valid()
      ensures var path := FetchPathOf(None, None, reply, detail);
              out == OutcomeOf(path)
              && SideState() == FetchEffects(path, old(SideState()), key, name, world, now, Config())
    {
      ghost var before := SideState();
      ghost var path := FetchPathOf(None, None, reply, detail);
      var first, error := SearchCharacter(name, world, key, now, reply);
      if error.Some? {
        SearchFailureEffects(reply, detail, before, key, name, world, now, Config());
        out := FetchFailed(SearchFailed(error.value));
      } else if first.None? {
        assert path == NoResults && SideState() == before;
        Forget(key, name, world, now);
        out := FetchFailed(CharacterNotFound);
      } else if detail.None? {
        assert path == DetailMissing && SideState() == before;
        out := FetchFailed(DetailFetchFailed);
      } else {
        assert path == BySearch(detail.value) && SideState() == before;
        Remember(key, detail.value, now);
        out := Fetched(PortraitUrl(detail.value));
      }
    }

    /** fetchPortraitDirect. `byStoredId` is what fetching the stored id gave
        (looked at only when the store has an id), `reply` the search reply
        and `detail` what fetching the first search hit gave. */
    method FetchPortraitDirect(name: string, world: string, now: int, byStoredId: Option<Character>,
                               reply: SearchReply, detail: Option<Character>) returns (out: FetchOutcome)
      requires cache.Valid()
      modifies this`globalUntil, this`keyCooldown, this`store, cache
      ensures cache.Valid()
      ensures var key := CacheKey(name, world);
              var path := FetchPathOf(StoreGetId(old(store), key), byStoredId, reply, detail);
              out == OutcomeOf(path)
              && SideState() == FetchEffects(path, old(SideState()), key, name, world, now, Config())
    {
      var key := CacheKey(name, world);
      var storedId := StoreGetId(store, key);
      if storedId.Some? && byStoredId.Some? {
        Remember(key, byStoredId.value, now);
        return Fetched(PortraitUrl(byStoredId.value));
      }
      out := FetchBySearch(name, world, key, now, reply, detail);
    }

    /** handleRequest: fetch, answer the waiter if there is one, and release
        the in-flight claim whatever happened. */
    method HandleRequest(req: Request, now: int, byStoredId: Option<Character>,
                         reply: SearchReply, detail: Option<Character>) returns (response: Option<FetchOutcome>)
      requires Valid() && req.key in handling
      modifies this`globalUntil, this`keyCooldown, this`store, this`inFlight, this`handling, cache
      ensures Valid()
      ensures (inFlight, handling) == (old(inFlight) - {req.key}, old(handling) - {req.key})
      ensures (response, SideState()) == Handled(req, old(SideState()), byStoredId, reply, detail, now, Config())
    {
      ghost var before := SideState();
      Release(req.key);
      assert SideState() == before;
      ghost var claims := (requestQueue, inFlight, handling);
      assert Claims();
      response := Answer(req, now, byStoredId, reply, detail);
      assert (requestQueue, inFlight, handling) == claims;
    }

    /** The try block of handleRequest: the fetch, and the reply to the
        waiter if there is one. */
    method Answer(req: Request, now: int, byStoredId: Option<Character>,
                  reply: SearchReply, detail: Option<Character>) returns (response: Option<FetchOutcome>)
      requires cache.Valid()
      modifies this`globalUntil, this`keyCooldown, this`store, cache
      ensures cache.Valid()
      ensures (response, SideState()) == Handled(req, old(SideState()), byStoredId, reply, detail, now, Config())
    {
      var out := FetchPortraitDirect(req.name, req.world, now, byStoredId, reply, detail);
      response := if req.hasWaiter then Some(out) else None;
    }

    /** The finally block of handleRequest: the claim is released. */
    method Release(key: string)
      requires Claims() && key in handling
      modifies this`inFlight, this`handling
      ensures Claims()
      ensures inFlight == old(inFlight) - {key} && handling == old(handling) - {key}
    {
      ClearInFlight(key);
      handling := handling - {key};
    }
  }
}
