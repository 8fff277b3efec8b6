/** The listing-board side of the Discord bot (src/discord/discord.js):
    the strings an embed is built from, the character a listing names,
    the order in which a thumbnail is looked up, and the map of messages
    still waiting for a portrait. Discord's normalizeWorld is the same
    function as the Lodestone client's and is Lodestone.NormalizeWorld. */
module Discord {
  import opened Common
  import opened LruCache
  import opened Lodestone
  import Tomestone
  import PartyFinder

  // ---------------------------------------------------------------------
  // Title and character
  // ---------------------------------------------------------------------

  /** buildListingTitle: the trimmed creator ('Unknown' when blank), with
      " @ world" appended unless the world is blank or the creator already
      holds an '@'. */
  function BuildListingTitle(creator: string, world: string): (title: string)
  {
    var c := if Trim(creator) == "" then "Unknown" else Trim(creator);
    var w := Trim(world);
    if w == "" || '@' in c then c else c + " @ " + w
  }

  datatype ListingCharacter = ListingCharacter(name: string, world: string)

  /** parseListingCharacter for a listing's creator and world: a
      "Name @ World" creator is split; the creator's world wins when the
      normalised listing world is blank or differs from it ignoring case. */
  function CharacterOf(creator: string, listingWorld: string): ListingCharacter
  {
    var t := Trim(creator);
    var hasAt := Contains(t, " @ ");
    var parts := Split(t, " @ ");
    var name := if hasAt then Trim(parts[0]) else t;
    var creatorWorld := if hasAt && |parts| > 1 then Trim(parts[1]) else "";
    var world := NormalizeWorld(listingWorld);
    var chosen := if creatorWorld != "" && (world == "" || Lower(world) != Lower(creatorWorld))
                  then creatorWorld else world;
    ListingCharacter(name, chosen)
  }

  /** parseListingCharacter: no listing names nobody. */
  function ParseListingCharacter(listing: Option<PartyFinder.Listing>): (r: ListingCharacter)
    ensures listing.None? ==> r == ListingCharacter("", "")
  {
    match listing
    case None => ListingCharacter("", "")
    case Some(l) => CharacterOf(l.creator, l.world)
  }

  /** A string without '@' holds no " @ ". */
  lemma NoAtNoSeparator(s: string)
    requires '@' !in s
    ensures !Contains(s, " @ ")
  {
    forall k | 0 <= k && k + 3 <= |s| ensures !OccursAt(s, " @ ", k) {
      assert s[k..k + 3][1] == s[k + 1];
    }
  }

  /** "p @ rest" splits on " @ " into p and rest when neither holds '@'. */
  lemma SplitAtSeparator(p: string, rest: string)
    requires '@' !in p && '@' !in rest
    ensures Contains(p + " @ " + rest, " @ ")
    ensures Split(p + " @ " + rest, " @ ") == [p, rest]
  {
    var s := p + " @ " + rest;
    assert s[|p|..|p| + 3] == " @ ";
    ContainsAt(s, " @ ", |p|);
    forall j | 1 <= j <= |p| ensures s[j] != '@' {
      if j < |p| { assert s[j] == p[j]; }
    }
    var k := IndexOf(s, " @ ").value;
    assert s[k + 1] == s[k..k + 3][1] == '@';
    assert k == |p|;
    assert s[..k] == p;
    assert s[k + 3..] == rest;
    NoAtNoSeparator(rest);
  }

  /** The title of a character reads back as that character: the name, and
      the world unless the listing's own world names it in another case. */
  lemma {:induction false} TitleRoundTrip(c: string, w: string, listingWorld: string)
    requires Trimmed(c) && c != "" && '@' !in c
    requires Trimmed(w) && w != "" && '@' !in w
    ensures var r := CharacterOf(BuildListingTitle(c, w), listingWorld);
            var lw := NormalizeWorld(listingWorld);
            r.name == c && r.world == (if Lower(lw) == Lower(w) then lw else w)
  {
    TrimOfTrimmed(c);
    TrimOfTrimmed(w);
    var t := c + " @ " + w;
    assert BuildListingTitle(c, w) == t;
    assert Trimmed(t) by {
      assert t[0] == c[0] && t[|t| - 1] == w[|w| - 1];
    }
    TrimOfTrimmed(t);
    SplitAtSeparator(c, w);
    var lw := NormalizeWorld(listingWorld);
    if lw == "" {
      assert |Lower(lw)| != |Lower(w)|;
    }
  }

  /** A creator without " @ " is kept whole, and the listing's world is
      used as normalised. */
  lemma PlainCreator(creator: string, listingWorld: string)
    requires !Contains(Trim(creator), " @ ")
    ensures CharacterOf(creator, listingWorld) == ListingCharacter(Trim(creator), NormalizeWorld(listingWorld))
  {
  }

  /** A title built from a creator that already holds '@' is that creator. */
  lemma TitleKeepsAddressedCreator(creator: string, world: string)
    requires '@' in Trim(creator)
    ensures BuildListingTitle(creator, world) == Trim(creator)
  {
  }

  // ---------------------------------------------------------------------
  // Tags, minimum item level, code blocks, descriptions
  // ---------------------------------------------------------------------

  /** formatTags: 'No tags' for no tags or the blank placeholder "_ _";
      otherwise the tags as they are. */
  function FormatTags(tags: string): (r: string)
    ensures r == "No tags" || r == tags
    ensures tags == "" ==> r == "No tags"
    ensures tags != "" && Trim(tags) != "_ _" ==> r == tags
  {
    if tags == "" || Trim(tags) == "_ _" then "No tags" else tags
  }

  /** Formatting tags twice changes nothing more. */
  lemma FormatTagsIdempotent(tags: string)
    ensures FormatTags(FormatTags(tags)) == FormatTags(tags)
  {
    if FormatTags(tags) == "No tags" {
      assert "No tags"[0] == 'N';
      assert Trim("No tags") == "No tags" by { TrimOfTrimmed("No tags"); }
    }
  }

  /** The two characters that turn a digit into its keycap emoji. */
  const KeycapTail: string := ['\U{FE0F}', '\U{20E3}']

  /** Each decimal digit followed by the keycap tail; other characters as
      they are. */
  function Keycaps(s: string): string
  {
    if s == [] then []
    else (if IsDigit(s[0]) then [s[0]] + KeycapTail else [s[0]]) + Keycaps(s[1..])
  }

  /** formatMinIL: 'N/A' for empty or blank input, else the keycap form. */
  function FormatMinIL(minIL: string): (r: string)
    ensures Trim(minIL) == "" ==> r == "N/A"
  {
    if minIL == "" || Trim(minIL) == "" then "N/A" else Keycaps(minIL)
  }

  /** Reading a keycap string back: a digit followed by the keycap tail
      stands for the digit. */
  function ReadKeycaps(r: string): string
  {
    if r == [] then []
    else if IsDigit(r[0]) && |r| >= 3 && r[1..3] == KeycapTail then [r[0]] + ReadKeycaps(r[3..])
    else [r[0]] + ReadKeycaps(r[1..])
  }

  /** The keycap form loses nothing: every character comes back, in order. */
  lemma {:induction false} KeycapsRoundTrip(s: string)
    ensures ReadKeycaps(Keycaps(s)) == s
  {
    if s != [] {
      KeycapsRoundTrip(s[1..]);
      var k := Keycaps(s);
      if IsDigit(s[0]) {
        assert k == [s[0]] + KeycapTail + Keycaps(s[1..]);
        assert k[1..3] == KeycapTail;
        assert k[3..] == Keycaps(s[1..]);
      } else {
        assert k[1..] == Keycaps(s[1..]);
      }
    }
  }

  /** Each digit adds two characters; the keycap form starts with the
      input's first character. */
  lemma {:induction false} KeycapsLength(s: string)
    ensures |Keycaps(s)| >= |s|
    ensures |Keycaps(s)| == |s| <==> forall i :: 0 <= i < |s| ==> !IsDigit(s[i])
    ensures s != [] ==> Keycaps(s)[0] == s[0]
  {
    if s != [] {
      KeycapsLength(s[1..]);
      if forall i :: 0 <= i < |s[1..]| ==> !IsDigit(s[1..][i]) {
        assert forall i :: 1 <= i < |s| ==> !IsDigit(s[i]) by {
          forall i | 1 <= i < |s| ensures !IsDigit(s[i]) { assert s[i] == s[1..][i - 1]; }
        }
      } else {
        var j :| 0 <= j < |s[1..]| && IsDigit(s[1..][j]);
        assert IsDigit(s[j + 1]);
      }
    }
  }

  /** A minimum item level that is not blank is formatted losslessly. */
  lemma MinILRoundTrip(minIL: string)
    requires Trim(minIL) != ""
    ensures ReadKeycaps(FormatMinIL(minIL)) == minIL
  {
    KeycapsRoundTrip(minIL);
  }

  const Fence := "```"

  /** sanitizeForBox: every triple backtick becomes three apostrophes. */
  function SanitizeForBox(value: string): string
  {
    if value == "" then "" else ReplaceAll(value, Fence, "'''")
  }

  /** boxed: the sanitised text inside a fenced code block. */
  function Boxed(value: string): string
  {
    Fence + "\n" + SanitizeForBox(value) + "\n" + Fence
  }

  /** No fence runs across a separator without backticks. */
  lemma NoFenceAcross(p: string, sep: string, q: string)
    requires |sep| > 0 && '`' !in sep && !Contains(p, Fence) && !Contains(q, Fence)
    ensures !Contains(p + sep + q, Fence)
  {
    var s := p + sep + q;
    forall k | 0 <= k && k + 3 <= |s| ensures !OccursAt(s, Fence, k) {
      if k + 3 <= |p| {
        assert s[k..k + 3] == p[k..k + 3];
        assert !OccursAt(p, Fence, k);
      } else if k >= |p| + |sep| {
        var j := k - |p| - |sep|;
        assert s[k..k + 3] == q[j..j + 3];
        assert !OccursAt(q, Fence, j);
      } else {
        var m := if k >= |p| then k else |p|;
        assert s[m] == sep[m - |p|];
        assert s[k..k + 3][m - k] == s[m];
      }
    }
  }

  /** Joining fence-free parts with a backtick-free separator gives a
      fence-free string. */
  lemma {:induction false} JoinNoFence(parts: seq<string>, sep: string)
    requires |sep| > 0 && '`' !in sep
    requires forall i :: 0 <= i < |parts| ==> !Contains(parts[i], Fence)
    ensures !Contains(Join(parts, sep), Fence)
  {
    if |parts| >= 2 {
      JoinNoFence(parts[1..], sep);
      NoFenceAcross(parts[0], sep, Join(parts[1..], sep));
    }
  }

  /** What sanitizeForBox returns never holds a triple backtick, and text
      without one comes back unchanged. */
  lemma SanitizedHasNoFence(value: string)
    ensures !Contains(SanitizeForBox(value), Fence)
    ensures !Contains(value, Fence) ==> SanitizeForBox(value) == value
  {
    if value != "" {
      JoinNoFence(Split(value, Fence), "'''");
      if !Contains(value, Fence) {
        ReplaceAllAbsent(value, Fence, "'''");
      }
    }
  }

  /** A boxed value is a single fenced block: the opening fence and newline,
      the sanitised text with no fence in it, a newline and the closing fence. */
  lemma BoxedIsOneBlock(value: string)
    ensures var b := Boxed(value);
            |b| >= 8 && b[..4] == Fence + "\n" && b[|b| - 4..] == "\n" + Fence
            && b[4..|b| - 4] == SanitizeForBox(value) && !Contains(b[4..|b| - 4], Fence)
  {
    SanitizedHasNoFence(value);
  }

  predicate IsLineBreakOrTab(c: char) { c == '\n' || c == '\r' || c == '\t' }

  /** description.replace(/[\n\r\t]/g, ' '). */
  function Flattened(s: string): (r: string)
  {
    seq(|s|, i requires 0 <= i < |s| => if IsLineBreakOrTab(s[i]) then ' ' else s[i])
  }

  /** truncateDescription: 'No description' for an empty description, else
      the description on one line, trimmed. */
  function TruncateDescription(description: string): string
  {
    if description == "" then "No description" else Trim(Flattened(description))
  }

  /** The cleaned description is trimmed and has no line break or tab; a
      description with none keeps its text, only trimmed. */
  lemma TruncateDescriptionSpec(description: string)
    requires description != ""
    ensures var r := TruncateDescription(description);
            Trimmed(r) && forall i :: 0 <= i < |r| ==> !IsLineBreakOrTab(r[i])
    ensures (forall i :: 0 <= i < |description| ==> !IsLineBreakOrTab(description[i])) ==>
            TruncateDescription(description) == Trim(description)
  {
    var f := Flattened(description);
    TrimSpec(f);
    var r := Trim(f);
    var k := |f| - |TrimStart(f)|;
    forall i | 0 <= i < |r| ensures !IsLineBreakOrTab(r[i]) {
      assert r[i] == f[k + i];
    }
    if forall i :: 0 <= i < |description| ==> !IsLineBreakOrTab(description[i]) {
      assert f == description;
    }
  }

  // ---------------------------------------------------------------------
  // Thumbnail decision (getListingThumbnailInfo)
  // ---------------------------------------------------------------------

  const FallbackThumbnailUrl := "https://i.postimg.cc/Cx2W1zdM/SVG.jpg"

  datatype ThumbnailInfo = ThumbnailInfo(thumbUrl: string, name: string, world: string, cached: bool)

  function Fallback(name: string, world: string): ThumbnailInfo
  {
    ThumbnailInfo(FallbackThumbnailUrl, name, world, true)
  }

  /** How far getListingThumbnailInfo as written gets before the cache:
      it answers with the fallback, goes on to the portrait cache, or
      throws a TypeError by calling lodestoneClient.getCharacterId, which
      LodestoneClient does not define. */
  datatype Early = Answered(info: ThumbnailInfo) | ThrowsTypeError | ToCache(character: ListingCharacter)

  function AsWrittenEarly(lodestoneOn: bool, tomestoneOn: bool, listing: Option<PartyFinder.Listing>): Early
  {
    if !lodestoneOn then Answered(Fallback("", ""))
    else
      var ch := ParseListingCharacter(listing);
      if ch.name == "" || ch.world == "" then Answered(Fallback("", ""))
      else if tomestoneOn then ThrowsTypeError
      else ToCache(ch)
  }

  /** As written, every listing naming a character fails to get a
      thumbnail while both clients are enabled; the listing titled
      "c @ w" is one. */
  lemma AsWrittenThrowsForEveryNamedListing(listing: PartyFinder.Listing, c: string, w: string)
    requires Trimmed(c) && c != "" && '@' !in c
    requires Trimmed(w) && w != "" && '@' !in w
    requires listing.creator == BuildListingTitle(c, w)
    ensures AsWrittenEarly(true, true, Some(listing)) == ThrowsTypeError
    ensures AsWrittenEarly(true, false, Some(listing)).ToCache?
  {
    TitleRoundTrip(c, w, listing.world);
    if NormalizeWorld(listing.world) == "" {
      assert |Lower(NormalizeWorld(listing.world))| != |Lower(w)|;
    }
  }

  /** The Tomestone avatar for a character key: the profile of the id the
      backing store holds for it, when Tomestone is enabled. */
  function AvatarFor(tomestoneOn: bool, store: Option<Rows>, key: string,
                     profileFor: int -> Option<Tomestone.Payload>): string
  {
    if !tomestoneOn then ""
    else match StoreGetId(store, key)
      case None => ""
      case Some(id) => Tomestone.PreferredAvatar(profileFor(id))
  }

  /** getListingThumbnailInfo with the character id read from the store:
      fallback when the client is off or no character is named; then the
      Tomestone avatar; then the cached portrait; then a negative entry;
      and only then a background fetch, reported as not cached. */
  function ThumbnailStep(lodestoneOn: bool, tomestoneOn: bool, profileFor: int -> Option<Tomestone.Payload>,
                         listing: Option<PartyFinder.Listing>, st: Store, store: Option<Rows>,
                         d: Dispatch, now: int, ttlMs: int, maxSize: int): (Store, Dispatch, ThumbnailInfo)
  {
    if !lodestoneOn then (st, d, Fallback("", ""))
    else
      var ch := ParseListingCharacter(listing);
      if ch.name == "" || ch.world == "" then (st, d, Fallback("", ""))
      else
        var key := CacheKey(ch.name, ch.world);
        var avatar := AvatarFor(tomestoneOn, store, key, profileFor);
        if avatar != "" then (st, d, ThumbnailInfo(avatar, ch.name, ch.world, true))
        else
          var c := CachedStages(st, store, key, now, ttlMs, maxSize);
          if c.2 then (c.0, d, ThumbnailInfo(if c.1 != "" then c.1 else FallbackThumbnailUrl, ch.name, ch.world, true))
          else
            var n := NegativeStages(c.0, store, key, now, ttlMs, maxSize);
            if n.1 then (n.0, d, Fallback(ch.name, ch.world))
            else
              var q := QueueStep(n.0, store, d, Request(key, ch.name, ch.world, false), now, ttlMs, maxSize);
              (q.0, q.1, ThumbnailInfo(FallbackThumbnailUrl, ch.name, ch.world, false))
  }

  /** A thumbnail is reported not cached exactly when the client is on, a
      character is named, no Tomestone avatar exists, the cache holds no
      live entry of any kind for the key and the store has nothing; and
      then the fetch was claimed (cooldown check, in-flight claim, queue)
      and the fallback shown. */
  lemma ThumbnailUncachedIff(lodestoneOn: bool, tomestoneOn: bool, profileFor: int -> Option<Tomestone.Payload>,
                             listing: Option<PartyFinder.Listing>, st: Store, store: Option<Rows>,
                             d: Dispatch, now: int, ttlMs: int, maxSize: int)
    ensures var r := ThumbnailStep(lodestoneOn, tomestoneOn, profileFor, listing, st, store, d, now, ttlMs, maxSize);
            var ch := ParseListingCharacter(listing);
            var key := CacheKey(ch.name, ch.world);
            !r.2.cached <==>
              lodestoneOn && ch.name != "" && ch.world != "" && AvatarFor(tomestoneOn, store, key, profileFor) == ""
              && (key !in st.data || st.data[key].Expired(now)) && StoreGet(store, key, now).StoreMiss?
    ensures var r := ThumbnailStep(lodestoneOn, tomestoneOn, profileFor, listing, st, store, d, now, ttlMs, maxSize);
            var ch := ParseListingCharacter(listing);
            !r.2.cached ==>
              r.2 == ThumbnailInfo(FallbackThumbnailUrl, ch.name, ch.world, false)
              && r.1 == ClaimStep(d, Request(CacheKey(ch.name, ch.world), ch.name, ch.world, false), now).0
  {
    var ch := ParseListingCharacter(listing);
    var key := CacheKey(ch.name, ch.world);
    CacheAndStoreMiss(st, store, key, now, ttlMs, maxSize);
  }

  /** Both cache lookups miss exactly when the cache holds no live entry
      for the key and the store has nothing, and then the queue's own
      checks let the fetch through. */
  lemma CacheAndStoreMiss(st: Store, store: Option<Rows>, key: string, now: int, ttlMs: int, maxSize: int)
    ensures var c := CachedStages(st, store, key, now, ttlMs, maxSize);
            var n := NegativeStages(c.0, store, key, now, ttlMs, maxSize);
            (!c.2 && !n.1 <==> (key !in st.data || st.data[key].Expired(now)) && StoreGet(store, key, now).StoreMiss?)
            && (!c.2 && !n.1 ==> QueueStages(n.0, store, key, now, ttlMs, maxSize).1)
  {
    var c := CachedStages(st, store, key, now, ttlMs, maxSize);
    CachedPortraitFoundIff(st, store, key, now, ttlMs, maxSize);
    if !c.2 {
      var got := Lookup(st, key, now);
      if key in st.data && !st.data[key].Expired(now) {
        LookupNegative(st, key, now);
        assert c.0 == Backfilled(st, store, key, now, ttlMs, maxSize).0;
      } else {
        assert key !in got.0.data;
        if StoreGet(store, key, now).StoreMiss? {
          assert c.0 == got.0;
        }
      }
      NegativeCachedIff(c.0, store, key, now, ttlMs, maxSize);
      var n := NegativeStages(c.0, store, key, now, ttlMs, maxSize);
      if !n.1 {
        assert key !in c.0.data;
        QueueProceedsIff(n.0, store, key, now, ttlMs, maxSize);
      }
    }
  }

  /** A Tomestone avatar, when there is one, is the thumbnail, and nothing
      in the Lodestone client changes. */
  lemma ThumbnailPrefersAvatar(tomestoneOn: bool, profileFor: int -> Option<Tomestone.Payload>,
                               listing: Option<PartyFinder.Listing>, st: Store, store: Option<Rows>,
                               d: Dispatch, now: int, ttlMs: int, maxSize: int)
    requires var ch := ParseListingCharacter(listing);
             ch.name != "" && ch.world != "" && AvatarFor(tomestoneOn, store, CacheKey(ch.name, ch.world), profileFor) != ""
    ensures var r := ThumbnailStep(true, tomestoneOn, profileFor, listing, st, store, d, now, ttlMs, maxSize);
            var ch := ParseListingCharacter(listing);
            r == (st, d, ThumbnailInfo(AvatarFor(tomestoneOn, store, CacheKey(ch.name, ch.world), profileFor),
                                       ch.name, ch.world, true))
            && tomestoneOn && StoreGetId(store, CacheKey(ch.name, ch.world)).Some?
  {
  }

  /** getListingThumbnailInfo, reading the character id from the client's
      backing store. */
  method GetListingThumbnailInfo(client: LodestoneClient?, tomestoneOn: bool,
                                 profileFor: int -> Option<Tomestone.Payload>,
                                 listing: Option<PartyFinder.Listing>, now: int) returns (info: ThumbnailInfo)
    requires client != null ==> client.Valid()
    modifies if client != null then {client, client.cache} else {}
    ensures client != null ==> client.Valid() && client.store == old(client.store)
    ensures client == null ==> info == Fallback("", "")
    ensures client != null ==>
              (client.cache.State(), client.Dispatcher(), info) ==
              ThumbnailStep(client.enabled, tomestoneOn, profileFor, listing, old(client.cache.State()),
                            old(client.store), old(client.Dispatcher()), now, client.cache.ttlMs, client.cache.maxSize)
  {
    if client == null || !client.enabled {
      return Fallback("", "");
    }
    var ch := ParseListingCharacter(listing);
    if ch.name == "" || ch.world == "" {
      return Fallback("", "");
    }
    if tomestoneOn {
      var id := StoreGetId(client.store, CacheKey(ch.name, ch.world));
      if id.Some? {
        var avatar := Tomestone.PreferredAvatar(profileFor(id.value));
        if avatar != "" {
          return ThumbnailInfo(avatar, ch.name, ch.world, true);
        }
      }
    }
    var url, found := client.GetCharacterPortraitCached(ch.name, ch.world, now);
    if found {
      if url != "" {
        return ThumbnailInfo(url, ch.name, ch.world, true);
      }
      return Fallback(ch.name, ch.world);
    }
    var negative := client.IsNegativeCached(ch.name, ch.world, now);
    if negative {
      return Fallback(ch.name, ch.world);
    }
    client.QueueCharacterPortraitFetch(ch.name, ch.world, now);
    return ThumbnailInfo(FallbackThumbnailUrl, ch.name, ch.world, false);
  }

  // ---------------------------------------------------------------------
  // Messages waiting for a portrait (pendingPortraits)
  // ---------------------------------------------------------------------

  /** How long a posted listing waits for its portrait. */
  const PortraitWaitMs := 4 * 60 * 1000

  datatype PendingPortrait = PendingPortrait(channelId: string, messageId: string, name: string,
                                             world: string, expiresAt: int)

  /** The entries still waiting at `now`: those whose deadline has not
      passed. */
  function Unexpired(m: map<string, PendingPortrait>, now: int): map<string, PendingPortrait>
  {
    map id | id in m && now <= m[id].expiresAt :: m[id]
  }

  /** The entries of other channels. */
  function OutsideChannel(m: map<string, PendingPortrait>, channelId: string): map<string, PendingPortrait>
  {
    map id | id in m && m[id].channelId != channelId :: m[id]
  }

  /** The second loop of processPendingPortraits over the first n entries
      of `live`, in order: each looks its portrait up in the cache (which
      may change the cache), and its message id is done when a portrait URL
      was found and the message edit succeeded. */
  function ResolvedUpTo(st: Store, store: Option<Rows>, live: seq<PendingPortrait>, n: nat, now: int,
                        ttlMs: int, maxSize: int, edited: string -> bool): (Store, set<string>)
    requires n <= |live|
  {
    if n == 0 then (st, {})
    else
      var prev := ResolvedUpTo(st, store, live, n - 1, now, ttlMs, maxSize, edited);
      var p := live[n - 1];
      var c := CachedStages(prev.0, store, CacheKey(p.name, p.world), now, ttlMs, maxSize);
      (c.0, if c.2 && c.1 != "" && edited(p.messageId) then prev.1 + {p.messageId} else prev.1)
  }

  /** The whole second loop. */
  function Resolved(st: Store, store: Option<Rows>, live: seq<PendingPortrait>, now: int,
                    ttlMs: int, maxSize: int, edited: string -> bool): (Store, set<string>)
  {
    ResolvedUpTo(st, store, live, |live|, now, ttlMs, maxSize, edited)
  }

  /** A message stops waiting only when its edit succeeded, and only if it
      was among the first n looked at. */
  lemma {:induction false} ResolvedUpToOnlyEdited(st: Store, store: Option<Rows>, live: seq<PendingPortrait>, n: nat,
                                                  now: int, ttlMs: int, maxSize: int, edited: string -> bool)
    requires n <= |live|
    ensures forall id :: id in ResolvedUpTo(st, store, live, n, now, ttlMs, maxSize, edited).1 ==>
              edited(id) && exists i :: 0 <= i < n && live[i].messageId == id
  {
    if n > 0 {
      ResolvedUpToOnlyEdited(st, store, live, n - 1, now, ttlMs, maxSize, edited);
    }
  }

  /** A message stops waiting only when its edit succeeded, and only if it
      was among those looked at. */
  lemma ResolvedOnlyEdited(st: Store, store: Option<Rows>, live: seq<PendingPortrait>,
                           now: int, ttlMs: int, maxSize: int, edited: string -> bool)
    ensures forall id :: id in Resolved(st, store, live, now, ttlMs, maxSize, edited).1 ==>
              edited(id) && exists i :: 0 <= i < |live| && live[i].messageId == id
  {
    ResolvedUpToOnlyEdited(st, store, live, |live|, now, ttlMs, maxSize, edited);
  }

  lemma MinusStep(m: map<string, PendingPortrait>, removed: set<string>, id: string)
    ensures (m - removed) - {id} == m - (removed + {id})
  {
  }

  /** The sweep so far: the keys still to visit are kept, the visited ones
      only while unexpired. */
  ghost predicate DroppedSoFar(m0: map<string, PendingPortrait>, m: map<string, PendingPortrait>,
                               keys: set<string>, now: int)
  {
    keys <= m0.Keys && m == map id | id in m0 && (id in keys || now <= m0[id].expiresAt) :: m0[id]
  }

  /** The visited unexpired entries, each listed once. */
  ghost predicate LiveSoFar(m0: map<string, PendingPortrait>, keys: set<string>, live: seq<PendingPortrait>, now: int)
  {
    (forall id :: id in m0 && id !in keys && now <= m0[id].expiresAt ==> m0[id] in live)
    && (forall i :: 0 <= i < |live| ==>
          live[i].messageId in m0 && live[i].messageId !in keys
          && m0[live[i].messageId] == live[i] && now <= live[i].expiresAt)
    && (forall i, j :: 0 <= i < j < |live| ==> live[i].messageId != live[j].messageId)
  }

  lemma DropOne(m0: map<string, PendingPortrait>, m: map<string, PendingPortrait>,
                keys: set<string>, now: int, id: string)
    requires DroppedSoFar(m0, m, keys, now) && id in keys
    ensures id in m && m[id] == m0[id]
    ensures DroppedSoFar(m0, if now > m0[id].expiresAt then m - {id} else m, keys - {id}, now)
  {
  }

  lemma LiveOne(m0: map<string, PendingPortrait>, keys: set<string>, live: seq<PendingPortrait>, now: int, id: string)
    requires LiveSoFar(m0, keys, live, now) && id in keys && id in m0
    requires forall k :: k in m0 ==> m0[k].messageId == k
    ensures LiveSoFar(m0, keys - {id}, if now > m0[id].expiresAt then live else live + [m0[id]], now)
  {
    if now <= m0[id].expiresAt {
      var live' := live + [m0[id]];
      assert live'[|live|] == m0[id];
      assert forall i :: 0 <= i < |live| ==> live'[i] == live[i];
    }
  }

  /** An entry queued at `t` is still waiting at `now` exactly when `now`
      is at most four minutes after `t`; sweeping twice is sweeping at the
      later time. */
  lemma PendingLifetime(m: map<string, PendingPortrait>, p: PendingPortrait, t: int, now: int, later: int)
    requires p.expiresAt == t + PortraitWaitMs && now <= later
    ensures p.messageId in Unexpired(m[p.messageId := p], now) <==> now <= t + 240000
    ensures Unexpired(Unexpired(m, now), later) == Unexpired(m, later)
  {
  }

  /** Cleaning a channel leaves no entry of it and every other entry as it
      was. */
  lemma OutsideChannelSpec(m: map<string, PendingPortrait>, channelId: string)
    ensures forall id :: id in OutsideChannel(m, channelId) ==> OutsideChannel(m, channelId)[id].channelId != channelId
    ensures forall id :: id in m && m[id].channelId != channelId ==>
              id in OutsideChannel(m, channelId) && OutsideChannel(m, channelId)[id] == m[id]
  {
  }

  /** The Discord bot's map of messages waiting for a portrait, keyed by
      message id. */
  class Discord {
    var pendingPortraits: map<string, PendingPortrait>

    /** Every entry sits under its own message id and names a character. */
    ghost predicate Valid()
      reads this
    {
      forall id :: id in pendingPortraits ==>
        pendingPortraits[id].messageId == id && pendingPortraits[id].name != "" && pendingPortraits[id].world != ""
    }

    constructor()
      ensures Valid() && pendingPortraits == map[]
    {
      pendingPortraits := map[];
    }

    /** queuePortraitUpdate: remember a message for four minutes, unless
        the client is off or the character or embed is missing. */
    method QueuePortraitUpdate(lodestoneOn: bool, channelId: string, messageId: string, hasEmbed: bool,
                               name: string, world: string, now: int)
      requires Valid()
      modifies this
      ensures Valid()
      ensures pendingPortraits ==
                if lodestoneOn && name != "" && world != "" && hasEmbed
                then old(pendingPortraits)[messageId := PendingPortrait(channelId, messageId, name, world, now + PortraitWaitMs)]
                else old(pendingPortraits)
    {
      if !lodestoneOn {
        return;
      }
      if name == "" || world == "" || !hasEmbed {
        return;
      }
      pendingPortraits := pendingPortraits[messageId := PendingPortrait(channelId, messageId, name, world, now + PortraitWaitMs)];
    }

    /** The first loop of processPendingPortraits: delete every entry past
        its deadline and collect the others, each once. */
    method DropExpired(now: int) returns (live: seq<PendingPortrait>)
      requires Valid()
      modifies this
      ensures Valid()
      ensures pendingPortraits == Unexpired(old(pendingPortraits), now)
      ensures forall id :: id in pendingPortraits ==> pendingPortraits[id] in live
      ensures forall i :: 0 <= i < |live| ==>
                live[i].messageId in pendingPortraits && pendingPortraits[live[i].messageId] == live[i]
      ensures forall i, j :: 0 <= i < j < |live| ==> live[i].messageId != live[j].messageId
    {
      ghost var m0 := pendingPortraits;
      var keys := pendingPortraits.Keys;
      live := [];
      while keys != {}
        invariant DroppedSoFar(m0, pendingPortraits, keys, now)
        invariant LiveSoFar(m0, keys, live, now)
        decreases keys
      {
        var id :| id in keys;
        DropOne(m0, pendingPortraits, keys, now, id);
        LiveOne(m0, keys, live, now, id);
        var entry := pendingPortraits[id];
        if now > entry.expiresAt {
          pendingPortraits := pendingPortraits - {id};
        } else {
          live := live + [entry];
        }
        keys := keys - {id};
      }
    }

    /** processPendingPortraits: nothing while the client is off; else drop
        the expired entries and try each remaining one in the order
        returned, deleting those whose portrait was found and whose message
        edit succeeded. */
    method ProcessPendingPortraits(client: LodestoneClient?, now: int, edited: string -> bool)
      returns (order: seq<PendingPortrait>)
      requires Valid() && (client != null ==> client.Valid())
      modifies this, if client != null then {client.cache} else {}
      ensures Valid()
      ensures client != null ==> client.Valid()
      ensures client == null || !client.enabled ==> pendingPortraits == old(pendingPortraits) && order == []
      ensures client != null && client.enabled ==>
                (forall i :: 0 <= i < |order| ==>
                   order[i].messageId in old(pendingPortraits) && old(pendingPortraits)[order[i].messageId] == order[i])
                && (forall id :: id in Unexpired(old(pendingPortraits), now) ==> old(pendingPortraits)[id] in order)
                && var r := Resolved(old(client.cache.State()), client.store, order, now,
                                     client.cache.ttlMs, client.cache.maxSize, edited);
                   client.cache.State() == r.0 && pendingPortraits == Unexpired(old(pendingPortraits), now) - r.1
    {
      if client == null || !client.enabled {
        return [];
      }
      order := DropExpired(now);
      ResolvePending(client, order, now, edited);
    }

    /** The second loop of processPendingPortraits: each entry in turn looks
        its portrait up, and is deleted when a URL was found and the edit of
        its message succeeded. */
    method ResolvePending(client: LodestoneClient, order: seq<PendingPortrait>, now: int, edited: string -> bool)
      requires Valid() && client.Valid() && client.enabled
      modifies this, client.cache
      ensures Valid() && client.Valid()
      ensures var r := Resolved(old(client.cache.State()), client.store, order, now,
                                client.cache.ttlMs, client.cache.maxSize, edited);
              client.cache.State() == r.0 && pendingPortraits == old(pendingPortraits) - r.1
    {
      ghost var swept := pendingPortraits;
      ghost var st0 := client.cache.State();
      var i := 0;
      while i < |order|
        invariant 0 <= i <= |order|
        invariant client.Valid() && Valid()
        invariant client.cache.State() ==
                  ResolvedUpTo(st0, client.store, order, i, now, client.cache.ttlMs, client.cache.maxSize, edited).0
        invariant pendingPortraits ==
                  swept - ResolvedUpTo(st0, client.store, order, i, now, client.cache.ttlMs, client.cache.maxSize, edited).1
      {
        ghost var removed := ResolvedUpTo(st0, client.store, order, i, now, client.cache.ttlMs, client.cache.maxSize, edited).1;
        var done := ResolveOne(client, order[i], now, edited);
        if done {
          MinusStep(swept, removed, order[i].messageId);
        }
        i := i + 1;
      }
    }

    /** One entry of the second loop: look the portrait up and, when a URL
        was found and the message edit succeeded, stop waiting. */
    method ResolveOne(client: LodestoneClient, p: PendingPortrait, now: int, edited: string -> bool)
      returns (done: bool)
      requires Valid() && client.Valid() && client.enabled
      modifies this, client.cache
      ensures Valid() && client.Valid()
      ensures var c := CachedStages(old(client.cache.State()), client.store, CacheKey(p.name, p.world), now,
                                    client.cache.ttlMs, client.cache.maxSize);
              client.cache.State() == c.0 && done == (c.2 && c.1 != "" && edited(p.messageId))
      ensures pendingPortraits == if done then old(pendingPortraits) - {p.messageId} else old(pendingPortraits)
    {
      var url, found := client.GetCharacterPortraitCached(p.name, p.world, now);
      done := found && url != "" && edited(p.messageId);
      if done {
        pendingPortraits := pendingPortraits - {p.messageId};
      }
    }

    /** The part of cleanChannel that concerns portraits: forget every
        entry posted to the channel. */
    method CleanChannel(channelId: string)
      requires Valid()
      modifies this
      ensures Valid()
      ensures pendingPortraits == OutsideChannel(old(pendingPortraits), channelId)
    {
      ghost var m0 := pendingPortraits;
      var keys := pendingPortraits.Keys;
      while keys != {}
        invariant keys <= m0.Keys
        invariant pendingPortraits == map id | id in m0 && (id in keys || m0[id].channelId != channelId) :: m0[id]
        decreases keys
      {
        var id :| id in keys;
        if pendingPortraits[id].channelId == channelId {
          pendingPortraits := pendingPortraits - {id};
        }
        keys := keys - {id};
      }
    }
  }
}
