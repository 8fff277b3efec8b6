/** The bounded TTL/LRU cache of character lookups (src/lodestone/cache.js).
    JavaScript's insertion-ordered Map is modelled as a key sequence `order`
    (oldest first) beside a `data` map; deleting and re-inserting a key moves
    it to the most-recent end. Time is an explicit `now` in milliseconds. */
module LruCache {
  import opened Common

  /** How long a negative ("not found") entry lives: ten minutes. */
  const NEGATIVE_TTL_MS: int := 10 * 60 * 1000

  /** The Lodestone character record the cache holds. */
  datatype Character = Character(id: int, name: string, world: string,
                                 portrait: string, avatar: string, fetchedAt: int)

  /** A positive entry carries the character; a negative one records that
      the lookup found nothing (`character` null, `isNegative` true). */
  datatype Payload = Positive(character: Character) | Negative

  datatype Entry = Entry(payload: Payload, expiresAt: int, hits: nat, lastAccess: int)
  {
    predicate IsNegative() { payload.Negative? }
    /** `now > expiresAt`: an entry at exactly its deadline is still live. */
    predicate Expired(now: int) { now > expiresAt }
  }

  /** The cache contents: keys oldest-first and their entries. */
  datatype Store = Store(order: seq<string>, data: map<string, Entry>)

  predicate Distinct(s: seq<string>)
  {
    forall i, j :: 0 <= i < j < |s| ==> s[i] != s[j]
  }

  lemma DistinctTail(s: seq<string>)
    requires Distinct(s) && |s| > 0
    ensures Distinct(s[1..]) && s[0] !in s[1..]
  {
    assert forall i :: 0 <= i < |s| - 1 ==> s[1..][i] == s[i + 1];
  }

  lemma DistinctAppend(s: seq<string>, k: string)
    requires Distinct(s) && k !in s
    ensures Distinct(s + [k])
  {
    assert forall i :: 0 <= i < |s| ==> (s + [k])[i] == s[i];
  }

  /** `size >= maxSize` triggers an eviction before every insertion, so a
      cache with maxSize < 1 still holds one entry. */
  function Capacity(maxSize: int): nat
  {
    if maxSize < 1 then 1 else maxSize
  }

  ghost predicate ValidStore(st: Store, maxSize: int)
  {
    Distinct(st.order)
    && (forall k :: k in st.data <==> k in st.order)
    && |st.order| <= Capacity(maxSize)
  }

  // ---------------------------------------------------------------------
  // The Map operations
  // ---------------------------------------------------------------------

  /** s with every occurrence of k removed. */
  function Without(s: seq<string>, k: string): (r: seq<string>)
    ensures forall x :: x in r <==> x in s && x != k
    ensures |r| <= |s|
  {
    if s == [] then []
    else if s[0] == k then Without(s[1..], k)
    else [s[0]] + Without(s[1..], k)
  }

  lemma {:induction false} WithoutDistinct(s: seq<string>, k: string)
    requires Distinct(s)
    ensures Distinct(Without(s, k))
    ensures |Without(s, k)| == if k in s then |s| - 1 else |s|
  {
    if s != [] {
      DistinctTail(s);
      WithoutDistinct(s[1..], k);
      if s[0] == k {
        assert k !in s[1..];
      } else {
        assert s[0] !in s[1..];
        var r := [s[0]] + Without(s[1..], k);
        forall i, j | 0 <= i < j < |r| ensures r[i] != r[j] {
          if i == 0 { assert r[j] in Without(s[1..], k); }
          else { assert r[i] == Without(s[1..], k)[i - 1] && r[j] == Without(s[1..], k)[j - 1]; }
        }
      }
    }
  }

  lemma {:induction false} WithoutAbsent(s: seq<string>, k: string)
    requires k !in s
    ensures Without(s, k) == s
  {
    if s != [] {
      WithoutAbsent(s[1..], k);
    }
  }

  /** `data.delete(k)`. */
  function Removed(st: Store, k: string): Store
  {
    Store(Without(st.order, k), st.data - {k})
  }

  /** `data.set(k, e)` for a key that is not present: it goes to the end. */
  function Appended(st: Store, k: string, e: Entry): Store
  {
    Store(st.order + [k], st.data[k := e])
  }

  /** evictLRU: delete the first key in iteration order, if any. */
  function EvictedOldest(st: Store): Store
  {
    if |st.order| == 0 then st else Store(st.order[1..], st.data - {st.order[0]})
  }

  /** set / setNegative: delete the key, evict the oldest entry when the
      cache is at `maxSize`, then insert the key at the most-recent end. */
  function Inserted(st: Store, k: string, e: Entry, maxSize: int): Store
  {
    var a := if k in st.data then Removed(st, k) else st;
    var b := if |a.data| >= maxSize then EvictedOldest(a) else a;
    Appended(b, k, e)
  }

  /** The entry set stores for a character fetched at `now`. */
  function PositiveEntry(c: Character, now: int, ttlMs: int): Entry
  {
    Entry(Positive(c), now + ttlMs, 0, now)
  }

  /** The entry setNegative stores at `now`. */
  function NegativeEntry(now: int): Entry
  {
    Entry(Negative, now + NEGATIVE_TTL_MS, 0, now)
  }

  /** get: the new contents and the character found, if any. */
  function Lookup(st: Store, k: string, now: int): (Store, Option<Character>)
  {
    if k !in st.data then (st, None)
    else
      var e := st.data[k];
      if e.Expired(now) then (Removed(st, k), None)
      else if e.IsNegative() then (st, None)
      else (Appended(Removed(st, k), k, e.(hits := e.hits + 1, lastAccess := now)),
            Some(e.payload.character))
  }

  /** peek: the new contents and the entry found, if any. */
  function Peeked(st: Store, k: string, now: int): (Store, Option<Entry>)
  {
    if k !in st.data then (st, None)
    else if st.data[k].Expired(now) then (Removed(st, k), None)
    else (st, Some(st.data[k]))
  }

  /** The keys of ks whose entries are live at `now`, in their order. */
  function LiveKeys(ks: seq<string>, data: map<string, Entry>, now: int): (r: seq<string>)
    requires forall k :: k in ks ==> k in data
    ensures forall x :: x in r <==> x in ks && !data[x].Expired(now)
  {
    if ks == [] then []
    else
      var last := ks[|ks| - 1];
      LiveKeys(ks[..|ks| - 1], data, now) + (if data[last].Expired(now) then [] else [last])
  }

  /** cleanup: every expired entry removed. */
  function Swept(st: Store, now: int): Store
    requires forall k :: k in st.order ==> k in st.data
  {
    Store(LiveKeys(st.order, st.data, now),
          map k | k in st.data && !st.data[k].Expired(now) :: st.data[k])
  }

  // ---------------------------------------------------------------------
  // Properties of the operations
  // ---------------------------------------------------------------------

  lemma RemovedValid(st: Store, k: string, maxSize: int)
    requires ValidStore(st, maxSize)
    ensures ValidStore(Removed(st, k), maxSize)
    ensures |Removed(st, k).order| == if k in st.data then |st.order| - 1 else |st.order|
  {
    WithoutDistinct(st.order, k);
  }

  /** The number of keys and the number of entries agree. */
  lemma {:induction false} StoreSize(st: Store, maxSize: int)
    requires ValidStore(st, maxSize)
    ensures |st.data| == |st.order|
    decreases |st.order|
  {
    if st.order == [] {
      assert st.data == map[];
    } else {
      var k := st.order[0];
      var smaller := Store(st.order[1..], st.data - {k});
      DistinctTail(st.order);
      assert st.order == [k] + st.order[1..];
      StoreSize(smaller, maxSize);
    }
  }

  /** evictLRU removes exactly the oldest key and keeps the rest in order. */
  lemma EvictRemovesOldest(st: Store, maxSize: int)
    requires ValidStore(st, maxSize) && |st.order| > 0
    ensures ValidStore(EvictedOldest(st), maxSize)
    ensures st.order[0] !in EvictedOldest(st).data
    ensures forall j :: j in st.data && j != st.order[0] ==>
              j in EvictedOldest(st).data && EvictedOldest(st).data[j] == st.data[j]
    ensures EvictedOldest(st).order == st.order[1..]
  {
    DistinctTail(st.order);
    assert st.order == [st.order[0]] + st.order[1..];
  }

  lemma AppendedValid(b: Store, k: string, e: Entry, maxSize: int)
    requires ValidStore(b, maxSize) && k !in b.data && |b.order| < Capacity(maxSize)
    ensures ValidStore(Appended(b, k, e), maxSize)
  {
    DistinctAppend(b.order, k);
  }

  /** With any maxSize, inserting keeps the cache within its capacity (so
      at most maxSize entries once maxSize >= 1) and well formed. */
  lemma InsertedValid(st: Store, k: string, e: Entry, maxSize: int)
    requires ValidStore(st, maxSize)
    ensures ValidStore(Inserted(st, k, e, maxSize), maxSize)
    ensures maxSize >= 1 ==> |Inserted(st, k, e, maxSize).data| <= maxSize
  {
    var a := if k in st.data then Removed(st, k) else st;
    RemovedValid(st, k, maxSize);
    StoreSize(a, maxSize);
    var b := if |a.data| >= maxSize then EvictedOldest(a) else a;
    if |a.data| >= maxSize && |a.order| > 0 {
      EvictRemovesOldest(a, maxSize);
    }
    AppendedValid(b, k, e, maxSize);
    StoreSize(Appended(b, k, e), maxSize);
  }

  /** After set/setNegative the key is the most recent one and holds the new
      entry; every other key keeps its entry unless it was the single oldest
      key evicted because the cache was full. */
  lemma InsertedKeyIsNewest(st: Store, k: string, e: Entry, maxSize: int)
    requires ValidStore(st, maxSize)
    ensures var r := Inserted(st, k, e, maxSize);
            |r.order| > 0 && r.order[|r.order| - 1] == k && k in r.data && r.data[k] == e
    ensures var r := Inserted(st, k, e, maxSize);
            forall j :: j in st.data && j != k ==>
              if j in r.data then r.data[j] == st.data[j]
              else |Without(st.order, k)| >= maxSize && Without(st.order, k)[0] == j
  {
    var a := if k in st.data then Removed(st, k) else st;
    if k !in st.data { WithoutAbsent(st.order, k); }
    assert a.order == Without(st.order, k);
    RemovedValid(st, k, maxSize);
    StoreSize(a, maxSize);
    if |a.data| >= maxSize && |a.order| > 0 {
      EvictRemovesOldest(a, maxSize);
    }
  }

  /** A live positive hit is returned, its hit count goes up by one, and it
      moves to the most-recent end; the other keys keep their order. */
  lemma LookupHit(st: Store, k: string, now: int)
    requires k in st.data && !st.data[k].Expired(now) && !st.data[k].IsNegative()
    ensures Lookup(st, k, now).1 == Some(st.data[k].payload.character)
    ensures var r := Lookup(st, k, now).0;
            r.order == Without(st.order, k) + [k]
            && r.data[k].hits == st.data[k].hits + 1 && r.data[k].payload == st.data[k].payload
            && forall j :: j in st.data && j != k ==> j in r.data && r.data[j] == st.data[j]
  {
  }

  /** An entry is still served at exactly its deadline. */
  lemma LookupAtDeadline(st: Store, k: string)
    requires k in st.data && !st.data[k].IsNegative()
    ensures Lookup(st, k, st.data[k].expiresAt).1.Some?
    ensures Peeked(st, k, st.data[k].expiresAt) == (st, Some(st.data[k]))
  {
  }

  /** Past its deadline an entry is reported missing by get and peek, and
      both delete it. */
  lemma LookupExpired(st: Store, k: string, now: int)
    requires k in st.data && st.data[k].Expired(now)
    ensures Lookup(st, k, now) == (Removed(st, k), None)
    ensures Peeked(st, k, now) == (Removed(st, k), None)
    ensures k !in Lookup(st, k, now).0.data
  {
  }

  /** get on a live negative entry reports not-found and changes nothing;
      peek returns that entry, marked negative. */
  lemma LookupNegative(st: Store, k: string, now: int)
    requires k in st.data && !st.data[k].Expired(now) && st.data[k].IsNegative()
    ensures Lookup(st, k, now) == (st, None)
    ensures Peeked(st, k, now).1.Some? && Peeked(st, k, now).1.value.IsNegative()
  {
  }

  /** get finds something exactly when the key holds a live positive entry. */
  lemma LookupFoundIff(st: Store, k: string, now: int)
    ensures Lookup(st, k, now).1.Some? <==>
            k in st.data && !st.data[k].Expired(now) && !st.data[k].IsNegative()
  {
  }

  /** peek never reorders keys or changes any entry: at most it deletes the
      expired key it was asked about. */
  lemma PeekChangesNoEntry(st: Store, k: string, now: int)
    ensures var r := Peeked(st, k, now).0;
            (r == st || r == Removed(st, k))
            && forall j :: j in r.data ==> j in st.data && r.data[j] == st.data[j]
  {
  }

  /** A key just read is not the one the next eviction removes, unless it is
      the only key. */
  lemma ReadKeySurvivesEviction(st: Store, k: string, now: int, maxSize: int)
    requires ValidStore(st, maxSize)
    requires k in st.data && !st.data[k].Expired(now) && !st.data[k].IsNegative()
    requires |st.order| >= 2
    ensures k in EvictedOldest(Lookup(st, k, now).0).data
  {
    var w := Without(st.order, k);
    WithoutDistinct(st.order, k);
    var r := Lookup(st, k, now).0;
    assert r.order == w + [k];
    assert |w| >= 1;
    assert r.order[0] == w[0] && w[0] != k;
  }

  lemma {:induction false} LiveKeysSubsequence(ks: seq<string>, data: map<string, Entry>, now: int)
    requires forall k :: k in ks ==> k in data
    ensures Subsequence(LiveKeys(ks, data, now), ks)
  {
    if ks != [] {
      var init := ks[..|ks| - 1];
      var last := ks[|ks| - 1];
      assert ks == init + [last];
      LiveKeysSubsequence(init, data, now);
      var r0 := LiveKeys(init, data, now);
      if !data[last].Expired(now) {
        assert LiveKeys(ks, data, now) == r0 + [last];
        SubsequenceSnoc(r0, init, last);
      } else {
        assert LiveKeys(ks, data, now) == r0;
        SubsequenceExtend(r0, init, last);
      }
    }
  }

  /** cleanup removes exactly the expired entries, keeps every live entry
      unchanged and keeps the surviving keys in their original order. */
  lemma SweptKeepsLive(st: Store, now: int, maxSize: int)
    requires ValidStore(st, maxSize)
    ensures var r := Swept(st, now);
            ValidStore(r, maxSize)
            && (forall k :: k in r.data <==> k in st.data && !st.data[k].Expired(now))
            && (forall k :: k in r.data ==> r.data[k] == st.data[k])
            && Subsequence(r.order, st.order)
  {
    LiveKeysSubsequence(st.order, st.data, now);
    SubsequenceDistinct(LiveKeys(st.order, st.data, now), st.order);
  }

  lemma {:induction false} SubsequenceDistinct(a: seq<string>, b: seq<string>)
    requires Subsequence(a, b) && Distinct(b)
    ensures Distinct(a) && |a| <= |b|
    decreases |b|
  {
    if a != [] && b != [] {
      var b' := b[..|b| - 1];
      assert Distinct(b') by {
        forall i, j | 0 <= i < j < |b'| ensures b'[i] != b'[j] {
          assert b'[i] == b[i] && b'[j] == b[j];
        }
      }
      if a[|a| - 1] == b[|b| - 1] {
        var a' := a[..|a| - 1];
        SubsequenceDistinct(a', b');
        SubsequenceMembers(a', b');
        assert b[|b| - 1] !in b';
        forall i, j | 0 <= i < j < |a| ensures a[i] != a[j] {
          if j == |a| - 1 { assert a[i] == a'[i]; assert a[i] in b'; }
          else { assert a[i] == a'[i] && a[j] == a'[j]; }
        }
      } else {
        SubsequenceDistinct(a, b');
      }
    }
  }

  /** The entries cleanup has not yet deleted: the live ones and those whose
      keys it has yet to visit. */
  function Pending(d: map<string, Entry>, rest: seq<string>, now: int): map<string, Entry>
  {
    map k | k in d && (k in rest || !d[k].Expired(now)) :: d[k]
  }

  /** The cache after cleanup has visited the first i keys of st.order,
      deleting each expired one. */
  function Sweeping(st: Store, i: nat, now: int): Store
    requires i <= |st.order| && forall k :: k in st.order ==> k in st.data
  {
    if i == 0 then st
    else
      var key := st.order[i - 1];
      var prev := Sweeping(st, i - 1, now);
      if st.data[key].Expired(now) then Removed(prev, key) else prev
  }

  /** The same state in closed form: the live keys among the visited ones,
      then the keys still to visit. */
  function SweptPrefix(st: Store, i: nat, now: int): Store
    requires i <= |st.order| && forall k :: k in st.order ==> k in st.data
  {
    Store(LiveKeys(st.order[..i], st.data, now) + st.order[i..], Pending(st.data, st.order[i..], now))
  }

  lemma {:induction false} WithoutConcat(a: seq<string>, b: seq<string>, k: string)
    ensures Without(a + b, k) == Without(a, k) + Without(b, k)
  {
    if a == [] {
      assert a + b == b;
    } else {
      assert (a + b)[0] == a[0];
      assert (a + b)[1..] == a[1..] + b;
      WithoutConcat(a[1..], b, k);
    }
  }

  lemma PendingStep(d: map<string, Entry>, keys: seq<string>, i: nat, now: int)
    requires i < |keys| && keys[i] in d && keys[i] !in keys[i + 1..]
    ensures Pending(d, keys[i + 1..], now) ==
            if d[keys[i]].Expired(now) then Pending(d, keys[i..], now) - {keys[i]}
            else Pending(d, keys[i..], now)
  {
    assert forall k :: k in keys[i..] <==> k == keys[i] || k in keys[i + 1..] by {
      assert keys[i..] == [keys[i]] + keys[i + 1..];
    }
  }

  /** One step of cleanup: visiting key i deletes it exactly when it has
      expired, and leaves the cache as it is otherwise. */
  lemma SweptPrefixStep(st: Store, i: nat, now: int)
    requires i < |st.order| && forall k :: k in st.order ==> k in st.data
    requires st.order[i] !in st.order[..i] && st.order[i] !in st.order[i + 1..]
    ensures var key := st.order[i];
            key in SweptPrefix(st, i, now).data && SweptPrefix(st, i, now).data[key] == st.data[key]
    ensures SweptPrefix(st, i + 1, now) ==
            if st.data[st.order[i]].Expired(now) then Removed(SweptPrefix(st, i, now), st.order[i])
            else SweptPrefix(st, i, now)
  {
    var keys := st.order;
    var key := keys[i];
    var live := LiveKeys(keys[..i], st.data, now);
    assert keys[..i + 1][..i] == keys[..i];
    assert keys[..i + 1] == keys[..i] + [key];
    assert keys[i..] == [key] + keys[i + 1..];
    PendingStep(st.data, keys, i, now);
    var prev := SweptPrefix(st, i, now);
    var next := SweptPrefix(st, i + 1, now);
    assert prev.order == live + ([key] + keys[i + 1..]);
    if st.data[key].Expired(now) {
      assert LiveKeys(keys[..i + 1], st.data, now) == live;
      WithoutConcat(live, [key] + keys[i + 1..], key);
      WithoutConcat([key], keys[i + 1..], key);
      WithoutAbsent(live, key);
      WithoutAbsent(keys[i + 1..], key);
      assert Without([key], key) == [];
      assert next.order == Removed(prev, key).order;
      assert next.data == Removed(prev, key).data;
    } else {
      assert LiveKeys(keys[..i + 1], st.data, now) == live + [key];
      assert next.order == prev.order;
      assert next.data == prev.data;
    }
  }

  /** In a list without repetitions an element occurs neither before nor
      after its own position. */
  lemma DistinctAt(s: seq<string>, i: nat)
    requires Distinct(s) && i < |s|
    ensures s[i] !in s[..i] && s[i] !in s[i + 1..]
  {
    assert forall j :: 0 <= j < i ==> s[j] != s[i];
    assert forall j :: i + 1 <= j < |s| ==> s[j] != s[i];
  }

  lemma SweepKeys(st: Store, maxSize: int)
    requires ValidStore(st, maxSize)
    ensures Distinct(st.order) && forall k :: k in st.order ==> k in st.data
  {
  }

  lemma {:induction false} SweepingClosed(st: Store, i: nat, now: int, maxSize: int)
    requires ValidStore(st, maxSize) && i <= |st.order|
    ensures Sweeping(st, i, now) == SweptPrefix(st, i, now)
  {
    if i == 0 {
      SweepKeys(st, maxSize);
      SweptPrefixStart(st, now);
    } else {
      SweepingClosed(st, i - 1, now, maxSize);
      DistinctAt(st.order, i - 1);
      SweptPrefixStep(st, i - 1, now);
    }
  }

  /** cleanup visits each key before deleting anything at or after it. */
  lemma SweepingVisits(st: Store, i: nat, now: int, maxSize: int)
    requires ValidStore(st, maxSize) && i < |st.order|
    ensures st.order[i] in Sweeping(st, i, now).data
    ensures Sweeping(st, i, now).data[st.order[i]] == st.data[st.order[i]]
  {
    SweepingClosed(st, i, now, maxSize);
    DistinctAt(st.order, i);
    SweptPrefixStep(st, i, now);
  }

  /** Having visited every key, cleanup has swept the cache. */
  lemma SweepingDone(st: Store, now: int, maxSize: int)
    requires ValidStore(st, maxSize)
    ensures Sweeping(st, |st.order|, now) == Swept(st, now)
  {
    SweepingClosed(st, |st.order|, now, maxSize);
    SweptPrefixFinish(st, now);
  }

  lemma SweptPrefixStart(st: Store, now: int)
    requires forall k :: k in st.data <==> k in st.order
    ensures SweptPrefix(st, 0, now) == st
  {
    assert st.order[..0] == [] && st.order[0..] == st.order;
    assert LiveKeys([], st.data, now) == [];
    assert Pending(st.data, st.order, now) == st.data;
  }

  lemma SweptPrefixFinish(st: Store, now: int)
    requires forall k :: k in st.order ==> k in st.data
    ensures SweptPrefix(st, |st.order|, now) == Swept(st, now)
  {
    var n := |st.order|;
    assert st.order[..n] == st.order && st.order[n..] == [];
    assert Pending(st.data, [], now) == Swept(st, now).data;
  }

  /** Re-inserting a present key keeps the store well formed. */
  lemma TouchedValid(st: Store, k: string, e: Entry, maxSize: int)
    requires ValidStore(st, maxSize) && k in st.data
    ensures ValidStore(Appended(Removed(st, k), k, e), maxSize)
  {
    RemovedValid(st, k, maxSize);
    AppendedValid(Removed(st, k), k, e, maxSize);
  }

  // ---------------------------------------------------------------------
  // The Cache class
  // ---------------------------------------------------------------------

  class Cache {
    const ttlMs: int
    const maxSize: int
    var order: seq<string>
    var data: map<string, Entry>

    function State(): Store
      reads this
    {
      Store(order, data)
    }

    ghost predicate Valid()
      reads this
    {
      ValidStore(State(), maxSize)
    }

    constructor(ttlMs: int, maxSize: int)
      ensures Valid() && this.ttlMs == ttlMs && this.maxSize == maxSize
      ensures State() == Store([], map[])
    {
      this.ttlMs := ttlMs;
      this.maxSize := maxSize;
      order := [];
      data := map[];
    }

    method Delete(key: string)
      requires Valid()
      modifies this
      ensures Valid() && State() == Removed(old(State()), key)
    {
      RemovedValid(State(), key, maxSize);
      data := data - {key};
      order := Without(order, key);
    }

    /** `data.set(key, entry)` for a key not yet present. */
    method Append(key: string, entry: Entry)
      requires Valid() && key !in data && |order| < Capacity(maxSize)
      modifies this
      ensures Valid() && State() == Appended(old(State()), key, entry)
    {
      AppendedValid(State(), key, entry, maxSize);
      order := order + [key];
      data := data[key := entry];
    }

    method Get(key: string, now: int) returns (found: Option<Character>)
      requires Valid()
      modifies this
      ensures Valid()
      ensures (State(), found) == Lookup(old(State()), key, now)
    {
      if key !in data {
        return None;
      }
      var entry := data[key];
      if entry.Expired(now) {
        Delete(key);
        return None;
      }
      if entry.IsNegative() {
        return None;
      }
      entry := entry.(lastAccess := now, hits := entry.hits + 1);
      RemovedValid(State(), key, maxSize);
      Delete(key);
      Append(key, entry);
      found := Some(entry.payload.character);
    }

    method Peek(key: string, now: int) returns (found: Option<Entry>)
      requires Valid()
      modifies this
      ensures Valid()
      ensures (State(), found) == Peeked(old(State()), key, now)
    {
      if key !in data {
        return None;
      }
      var entry := data[key];
      if entry.Expired(now) {
        Delete(key);
        return None;
      }
      return Some(entry);
    }

    method EvictLRU()
      requires Valid()
      modifies this
      ensures Valid() && State() == EvictedOldest(old(State()))
    {
      if |order| > 0 {
        EvictRemovesOldest(State(), maxSize);
        var oldest := order[0];
        data := data - {oldest};
        order := order[1..];
      }
    }

    method Insert(key: string, entry: Entry)
      requires Valid()
      modifies this
      ensures Valid() && State() == Inserted(old(State()), key, entry, maxSize)
    {
      ghost var st0 := State();
      if key in data {
        Delete(key);
      }
      StoreSize(State(), maxSize);
      if |data| >= maxSize {
        EvictLRU();
      }
      InsertedValid(st0, key, entry, maxSize);
      Append(key, entry);
    }

    method Set(key: string, character: Character, now: int)
      requires Valid()
      modifies this
      ensures Valid() && State() == Inserted(old(State()), key, PositiveEntry(character, now, ttlMs), maxSize)
      ensures data[key].expiresAt == now + ttlMs
    {
      Insert(key, PositiveEntry(character, now, ttlMs));
      InsertedKeyIsNewest(old(State()), key, PositiveEntry(character, now, ttlMs), maxSize);
    }

    method SetNegative(key: string, now: int)
      requires Valid()
      modifies this
      ensures Valid() && State() == Inserted(old(State()), key, NegativeEntry(now), maxSize)
      ensures data[key].expiresAt == now + NEGATIVE_TTL_MS && data[key].IsNegative()
    {
      Insert(key, NegativeEntry(now));
      InsertedKeyIsNewest(old(State()), key, NegativeEntry(now), maxSize);
    }

    /** Deletes, while iterating in key order, every entry past its deadline. */
    method Cleanup(now: int)
      requires Valid()
      modifies this
      ensures Valid() && State() == Swept(old(State()), now)
    {
      ghost var st0 := State();
      SweepKeys(st0, maxSize);
      var keys := order;
      var i := 0;
      while i < |keys|
        invariant 0 <= i <= |keys| && keys == st0.order
        invariant State() == Sweeping(st0, i, now)
      {
        SweepingVisits(st0, i, now, maxSize);
        var key := keys[i];
        if now > data[key].expiresAt {
          data := data - {key};
          order := Without(order, key);
        }
        i := i + 1;
      }
      SweepingDone(st0, now, maxSize);
      SweptKeepsLive(st0, now, maxSize);
    }

    method Size() returns (n: nat)
      requires Valid()
      ensures n == |State().data| && n == |State().order|
      ensures maxSize >= 1 ==> n <= maxSize
    {
      StoreSize(State(), maxSize);
      n := |data|;
    }

    method Clear()
      modifies this
      ensures Valid() && State() == Store([], map[])
    {
      order := [];
      data := map[];
    }
  }
}
