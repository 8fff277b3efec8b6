/** The marketboard summary (src/marketboard/marketboard.js): Universalis
    listings of a few tracked items, filtered to high quality, merged across
    the North American data centres, sorted by price and cut to ten; the
    item icon's URL; and the per-listing strings of the summary. Replies of
    Universalis and Garland Tools are inputs. */
module Marketboard {
  import opened Common

  const NaDataCenters: seq<string> := ["Aether", "Primal", "Crystal", "Dynamis"]

  datatype TrackedItem = TrackedItem(id: int, name: string)

  const TrackedItems: seq<TrackedItem> := [
    TrackedItem(49234, "Grade 4 Gemdraught of Strength"),
    TrackedItem(49235, "Grade 4 Gemdraught of Dexterity"),
    TrackedItem(49238, "Grade 4 Gemdraught of Mind"),
    TrackedItem(49237, "Grade 4 Gemdraught of Intelligence"),
    TrackedItem(49240, "Caramel Popcorn")
  ]

  /** One listing of the summary; prices are whole gil. */
  datatype Listing = Listing(
    itemId: int, worldName: string, dataCenter: string, quantity: int, price: int,
    isHq: bool, listingId: string, sellerName: string, updateTime: int)

  // ---------------------------------------------------------------------
  // Listing strings
  // ---------------------------------------------------------------------

  function QualityString(l: Listing): (r: string)
    ensures r == "HQ" <==> l.isHq
    ensures r == "NQ" <==> !l.isHq
  {
    if l.isHq then "HQ" else "NQ"
  }

  /** getStackInfo: "1 item" or "N items". */
  function StackInfo(l: Listing): string
  {
    if l.quantity == 1 then "1 item" else IntToString(l.quantity) + " items"
  }

  /** The singular form is used for exactly one item, and the count reads
      back from the front of the text. */
  lemma StackInfoSpec(l: Listing)
    ensures StackInfo(l) == "1 item" <==> l.quantity == 1
    ensures l.quantity >= 0 ==> ParseInt(StackInfo(l)).Some? && ParseInt(StackInfo(l)).value == l.quantity
  {
    if l.quantity >= 0 {
      var d := NatToString(l.quantity);
      DigitsValueOfNatToString(l.quantity);
      if l.quantity == 1 {
        assert StackInfo(l) == ['1'] + " item";
        ParseIntLeading(['1'], " item");
      } else {
        assert StackInfo(l) == d + " items";
        ParseIntLeading(d, " items");
      }
    }
    if l.quantity != 1 {
      var r := StackInfo(l);
      assert r[|r| - 1] == 's';
    }
  }

  function LocationString(l: Listing): string
  {
    l.worldName + " (" + l.dataCenter + " DC)"
  }

  /** getUpdateTime: a Discord relative-time stamp. */
  function UpdateTime(l: Listing): string
  {
    "<t:" + IntToString(l.updateTime) + ":R>"
  }

  lemma NoColonInInt(i: int)
    ensures !Contains(IntToString(i), ":")
  {
    var s := IntToString(i);
    if i < 0 {
      assert s == "-" + NatToString(-i);
    }
    NotContainsChar(s, ':');
  }

  /** The stamp's fields, split on ':', are the tag, the time and the
      style, and the time reads back. */
  lemma UpdateTimeFields(l: Listing)
    ensures Split(UpdateTime(l), ":") == ["<t", IntToString(l.updateTime), "R>"]
    ensures ParseInt(Split(UpdateTime(l), ":")[1]) == Some(l.updateTime)
  {
    var t := IntToString(l.updateTime);
    NoColonInInt(l.updateTime);
    NotContainsChar("<t", ':');
    NotContainsChar("R>", ':');
    JoinThree("<t", t, "R>", ":");
    assert UpdateTime(l) == "<t" + ":" + t + ":" + "R>";
    SplitJoin(["<t", t, "R>"], ":");
    ParseIntOfIntToString(l.updateTime);
  }

  // ---------------------------------------------------------------------
  // fetchListingsForDC: the high-quality filter
  // ---------------------------------------------------------------------

  /** A listing of the Universalis reply. */
  datatype ApiListing = ApiListing(
    worldName: string, quantity: int, pricePerUnit: int, hq: bool,
    listingId: string, retainerName: string, lastReviewTime: int)

  /** A listing built from a reply entry. Its item id is the one the reply
      itself carries (apiResponse.itemID), not the id that was requested. */
  function Converted(replyItemId: int, a: ApiListing): Listing
  {
    Listing(replyItemId, a.worldName, "", a.quantity, a.pricePerUnit, a.hq, a.listingId, a.retainerName, a.lastReviewTime)
  }

  /** The listings kept from a reply: the high-quality ones, converted, in
      reply order. */
  function HqListings(replyItemId: int, api: seq<ApiListing>): seq<Listing>
  {
    if api == [] then []
    else
      var last := api[|api| - 1];
      HqListings(replyItemId, api[..|api| - 1]) + (if last.hq then [Converted(replyItemId, last)] else [])
  }

  /** Exactly the high-quality entries of the reply are kept, each once. */
  lemma {:induction false} HqListingsSpec(replyItemId: int, api: seq<ApiListing>)
    ensures forall l :: l in HqListings(replyItemId, api) ==> l.isHq && l.itemId == replyItemId
    ensures forall l :: l in HqListings(replyItemId, api) <==> exists a :: a in api && a.hq && l == Converted(replyItemId, a)
    ensures |HqListings(replyItemId, api)| == |Filter(api, (a: ApiListing) => a.hq)|
  {
    if api != [] {
      var init := api[..|api| - 1];
      HqListingsSpec(replyItemId, init);
      assert api == init + [api[|api| - 1]];
      forall l | l in HqListings(replyItemId, api)
        ensures exists a :: a in api && a.hq && l == Converted(replyItemId, a)
      {
        if l in HqListings(replyItemId, init) {
          var a :| a in init && a.hq && l == Converted(replyItemId, a);
          assert a in api;
        } else {
          assert api[|api| - 1].hq && l == Converted(replyItemId, api[|api| - 1]);
        }
      }
    }
  }

  /** fetchListingsForDC after a successful reply: the loop pushing each
      high-quality entry. */
  method FetchListingsForDc(replyItemId: int, api: seq<ApiListing>) returns (listings: seq<Listing>, hqCount: nat)
    ensures listings == HqListings(replyItemId, api)
    ensures hqCount == |listings|
  {
    listings := [];
    hqCount := 0;
    var i := 0;
    while i < |api|
      invariant 0 <= i <= |api|
      invariant listings == HqListings(replyItemId, api[..i]) && hqCount == |listings|
    {
      assert api[..i + 1][..i] == api[..i];
      var l := api[i];
      if l.hq {
        hqCount := hqCount + 1;
        listings := listings + [Converted(replyItemId, l)];
      }
      i := i + 1;
    }
    assert api[..i] == api;
  }

  // ---------------------------------------------------------------------
  // getItemData: merge, sort by price, keep ten
  // ---------------------------------------------------------------------

  /** A data centre's reply: its listings, or None when the fetch failed
      (the error is logged and the data centre skipped). */
  datatype DcReply = DcReply(dataCenter: string, listings: Option<seq<Listing>>)

  function Tagged(dc: string, ls: seq<Listing>): (r: seq<Listing>)
    ensures |r| == |ls|
    ensures forall i :: 0 <= i < |ls| ==> r[i] == ls[i].(dataCenter := dc)
  {
    seq(|ls|, i requires 0 <= i < |ls| => ls[i].(dataCenter := dc))
  }

  /** Every data centre's listings, tagged with it, in data-centre order. */
  function Gathered(replies: seq<DcReply>): seq<Listing>
  {
    if replies == [] then []
    else
      var last := replies[|replies| - 1];
      Gathered(replies[..|replies| - 1]) + (if last.listings.Some? then Tagged(last.dataCenter, last.listings.value) else [])
  }

  predicate SortedByPrice(s: seq<Listing>)
  {
    forall i, j :: 0 <= i < j < |s| ==> s[i].price <= s[j].price
  }

  /** Places x behind every listing not dearer than it. */
  function InsertByPrice(s: seq<Listing>, x: Listing): seq<Listing>
  {
    if s == [] || s[|s| - 1].price <= x.price then s + [x]
    else InsertByPrice(s[..|s| - 1], x) + [s[|s| - 1]]
  }

  /** `allListings.sort((a, b) => a.price - b.price)`. */
  function SortByPrice(s: seq<Listing>): seq<Listing>
  {
    if s == [] then [] else InsertByPrice(SortByPrice(s[..|s| - 1]), s[|s| - 1])
  }

  lemma {:induction false} InsertByPricePerm(s: seq<Listing>, x: Listing)
    ensures multiset(InsertByPrice(s, x)) == multiset(s) + multiset{x}
  {
    if s != [] && s[|s| - 1].price > x.price {
      InsertByPricePerm(s[..|s| - 1], x);
      assert s == s[..|s| - 1] + [s[|s| - 1]];
    }
  }

  /** Inserting keeps every price under a common bound. */
  lemma {:induction false} InsertByPriceBound(s: seq<Listing>, x: Listing, b: int)
    requires forall i :: 0 <= i < |s| ==> s[i].price <= b
    requires x.price <= b
    ensures forall i :: 0 <= i < |InsertByPrice(s, x)| ==> InsertByPrice(s, x)[i].price <= b
  {
    if s != [] && s[|s| - 1].price > x.price {
      InsertByPriceBound(s[..|s| - 1], x, b);
    }
  }

  lemma {:induction false} InsertByPriceSorted(s: seq<Listing>, x: Listing)
    requires SortedByPrice(s)
    ensures SortedByPrice(InsertByPrice(s, x))
  {
    if s != [] && s[|s| - 1].price > x.price {
      var init := s[..|s| - 1];
      var last := s[|s| - 1];
      InsertByPriceSorted(init, x);
      InsertByPriceBound(init, x, last.price);
      var r := InsertByPrice(init, x);
      var t := r + [last];
      forall i, j | 0 <= i < j < |t| ensures t[i].price <= t[j].price {
        if j < |r| {
          assert t[i] == r[i] && t[j] == r[j];
        }
      }
    }
  }

  lemma InsertByPriceSpec(s: seq<Listing>, x: Listing)
    requires SortedByPrice(s)
    ensures SortedByPrice(InsertByPrice(s, x))
    ensures multiset(InsertByPrice(s, x)) == multiset(s) + multiset{x}
  {
    InsertByPriceSorted(s, x);
    InsertByPricePerm(s, x);
  }

  lemma {:induction false} SortByPriceSorted(s: seq<Listing>)
    ensures SortedByPrice(SortByPrice(s))
  {
    if s != [] {
      SortByPriceSorted(s[..|s| - 1]);
      InsertByPriceSorted(SortByPrice(s[..|s| - 1]), s[|s| - 1]);
    }
  }

  lemma {:induction false} SortByPricePerm(s: seq<Listing>)
    ensures multiset(SortByPrice(s)) == multiset(s)
  {
    if s != [] {
      var init, last := s[..|s| - 1], s[|s| - 1];
      SortByPricePerm(init);
      InsertByPricePerm(SortByPrice(init), last);
      assert s == init + [last];
    }
  }

  /** Sorting gives a price-ordered permutation. */
  lemma SortByPriceSpec(s: seq<Listing>)
    ensures SortedByPrice(SortByPrice(s))
    ensures multiset(SortByPrice(s)) == multiset(s)
    ensures |SortByPrice(s)| == |s|
  {
    SortByPriceSorted(s);
    SortByPricePerm(s);
    assert |multiset(SortByPrice(s))| == |multiset(s)|;
  }

  /** The listings of price q, in their order. */
  function AtPrice(s: seq<Listing>, q: int): (r: seq<Listing>)
    ensures forall i :: 0 <= i < |r| ==> r[i].price == q
  {
    if s == [] then []
    else AtPrice(s[..|s| - 1], q) + (if s[|s| - 1].price == q then [s[|s| - 1]] else [])
  }

  /** Inserting places x behind every listing of its own price. */
  lemma {:induction false} InsertByPriceStable(s: seq<Listing>, x: Listing, q: int)
    ensures AtPrice(InsertByPrice(s, x), q) == AtPrice(s, q) + (if x.price == q then [x] else [])
  {
    if s == [] || s[|s| - 1].price <= x.price {
      assert (s + [x])[..|s|] == s;
    } else {
      var init, last := s[..|s| - 1], s[|s| - 1];
      InsertByPriceStable(init, x, q);
      var r := InsertByPrice(init, x);
      assert (r + [last])[..|r|] == r;
    }
  }

  /** The sort is stable: listings of equal price keep their order, as
      Array.prototype.sort guarantees. */
  lemma {:induction false} SortByPriceStable(s: seq<Listing>, q: int)
    ensures AtPrice(SortByPrice(s), q) == AtPrice(s, q)
  {
    if s != [] {
      SortByPriceStable(s[..|s| - 1], q);
      InsertByPriceStable(SortByPrice(s[..|s| - 1]), s[|s| - 1], q);
    }
  }

  /** The listings of one price in a prefix are a prefix of those in the
      whole. */
  lemma {:induction false} AtPricePrefix(s: seq<Listing>, n: nat, q: int)
    requires n <= |s|
    ensures AtPrice(s[..n], q) <= AtPrice(s, q)
  {
    if n < |s| {
      var init := s[..|s| - 1];
      AtPricePrefix(init, n, q);
      assert init[..n] == s[..n];
    } else {
      assert s[..n] == s;
    }
  }

  function Take(s: seq<Listing>, n: nat): seq<Listing>
  {
    if |s| > n then s[..n] else s
  }

  /** The listings an item ends up with. */
  function TopListings(replies: seq<DcReply>): seq<Listing>
  {
    Take(SortByPrice(Gathered(replies)), 10)
  }

  /** At most ten listings, cheapest first, each one of the gathered
      listings, and every gathered listing left out costs at least as much
      as every one kept. */
  lemma TopListingsSpec(replies: seq<DcReply>)
    ensures |TopListings(replies)| == if |Gathered(replies)| > 10 then 10 else |Gathered(replies)|
    ensures SortedByPrice(TopListings(replies))
    ensures multiset(TopListings(replies)) <= multiset(Gathered(replies))
    ensures TopListings(replies) <= SortByPrice(Gathered(replies))
    ensures forall i, j :: 0 <= i < |TopListings(replies)| <= j < |SortByPrice(Gathered(replies))| ==>
              TopListings(replies)[i].price <= SortByPrice(Gathered(replies))[j].price
  {
    var g := Gathered(replies);
    var sorted := SortByPrice(g);
    SortByPriceSpec(g);
    var r := TopListings(replies);
    if |sorted| > 10 {
      assert sorted == r + sorted[10..];
      assert multiset(sorted) == multiset(r) + multiset(sorted[10..]);
    }
  }

  /** Of the listings at one price, the ones kept are the first ones in
      data-centre and reply order. */
  lemma TopListingsStable(replies: seq<DcReply>, q: int)
    ensures AtPrice(TopListings(replies), q) <= AtPrice(Gathered(replies), q)
  {
    var sorted := SortByPrice(Gathered(replies));
    SortByPriceStable(Gathered(replies), q);
    if |sorted| > 10 {
      AtPricePrefix(sorted, 10, q);
    }
  }

  /** The item's entry in the summary. */
  datatype ItemData = ItemData(itemId: int, itemName: string, iconUrl: string, listings: seq<Listing>)

  /** getItemData: the data centres in order, each reply tagged and
      appended, then sorted and cut to ten; the icon URL is an input. */
  method GetItemData(item: TrackedItem, replies: seq<DcReply>, iconUrl: string) returns (data: ItemData)
    ensures data == ItemData(item.id, item.name, iconUrl, TopListings(replies))
  {
    var allListings: seq<Listing> := [];
    var i := 0;
    while i < |replies|
      invariant 0 <= i <= |replies|
      invariant allListings == Gathered(replies[..i])
    {
      assert replies[..i + 1][..i] == replies[..i];
      if replies[i].listings.Some? {
        allListings := allListings + Tagged(replies[i].dataCenter, replies[i].listings.value);
      }
      i := i + 1;
    }
    assert replies[..i] == replies;
    allListings := SortByPrice(allListings);
    if |allListings| > 10 {
      allListings := allListings[..10];
    }
    data := ItemData(item.id, item.name, iconUrl, allListings);
  }

  // ---------------------------------------------------------------------
  // getCheapestListings
  // ---------------------------------------------------------------------

  /** Item name to its first listing, for items that have listings; a
      later item of the same name overwrites an earlier one. */
  function Cheapest(items: seq<ItemData>): map<string, Listing>
  {
    if items == [] then map[]
    else
      var last := items[|items| - 1];
      var m := Cheapest(items[..|items| - 1]);
      if |last.listings| > 0 then m[last.itemName := last.listings[0]] else m
  }

  predicate Lists(items: seq<ItemData>, name: string, k: int)
  {
    0 <= k < |items| && items[k].itemName == name && |items[k].listings| > 0
  }

  /** A name is mapped exactly when an item of that name has listings,
      and then to the first listing of the last such item. */
  lemma {:induction false} CheapestSpec(items: seq<ItemData>, name: string)
    ensures name in Cheapest(items) <==> exists k :: Lists(items, name, k)
    ensures name in Cheapest(items) ==>
              exists k :: Lists(items, name, k) && Cheapest(items)[name] == items[k].listings[0]
                          && forall j :: k < j < |items| ==> !Lists(items, name, j)
  {
    if items != [] {
      var init := items[..|items| - 1];
      var n := |items| - 1;
      CheapestSpec(init, name);
      assert forall k :: Lists(init, name, k) <==> k < n && Lists(items, name, k);
      if Lists(items, name, n) {
        assert Cheapest(items)[name] == items[n].listings[0];
      }
    }
  }

  /** getCheapestListings, loop and all. */
  method GetCheapestListings(items: seq<ItemData>) returns (cheapest: map<string, Listing>)
    ensures cheapest == Cheapest(items)
  {
    cheapest := map[];
    var i := 0;
    while i < |items|
      invariant 0 <= i <= |items|
      invariant cheapest == Cheapest(items[..i])
    {
      assert items[..i + 1][..i] == items[..i];
      if |items[i].listings| > 0 {
        cheapest := cheapest[items[i].itemName := items[i].listings[0]];
      }
      i := i + 1;
    }
    assert items[..i] == items;
  }

  // ---------------------------------------------------------------------
  // Icon URLs
  // ---------------------------------------------------------------------

  /** The `item.icon` field of a Garland Tools reply, by JavaScript type. */
  datatype IconRaw = Absent | Number(n: int) | Text(s: string) | OtherValue

  const GarlandIconBase := "https://www.garlandtools.org/files/icons/item/"

  function GarlandUrl(icon: string): string
  {
    GarlandIconBase + icon + ".png"
  }

  /** buildGarlandIconURL: a number or non-empty string names the icon
      file; a single leading '/' of a string is dropped. */
  function BuildGarlandIconUrl(icon: IconRaw): string
  {
    match icon
    case Absent => ""
    case Number(n) => GarlandUrl(IntToString(n))
    case Text(s) =>
      if |s| > 0 then GarlandUrl(if s[0] == '/' then s[1..] else s) else ""
    case OtherValue => ""
  }

  /** The icon name between the base and the extension. */
  function IconName(url: string): string
    requires |url| >= |GarlandIconBase| + 4
  {
    url[|GarlandIconBase|..|url| - 4]
  }

  /** An icon URL is built exactly for a number or a non-empty string; it
      names the number, or the string without one leading slash. */
  lemma GarlandIconSpec(icon: IconRaw)
    ensures BuildGarlandIconUrl(icon) == "" <==> icon.Absent? || icon.OtherValue? || icon == Text("")
    ensures icon.Number? ==>
              var u := BuildGarlandIconUrl(icon);
              |u| >= |GarlandIconBase| + 4 && GarlandIconBase <= u && ParseInt(IconName(u)) == Some(icon.n)
    ensures icon.Text? && icon.s != "" ==>
              var u := BuildGarlandIconUrl(icon);
              |u| >= |GarlandIconBase| + 4 && GarlandIconBase <= u
              && IconName(u) == if icon.s[0] == '/' then icon.s[1..] else icon.s
  {
    match icon
    case Number(n) =>
      var u := GarlandUrl(IntToString(n));
      assert IconName(u) == IntToString(n);
      ParseIntOfIntToString(n);
    case Text(s) =>
      if s != "" {
        var t := if s[0] == '/' then s[1..] else s;
        assert IconName(GarlandUrl(t)) == t;
      }
    case _ =>
  }

  /** Only one slash is dropped, and a numeric string names the same file
      as the number. */
  lemma GarlandIconSlash(s: string, n: nat)
    requires s != ""
    ensures BuildGarlandIconUrl(Text("/" + s)) == GarlandUrl(s)
    ensures BuildGarlandIconUrl(Text(NatToString(n))) == BuildGarlandIconUrl(Number(n))
  {
    assert ("/" + s)[1..] == s;
  }

  const TwemojiBase := "https://cdnjs.cloudflare.com/ajax/libs/twemoji/14.0.2/72x72"
  const HoneyPotIcon := TwemojiBase + "/1f36f.png"
  const PopcornIcon := TwemojiBase + "/1f37f.png"

  /** getFallbackIconURL: an emoji picture by the item's name. */
  function FallbackIconUrl(name: string): string
  {
    var lower := Lower(name);
    if Contains(lower, "gemdraught") then HoneyPotIcon
    else if Contains(lower, "popcorn") then PopcornIcon
    else ""
  }

  /** The fallback ignores letter case, and a gemdraught takes precedence
      over popcorn. */
  lemma FallbackIconSpec(name: string)
    ensures FallbackIconUrl(Upper(name)) == FallbackIconUrl(name)
    ensures FallbackIconUrl(Lower(name)) == FallbackIconUrl(name)
    ensures FallbackIconUrl(name) == HoneyPotIcon <==> Contains(Lower(name), "gemdraught")
    ensures FallbackIconUrl(name) == PopcornIcon <==>
              !Contains(Lower(name), "gemdraught") && Contains(Lower(name), "popcorn")
    ensures FallbackIconUrl(name) == "" <==>
              !Contains(Lower(name), "gemdraught") && !Contains(Lower(name), "popcorn")
  {
    LowerOfUpper(name);
    LowerIdempotent(name);
    assert HoneyPotIcon != PopcornIcon by {
      assert HoneyPotIcon[|TwemojiBase| + 4] != PopcornIcon[|TwemojiBase| + 4];
    }
  }
}
