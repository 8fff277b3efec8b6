/** Party finder listings (src/ffxiv/listings.js): a listing's slots, its
    relative "expires"/"updated" texts read as times, its tag and role
    queries, and the collection the scraper fills, which never holds two
    listings with the same id. Time is an explicit `now` in milliseconds. */
module PartyFinder {
  import opened Common
  import Jobs
  import Roles

  /** One seat of the party: the roles it accepts, and the job of the
      member sitting in it once filled. */
  datatype Slot = Slot(roles: seq<Roles.Role>, job: Jobs.Job, filled: bool)

  datatype Listing = Listing(
    dataCentre: string, id: string, pfCategory: string, duty: string,
    tags: string, tagsColor: string, description: string, minIL: string,
    creator: string, world: string, expires: string, updated: string,
    party: seq<Slot>)

  // ---------------------------------------------------------------------
  // Relative times
  // ---------------------------------------------------------------------

  predicate NoDigits(s: string)
  {
    forall i :: 0 <= i < |s| ==> !IsDigit(s[i])
  }

  /** The regular expression /p(\d+)q/ matches s at index k. The suffixes
      used all start with a space, so the greedy group takes the whole run
      of digits and backtracking to a shorter run can never succeed. */
  predicate CountAt(s: string, p: string, q: string, k: nat)
  {
    OccursAt(s, p, k)
    && var d := LeadingDigits(s[k + |p|..]);
       d != [] && OccursAt(s, q, k + |p| + |d|)
  }

  /** String.prototype.match with /p(\d+)q/, searched from index k on: the
      number captured by the leftmost match, read by parseInt. */
  function FirstCount(s: string, p: string, q: string, k: nat): Option<nat>
    decreases |s| - k
  {
    if k > |s| then None
    else if CountAt(s, p, q, k) then Some(DigitsValue(LeadingDigits(s[k + |p|..])))
    else FirstCount(s, p, q, k + 1)
  }

  function MatchCount(s: string, p: string, q: string): Option<nat>
  {
    FirstCount(s, p, q, 0)
  }

  /** The three count patterns, tried in the source's order (seconds,
      minutes, hours), with the text p before the number and post after
      the unit: the captured count in milliseconds. */
  function CountedMs(t: string, p: string, post: string): Option<nat>
  {
    FirstUnit(MatchCount(t, p, " seconds" + post), MatchCount(t, p, " minutes" + post),
              MatchCount(t, p, " hours" + post))
  }

  /** The first pattern that matched, scaled by its unit. */
  function FirstUnit(seconds: Option<nat>, minutes: Option<nat>, hours: Option<nat>): Option<nat>
  {
    match seconds
    case Some(n) => Some(n * 1000)
    case None =>
      match minutes
      case Some(n) => Some(n * 60 * 1000)
      case None =>
        match hours
        case Some(n) => Some(n * 60 * 60 * 1000)
        case None => None
  }

  /** Listing.expiresAt; None stands for the "Failed to parse time" error. */
  function ExpiresAt(expires: string, now: int): (r: Option<int>)
    ensures r.Some? ==> r.value >= now
  {
    var e := Trim(expires);
    if e == "" || e == "now" then Some(now)
    else if e == "in a second" then Some(now + 1000)
    else if e == "in a minute" then Some(now + 60 * 1000)
    else if e == "in an hour" then Some(now + 60 * 60 * 1000)
    else match CountedMs(e, "in ", "")
      case Some(ms) => Some(now + ms)
      case None => None
  }

  /** Listing.updatedAt; None stands for the "Failed to parse time" error. */
  function UpdatedAt(updated: string, now: int): (r: Option<int>)
    ensures r.Some? ==> r.value <= now
  {
    var u := Trim(updated);
    if u == "" || u == "now" then Some(now)
    else if u == "a second ago" then Some(now - 1000)
    else if u == "a minute ago" then Some(now - 60 * 1000)
    else if u == "an hour ago" then Some(now - 60 * 60 * 1000)
    else match CountedMs(u, "", " ago")
      case Some(ms) => Some(now - ms)
      case None => None
  }

  lemma {:induction false} NoCountFrom(s: string, p: string, q: string, k: nat)
    requires forall j: nat :: k <= j ==> !CountAt(s, p, q, j)
    ensures FirstCount(s, p, q, k) == None
    decreases |s| - k
  {
    if k <= |s| {
      NoCountFrom(s, p, q, k + 1);
    }
  }

  /** In p + d + q only d holds digits. */
  lemma DigitIndex(p: string, d: string, q: string, j: int)
    requires NoDigits(p) && NoDigits(q) && 0 <= j < |p + d + q| && IsDigit((p + d + q)[j])
    ensures |p| <= j < |p| + |d|
  {
  }

  lemma InDigits(p: string, d: string, q: string, j: int)
    requires AllDigits(d)
    ensures |p| <= j < |p| + |d| ==> IsDigit((p + d + q)[j])
  {
  }

  /** A match of /p(\d+)/ in p + d + q, with digits only in d, starts at 0
      unless p is empty, and its digits run to the end of d. */
  lemma CountStart(p: string, d: string, q: string, k: nat)
    requires NoDigits(p) && NoDigits(q) && AllDigits(d) && q != []
    requires OccursAt(p + d + q, p, k) && k + |p| < |p + d + q| && IsDigit((p + d + q)[k + |p|])
    ensures k == 0 || p == []
    ensures |p| <= k + |p| < |p| + |d|
    ensures LeadingDigits((p + d + q)[k + |p|..]) == d[k..]
  {
    var s := p + d + q;
    DigitIndex(p, d, q, k + |p|);
    if p != [] {
      assert s[k..k + |p|][|p| - 1] == s[k + |p| - 1];
      InDigits(p, d, q, k + |p| - 1);
    }
    assert s[k + |p|..] == d[k..] + q;
    LeadingDigitsConcat(d[k..], q);
  }

  /** In p + d + q, with digits only in d, /p(\d+)q2/ can match nowhere but
      at the start, and there only if q2 begins q. */
  lemma OnlyCountAtStart(p: string, d: string, q: string, q2: string, k: nat)
    requires NoDigits(p) && NoDigits(q) && AllDigits(d) && d != [] && q != []
    requires CountAt(p + d + q, p, q2, k)
    ensures q2 <= q
    ensures k == 0 || p == []
  {
    var s := p + d + q;
    var j := k + |p|;
    assert s[j..][0] == s[j];
    CountStart(p, d, q, k);
    assert s[|p| + |d|..] == q;
    assert s[|p| + |d|..|p| + |d| + |q2|] == q2;
  }

  /** A text of the form p + digits + q is read back as those digits'
      value, by exactly the patterns whose suffix begins q. */
  lemma PatternReadBack(p: string, d: string, q: string, q2: string)
    requires NoDigits(p) && NoDigits(q) && AllDigits(d) && d != [] && q != []
    ensures q2 <= q ==> MatchCount(p + d + q, p, q2).Some? && MatchCount(p + d + q, p, q2).value == DigitsValue(d)
    ensures !(q2 <= q) ==> MatchCount(p + d + q, p, q2).None?
  {
    var s := p + d + q;
    assert s[..|p|] == p;
    assert s[|p|..] == d + q;
    LeadingDigitsConcat(d, q);
    assert s[|p| + |d|..] == q;
    if q2 <= q {
      assert s[|p| + |d|..|p| + |d| + |q2|] == q2;
      assert CountAt(s, p, q2, 0);
    } else {
      forall j: nat | 0 <= j
        ensures !CountAt(s, p, q2, j)
      {
        if CountAt(s, p, q2, j) {
          OnlyCountAtStart(p, d, q, q2, j);
        }
      }
      NoCountFrom(s, p, q2, 0);
    }
  }

  lemma NoDigitsConcat(a: string, b: string)
    requires NoDigits(a) && NoDigits(b)
    ensures NoDigits(a + b)
  {
    assert forall i :: 0 <= i < |a + b| ==> (a + b)[i] == if i < |a| then a[i] else b[i - |a|];
  }

  /** Two words that differ in their second letter are no prefix of one
      another, whatever follows them. */
  lemma SecondLetterDiffers(a: string, b: string, post: string)
    requires |a| >= 2 && |b| >= 2 && a[1] != b[1]
    ensures !(a + post <= b + post)
  {
    assert (a + post)[1] == a[1] && (b + post)[1] == b[1];
  }

  /** Its own unit's pattern reads the count back. */
  lemma OwnUnit(p: string, d: string, w: string, post: string)
    requires NoDigits(p) && NoDigits(w) && NoDigits(post) && AllDigits(d) && d != [] && w != []
    ensures MatchCount(p + d + (w + post), p, w + post).Some?
    ensures MatchCount(p + d + (w + post), p, w + post).value == DigitsValue(d)
  {
    NoDigitsConcat(w, post);
    PatternReadBack(p, d, w + post, w + post);
  }

  /** The pattern of a unit whose second letter differs matches nowhere. */
  lemma OtherUnit(p: string, d: string, w: string, w2: string, post: string)
    requires NoDigits(p) && NoDigits(w) && NoDigits(post) && AllDigits(d) && d != []
    requires |w| >= 2 && |w2| >= 2 && w[1] != w2[1]
    ensures MatchCount(p + d + (w + post), p, w2 + post).None?
  {
    NoDigitsConcat(w, post);
    SecondLetterDiffers(w2, w, post);
    PatternReadBack(p, d, w + post, w2 + post);
  }

  lemma UnitWords()
    ensures NoDigits(" seconds") && NoDigits(" minutes") && NoDigits(" hours")
    ensures " seconds"[1] == 's' && " minutes"[1] == 'm' && " hours"[1] == 'h'
  {
  }

  /** p + digits + " seconds" + post is read by the first pattern. */
  lemma ReadSeconds(p: string, d: string, post: string)
    requires NoDigits(p) && NoDigits(post) && AllDigits(d) && d != []
    ensures CountedMs(p + d + (" seconds" + post), p, post).Some?
    ensures CountedMs(p + d + (" seconds" + post), p, post).value == DigitsValue(d) * 1000
  {
    UnitWords();
    OwnUnit(p, d, " seconds", post);
  }

  /** p + digits + " minutes" + post fails the first pattern and is read
      by the second. */
  lemma ReadMinutes(p: string, d: string, post: string)
    requires NoDigits(p) && NoDigits(post) && AllDigits(d) && d != []
    ensures CountedMs(p + d + (" minutes" + post), p, post).Some?
    ensures CountedMs(p + d + (" minutes" + post), p, post).value == DigitsValue(d) * 60 * 1000
  {
    UnitWords();
    OtherUnit(p, d, " minutes", " seconds", post);
    OwnUnit(p, d, " minutes", post);
  }

  /** p + digits + " hours" + post fails the first two patterns and is
      read by the third. */
  lemma ReadHours(p: string, d: string, post: string)
    requires NoDigits(p) && NoDigits(post) && AllDigits(d) && d != []
    ensures CountedMs(p + d + (" hours" + post), p, post).Some?
    ensures CountedMs(p + d + (" hours" + post), p, post).value == DigitsValue(d) * 60 * 60 * 1000
  {
    UnitWords();
    OtherUnit(p, d, " hours", " seconds", post);
    OtherUnit(p, d, " hours", " minutes", post);
    OwnUnit(p, d, " hours", post);
  }

  /** A trimmed text with a digit after "in " is none of the fixed forms,
      so it is read by the count patterns. */
  lemma ExpiresAtCounted(e: string, now: int)
    requires Trimmed(e) && |e| > 3 && IsDigit(e[3]) && CountedMs(e, "in ", "").Some?
    ensures ExpiresAt(e, now).Some? && ExpiresAt(e, now).value == now + CountedMs(e, "in ", "").value
  {
    TrimOfTrimmed(e);
  }

  /** A trimmed text starting with a digit is none of the fixed forms. */
  lemma UpdatedAtCounted(e: string, now: int)
    requires Trimmed(e) && |e| > 0 && IsDigit(e[0]) && CountedMs(e, "", " ago").Some?
    ensures UpdatedAt(e, now).Some? && UpdatedAt(e, now).value == now - CountedMs(e, "", " ago").value
  {
    TrimOfTrimmed(e);
  }

  /** "in " + d + w ends in w's last letter and has a digit at index 3. */
  lemma InCountShape(d: string, w: string)
    requires AllDigits(d) && d != [] && w != [] && !IsSpace(w[|w| - 1])
    ensures var s := "in " + d + w; Trimmed(s) && |s| > 3 && IsDigit(s[3])
    ensures "in " + d + (w + "") == "in " + d + w
  {
    var s := "in " + d + w;
    assert s[0] == 'i' && s[|s| - 1] == w[|w| - 1] && s[3] == d[0];
  }

  /** d + w + " ago" starts with a digit and ends in 'o'. */
  lemma AgoCountShape(d: string, w: string)
    requires AllDigits(d) && d != []
    ensures var s := d + w + " ago"; Trimmed(s) && |s| > 0 && IsDigit(s[0])
    ensures "" + d + (w + " ago") == d + w + " ago"
  {
    var s := d + w + " ago";
    assert s[0] == d[0] && s[|s| - 1] == 'o';
  }

  /** "in N seconds" expires N seconds from now, N being any run of digits
      (leading zeros included, as parseInt reads them). */
  lemma ExpiresInSeconds(d: string, now: int)
    requires AllDigits(d) && d != []
    ensures ExpiresAt("in " + d + " seconds", now).Some?
    ensures ExpiresAt("in " + d + " seconds", now).value == now + DigitsValue(d) * 1000
  {
    ReadSeconds("in ", d, "");
    InCountShape(d, " seconds");
    ExpiresAtCounted("in " + d + " seconds", now);
  }

  /** "in N minutes" expires N minutes from now, N being any run of digits
      (leading zeros included, as parseInt reads them). */
  lemma ExpiresInMinutes(d: string, now: int)
    requires AllDigits(d) && d != []
    ensures ExpiresAt("in " + d + " minutes", now).Some?
    ensures ExpiresAt("in " + d + " minutes", now).value == now + DigitsValue(d) * 60 * 1000
  {
    ReadMinutes("in ", d, "");
    InCountShape(d, " minutes");
    ExpiresAtCounted("in " + d + " minutes", now);
  }

  /** "in N hours" expires N hours from now, N being any run of digits
      (leading zeros included, as parseInt reads them). */
  lemma ExpiresInHours(d: string, now: int)
    requires AllDigits(d) && d != []
    ensures ExpiresAt("in " + d + " hours", now).Some?
    ensures ExpiresAt("in " + d + " hours", now).value == now + DigitsValue(d) * 60 * 60 * 1000
  {
    ReadHours("in ", d, "");
    InCountShape(d, " hours");
    ExpiresAtCounted("in " + d + " hours", now);
  }

  /** "N seconds ago" was updated N seconds before now. */
  lemma UpdatedSecondsAgo(d: string, now: int)
    requires AllDigits(d) && d != []
    ensures UpdatedAt(d + " seconds" + " ago", now).Some?
    ensures UpdatedAt(d + " seconds" + " ago", now).value == now - DigitsValue(d) * 1000
  {
    ReadSeconds("", d, " ago");
    AgoCountShape(d, " seconds");
    UpdatedAtCounted(d + " seconds" + " ago", now);
  }

  /** "N minutes ago" was updated N minutes before now. */
  lemma UpdatedMinutesAgo(d: string, now: int)
    requires AllDigits(d) && d != []
    ensures UpdatedAt(d + " minutes" + " ago", now).Some?
    ensures UpdatedAt(d + " minutes" + " ago", now).value == now - DigitsValue(d) * 60 * 1000
  {
    ReadMinutes("", d, " ago");
    AgoCountShape(d, " minutes");
    UpdatedAtCounted(d + " minutes" + " ago", now);
  }

  /** "N hours ago" was updated N hours before now. */
  lemma UpdatedHoursAgo(d: string, now: int)
    requires AllDigits(d) && d != []
    ensures UpdatedAt(d + " hours" + " ago", now).Some?
    ensures UpdatedAt(d + " hours" + " ago", now).value == now - DigitsValue(d) * 60 * 60 * 1000
  {
    ReadHours("", d, " ago");
    AgoCountShape(d, " hours");
    UpdatedAtCounted(d + " hours" + " ago", now);
  }

  /** Listing.getTimeUntilExpiry: expiresAt() reads the clock at parsedAt,
      the subtraction reads it again at checkedAt. */
  function TimeUntilExpiry(l: Listing, parsedAt: int, checkedAt: int): Option<int>
  {
    match ExpiresAt(l.expires, parsedAt)
    case Some(at) => Some(at - checkedAt)
    case None => None
  }

  /** Listing.isExpiringSoon. */
  function IsExpiringSoon(l: Listing, thresholdMs: int, parsedAt: int, checkedAt: int): Option<bool>
  {
    match TimeUntilExpiry(l, parsedAt, checkedAt)
    case Some(remaining) => Some(remaining > 0 && remaining <= thresholdMs)
    case None => None
  }

  /** On one clock reading, a listing expiring ms from now is expiring
      soon exactly when ms is positive and within the threshold; one that
      expires "now" never is. */
  lemma ExpiringSoonIn(l: Listing, ms: int, thresholdMs: int, now: int)
    ensures ExpiresAt(l.expires, now).Some? && ExpiresAt(l.expires, now).value == now + ms ==>
              IsExpiringSoon(l, thresholdMs, now, now).Some?
              && (IsExpiringSoon(l, thresholdMs, now, now).value <==> 0 < ms <= thresholdMs)
    ensures Trim(l.expires) == "now" ==>
              IsExpiringSoon(l, thresholdMs, now, now).Some?
              && !IsExpiringSoon(l, thresholdMs, now, now).value
  {
  }

  // ---------------------------------------------------------------------
  // Members, open slots and roles
  // ---------------------------------------------------------------------

  predicate IsFilled(s: Slot) { s.filled }

  predicate IsOpen(s: Slot) { !s.filled }

  function OpenSlots(l: Listing): seq<Slot>
  {
    Filter(l.party, IsOpen)
  }

  /** Listing.getMemberCount: the number of filled slots. */
  function MemberCount(l: Listing): (n: nat)
    ensures n <= |l.party|
  {
    |Filter(l.party, IsFilled)|
  }

  /** Every slot is either a member or open: the two counts add up to the
      party size, and the count is the size exactly when every slot is
      filled and zero exactly when none is. */
  lemma MemberCountSpec(l: Listing)
    ensures MemberCount(l) + |OpenSlots(l)| == |l.party|
    ensures MemberCount(l) == |l.party| <==> forall i :: 0 <= i < |l.party| ==> l.party[i].filled
    ensures MemberCount(l) == 0 <==> forall i :: 0 <= i < |l.party| ==> !l.party[i].filled
  {
    FilterPartition(l.party, IsFilled, IsOpen);
    FilterAllNone(l.party, IsFilled);
  }

  /** Listing.isFull: at least eight members. */
  function IsFull(l: Listing): (r: bool)
    ensures r ==> |l.party| >= 8
  {
    MemberCount(l) >= 8
  }

  /** Listing.getOpenRoles: the role text of each open slot, in order. */
  function OpenRoles(l: Listing): (r: seq<string>)
    ensures |r| == |l.party| - MemberCount(l)
  {
    var open := OpenSlots(l);
    MemberCountSpec(l);
    seq(|open|, i requires 0 <= i < |open| => Roles.ToString(open[i].roles))
  }

  /** Each open slot's text reads "Any" exactly when the slot takes any
      role, and two open slots read alike exactly when they take the same
      roles. */
  lemma OpenRolesSpec(l: Listing, i: int, j: int)
    requires 0 <= i < |OpenRoles(l)| && 0 <= j < |OpenRoles(l)|
    ensures OpenRoles(l)[i] == "Any" <==> OpenSlots(l)[i].roles == []
    ensures OpenRoles(l)[i] == OpenRoles(l)[j] <==> OpenSlots(l)[i].roles == OpenSlots(l)[j].roles
  {
    MemberCountSpec(l);
    Roles.ToStringInjective(OpenSlots(l)[i].roles, OpenSlots(l)[j].roles);
  }

  /** Listing.hasRole: some open slot accepts the role. */
  predicate HasRole(l: Listing, role: Roles.Role)
  {
    exists i :: 0 <= i < |l.party| && !l.party[i].filled && role in l.party[i].roles
  }

  /** hasRole looks at the open slots only: it holds exactly when one of
      the slots getOpenRoles lists accepts the role. */
  lemma HasRoleSpec(l: Listing, role: Roles.Role)
    ensures HasRole(l, role) <==> exists s :: s in OpenSlots(l) && role in s.roles
  {
    FilterSpec(l.party, IsOpen);
    if HasRole(l, role) {
      var i :| 0 <= i < |l.party| && !l.party[i].filled && role in l.party[i].roles;
      assert l.party[i] in OpenSlots(l);
    }
  }

  /** Listing.getFormattedMemberCount: "N/8". */
  function FormattedMemberCount(l: Listing): string
  {
    NatToString(MemberCount(l)) + "/8"
  }

  /** Digits joined by '/' split back apart. */
  lemma DigitsSplit(d: string, e: string)
    requires AllDigits(d) && AllDigits(e)
    ensures Split(Join([d, e], "/"), "/") == [d, e]
  {
    forall i | 0 <= i < |d| ensures d[i] != '/' { assert IsDigit(d[i]); }
    forall i | 0 <= i < |e| ensures e[i] != '/' { assert IsDigit(e[i]); }
    NotContainsChar(d, '/');
    NotContainsChar(e, '/');
    SplitJoin([d, e], "/");
  }

  /** parseInt reads the member count back from its formatted text. */
  lemma FormattedMemberCountParses(l: Listing)
    ensures ParseInt(FormattedMemberCount(l)).Some?
    ensures ParseInt(FormattedMemberCount(l)).value == MemberCount(l)
  {
    DigitsValueOfNatToString(MemberCount(l));
    assert "/8"[0] == '/';
    ParseIntLeading(NatToString(MemberCount(l)), "/8");
  }

  /** The formatted count splits on '/' into the count and "8". */
  lemma FormattedMemberCountSplits(l: Listing)
    ensures Split(FormattedMemberCount(l), "/") == [NatToString(MemberCount(l)), "8"]
  {
    var d := NatToString(MemberCount(l));
    DigitsSplit(d, "8");
    JoinTwo(d, "8", "/");
    assert d + "/" + "8" == d + "/8";
  }

  // ---------------------------------------------------------------------
  // Duty and tag queries
  // ---------------------------------------------------------------------

  /** Listing.matchesDuty: the lower-cased duty contains one of the given
      duty names, lower-cased. */
  predicate MatchesDuty(l: Listing, duties: seq<string>)
  {
    exists i :: 0 <= i < |duties| && Contains(Lower(l.duty), Lower(duties[i]))
  }

  /** A listing matches its own duty name, written in any case. */
  lemma MatchesOwnDuty(l: Listing)
    ensures MatchesDuty(l, [Upper(l.duty)]) && MatchesDuty(l, [l.duty])
  {
    LowerOfUpper(l.duty);
    ContainsSelf(Lower(l.duty));
    assert [Upper(l.duty)][0] == Upper(l.duty);
    assert [l.duty][0] == l.duty;
  }

  /** No names match nothing, and adding names never loses a match. */
  lemma MatchesDutyMonotone(l: Listing, duties: seq<string>, more: seq<string>)
    ensures duties == [] ==> !MatchesDuty(l, duties)
    ensures MatchesDuty(l, duties) ==> MatchesDuty(l, duties + more)
  {
    if MatchesDuty(l, duties) {
      var i :| 0 <= i < |duties| && Contains(Lower(l.duty), Lower(duties[i]));
      assert (duties + more)[i] == duties[i];
    }
  }

  /** Listing.getTagsList: no tags for an empty string, else the string
      split on ", ". */
  function TagsList(l: Listing): seq<string>
  {
    if l.tags == "" then [] else Split(l.tags, ", ")
  }

  /** The tag list is empty only for an empty string, and joining it back
      with ", " gives the tag string. */
  lemma TagsListSpec(l: Listing)
    ensures TagsList(l) == [] <==> l.tags == ""
    ensures Join(TagsList(l), ", ") == l.tags
  {
    if l.tags != "" {
      JoinSplit(l.tags, ", ");
    }
  }

  /** Listing.hasTag: a case-insensitive exact match against the list. */
  predicate HasTag(l: Listing, tag: string)
  {
    var tags := TagsList(l);
    exists i :: 0 <= i < |tags| && Lower(tags[i]) == Lower(tag)
  }

  /** Every listed tag is found, in whatever case it is asked for, and a
      listing without tags has none. */
  lemma HasTagSpec(l: Listing, i: int, tag: string)
    ensures 0 <= i < |TagsList(l)| ==> HasTag(l, TagsList(l)[i]) && HasTag(l, Upper(TagsList(l)[i]))
    ensures HasTag(l, Upper(tag)) <==> HasTag(l, tag)
    ensures l.tags == "" ==> !HasTag(l, tag)
  {
    LowerOfUpper(tag);
    if 0 <= i < |TagsList(l)| {
      LowerOfUpper(TagsList(l)[i]);
    }
  }

  /** Listing.isPracticeParty. */
  predicate IsPracticeParty(l: Listing)
  {
    HasTag(l, "Practice") || Contains(Lower(l.description), "practice")
  }

  /** Listing.isReclearParty. */
  predicate IsReclearParty(l: Listing)
  {
    var desc := Lower(l.description);
    HasTag(l, "Duty Completion") || HasTag(l, "Loot") || Contains(desc, "reclear") || Contains(desc, "farm")
  }

  /** A word written anywhere in the description, in any case, is found by
      the lower-cased includes test. */
  lemma DescriptionMentions(l: Listing, pre: string, w: string, post: string)
    requires l.description == pre + w + post
    ensures Contains(Lower(l.description), Lower(w))
  {
    LowerChars(pre + w, post);
    LowerChars(pre, w);
    var s := Lower(l.description);
    assert s == Lower(pre) + Lower(w) + Lower(post);
    assert s[|pre|..|pre| + |w|] == Lower(w);
    ContainsAt(s, Lower(w), |pre|);
  }

  /** A description mentioning "practice", in any case, makes a practice
      party; one mentioning "reclear" or "farm", a reclear party; and so
      do the Loot and Duty Completion tags, in any case. */
  lemma PartyKinds(l: Listing, pre: string, w: string, post: string)
    requires l.description == pre + w + post
    ensures Lower(w) == "practice" ==> IsPracticeParty(l)
    ensures Lower(w) == "reclear" || Lower(w) == "farm" ==> IsReclearParty(l)
    ensures HasTag(l, "LOOT") || HasTag(l, "DUTY COMPLETION") ==> IsReclearParty(l)
  {
    DescriptionMentions(l, pre, w, post);
    HasTagSpec(l, 0, "Loot");
    HasTagSpec(l, 0, "Duty Completion");
    assert Upper("Loot") == "LOOT";
    assert Upper("Duty Completion") == "DUTY COMPLETION";
  }

  /** Listing.getTags: the tag string, or "_ _" when there is none. */
  function Tags(l: Listing): (r: string)
    ensures r != ""
    ensures l.tags != "" ==> r == l.tags
  {
    if l.tags == "" then "_ _" else l.tags
  }

  /** Listing.getUniqueID: data centre, id and creator joined by '_'. */
  function UniqueId(l: Listing): string
  {
    l.dataCentre + "_" + l.id + "_" + l.creator
  }

  /** When none of the three fields holds '_', the id splits back into
      them. */
  lemma UniqueIdSplits(a: Listing)
    requires !Contains(a.dataCentre, "_") && !Contains(a.id, "_") && !Contains(a.creator, "_")
    ensures Split(UniqueId(a), "_") == [a.dataCentre, a.id, a.creator]
  {
    JoinThree(a.dataCentre, a.id, a.creator, "_");
    SplitJoin([a.dataCentre, a.id, a.creator], "_");
  }

  /** So listings whose fields hold no '_' share an id only when they agree
      on all three. */
  lemma UniqueIdInjective(a: Listing, b: Listing)
    requires !Contains(a.dataCentre, "_") && !Contains(a.id, "_") && !Contains(a.creator, "_")
    requires !Contains(b.dataCentre, "_") && !Contains(b.id, "_") && !Contains(b.creator, "_")
    ensures UniqueId(a) == UniqueId(b) <==>
              a.dataCentre == b.dataCentre && a.id == b.id && a.creator == b.creator
  {
    UniqueIdSplits(a);
    UniqueIdSplits(b);
  }

  // ---------------------------------------------------------------------
  // The collection of scraped listings
  // ---------------------------------------------------------------------

  function ForDutyAndDataCentre(ls: seq<Listing>, duty: string, dataCentre: string): seq<Listing>
  {
    Filter(ls, OfDutyAndDataCentre(duty, dataCentre))
  }

  function OfDutyAndDataCentre(duty: string, dataCentre: string): Listing -> bool
  {
    (l: Listing) => l.duty == duty && l.dataCentre == dataCentre
  }

  /** forDutyAndDataCentre keeps, in order, exactly the listings for that
      duty on that data centre. */
  lemma ForDutyAndDataCentreSpec(ls: seq<Listing>, duty: string, dataCentre: string)
    ensures Subsequence(ForDutyAndDataCentre(ls, duty, dataCentre), ls)
    ensures forall l :: l in ForDutyAndDataCentre(ls, duty, dataCentre) <==>
              l in ls && l.duty == duty && l.dataCentre == dataCentre
  {
    FilterSpec(ls, OfDutyAndDataCentre(duty, dataCentre));
  }

  /** Every listing's updated text parses at this clock reading. */
  predicate AllUpdatedParse(ls: seq<Listing>, now: int)
  {
    forall i :: 0 <= i < |ls| ==> UpdatedAt(ls[i].updated, now).Some?
  }

  function UpdatedSince(cutoff: int, now: int): Listing -> bool
  {
    (l: Listing) => UpdatedAt(l.updated, now).Some? && cutoff <= UpdatedAt(l.updated, now).value
  }

  /** Listings.updatedWithinLast: the listings updated at or after
      now - durationMs, in order; None when an updated text does not parse. */
  function UpdatedWithinLast(ls: seq<Listing>, durationMs: int, now: int): Option<seq<Listing>>
  {
    if AllUpdatedParse(ls, now) then Some(Filter(ls, UpdatedSince(now - durationMs, now))) else None
  }

  /** updatedWithinLast fails exactly when some updated text does not parse,
      and otherwise keeps, in order, exactly the listings updated within
      the window. */
  lemma UpdatedWithinLastSpec(ls: seq<Listing>, durationMs: int, now: int)
    ensures UpdatedWithinLast(ls, durationMs, now).None? <==>
              exists i :: 0 <= i < |ls| && UpdatedAt(ls[i].updated, now).None?
    ensures UpdatedWithinLast(ls, durationMs, now).Some? ==>
              var r := UpdatedWithinLast(ls, durationMs, now).value;
              Subsequence(r, ls)
              && forall l :: l in r <==> l in ls && now - durationMs <= UpdatedAt(l.updated, now).value
  {
    FilterSpec(ls, UpdatedSince(now - durationMs, now));
    if AllUpdatedParse(ls, now) {
      forall l | l in ls ensures UpdatedAt(l.updated, now).Some? {
        var i :| 0 <= i < |ls| && ls[i] == l;
      }
    }
  }

  /** The clock reading of each listing's updated text. */
  function UpdatedTime(now: int): Listing -> Option<int>
  {
    (l: Listing) => UpdatedAt(l.updated, now)
  }

  predicate AllTimed(ls: seq<Listing>, time: Listing -> Option<int>)
  {
    forall i :: 0 <= i < |ls| ==> time(ls[i]).Some?
  }

  /** Listing k is the first whose time no other listing's exceeds. */
  predicate LatestAt(ls: seq<Listing>, time: Listing -> Option<int>, k: int)
    requires AllTimed(ls, time)
  {
    0 <= k < |ls|
    && (forall i :: 0 <= i < |ls| ==> time(ls[i]).value <= time(ls[k]).value)
    && (forall i :: 0 <= i < k ==> time(ls[i]).value < time(ls[k]).value)
  }

  /** At most one listing is the first of the latest. */
  lemma LatestAtUnique(ls: seq<Listing>, time: Listing -> Option<int>, k: int, m: int)
    requires AllTimed(ls, time) && LatestAt(ls, time, k) && LatestAt(ls, time, m)
    ensures k == m
  {
    assert time(ls[k]).value == time(ls[m]).value;
  }

  /** The outcome of mostRecentUpdated: the "Failed to parse time" error,
      null, or the listing found. */
  datatype Recent = ParseFailure | NoneRecent | MostRecent(listing: Listing)

  /** The listings the scraper collected; `add` keeps ids distinct. */
  class Listings {
    var listings: seq<Listing>

    constructor ()
      ensures listings == []
    {
      listings := [];
    }

    method ForDuty(duty: string, dataCentre: string) returns (filtered: Listings)
      ensures fresh(filtered)
      ensures filtered.listings == ForDutyAndDataCentre(listings, duty, dataCentre)
    {
      filtered := new Listings();
      filtered.listings := ForDutyAndDataCentre(listings, duty, dataCentre);
    }

    method WithinLast(durationMs: int, now: int) returns (filtered: Option<Listings>)
      ensures filtered.None? <==> UpdatedWithinLast(listings, durationMs, now).None?
      ensures filtered.Some? ==>
                fresh(filtered.value) && filtered.value.listings == UpdatedWithinLast(listings, durationMs, now).value
    {
      var r := UpdatedWithinLast(listings, durationMs, now);
      if r.None? {
        return None;
      }
      var f := new Listings();
      f.listings := r.value;
      return Some(f);
    }

    /** Listings.mostRecentUpdated, each listing's updatedAt() read at
        the clock reading now. */
    method MostRecentUpdated(now: int) returns (r: Recent)
      ensures r == ParseFailure <==> !AllTimed(listings, UpdatedTime(now))
      ensures r == NoneRecent <==>
                AllTimed(listings, UpdatedTime(now))
                && forall i :: 0 <= i < |listings| ==> UpdatedTime(now)(listings[i]).value <= 0
      ensures r.MostRecent? ==>
                AllTimed(listings, UpdatedTime(now))
                && exists k :: LatestAt(listings, UpdatedTime(now), k) && listings[k] == r.listing
                               && UpdatedTime(now)(listings[k]).value > 0
    {
      r := MostRecentBy(listings, UpdatedTime(now));
    }

    /** Listings.add: a listing whose id is already present is dropped. */
    method Add(l: Listing)
      modifies this
      ensures listings == Added(old(listings), l)
    {
      if HasId(listings, l.id) {
        return;
      }
      listings := listings + [l];
    }
  }

  /** The loop of mostRecentUpdated over any reading of the times:
      keeps a listing whose time is later than every earlier one, starting
      from the epoch, so a tie keeps the first listing and a list whose
      times are all at or before the epoch gives null; a time that does
      not parse stops the scan. */
  method MostRecentBy(ls: seq<Listing>, time: Listing -> Option<int>) returns (r: Recent)
    ensures r == ParseFailure <==> !AllTimed(ls, time)
    ensures r == NoneRecent <==>
              AllTimed(ls, time) && forall i :: 0 <= i < |ls| ==> time(ls[i]).value <= 0
    ensures r.MostRecent? ==>
              AllTimed(ls, time)
              && exists k :: LatestAt(ls, time, k) && ls[k] == r.listing && time(ls[k]).value > 0
  {
    var mostRecent: Option<Listing> := None;
    var mostRecentUpdated := 0;
    ghost var k := 0;
    var i := 0;
    while i < |ls|
      invariant 0 <= i <= |ls|
      invariant forall j :: 0 <= j < i ==> time(ls[j]).Some?
      invariant mostRecent.None? ==>
                  mostRecentUpdated == 0 && forall j :: 0 <= j < i ==> time(ls[j]).value <= 0
      invariant mostRecent.Some? ==>
                  0 <= k < i && mostRecent.value == ls[k] && mostRecentUpdated > 0
                  && mostRecentUpdated == time(ls[k]).value
                  && (forall j :: 0 <= j < i ==> time(ls[j]).value <= mostRecentUpdated)
                  && (forall j :: 0 <= j < k ==> time(ls[j]).value < mostRecentUpdated)
    {
      var updatedAt := time(ls[i]);
      if updatedAt.None? {
        return ParseFailure;
      }
      if updatedAt.value > mostRecentUpdated {
        mostRecentUpdated := updatedAt.value;
        mostRecent := Some(ls[i]);
        k := i;
      }
      i := i + 1;
    }
    match mostRecent
    case None => r := NoneRecent;
    case Some(l) =>
      assert LatestAt(ls, time, k);
      r := MostRecent(l);
  }

  predicate HasId(ls: seq<Listing>, id: string)
  {
    exists i :: 0 <= i < |ls| && ls[i].id == id
  }

  predicate DistinctIds(ls: seq<Listing>)
  {
    forall i, j :: 0 <= i < j < |ls| ==> ls[i].id != ls[j].id
  }

  /** The list after add(l). */
  function Added(ls: seq<Listing>, l: Listing): seq<Listing>
  {
    if HasId(ls, l.id) then ls else ls + [l]
  }

  /** add keeps ids distinct, keeps every listing already there (so the
      first listing with an id wins), and afterwards the id is present. */
  lemma AddedSpec(ls: seq<Listing>, l: Listing, id: string)
    ensures DistinctIds(ls) ==> DistinctIds(Added(ls, l))
    ensures ls <= Added(ls, l)
    ensures HasId(Added(ls, l), id) <==> HasId(ls, id) || id == l.id
    ensures HasId(ls, l.id) ==> Added(ls, l) == ls
    ensures !HasId(ls, l.id) ==> Added(ls, l)[|ls|] == l
  {
    var r := Added(ls, l);
    if !HasId(ls, l.id) {
      assert r[|ls|] == l;
      if HasId(r, id) && id != l.id {
        var i :| 0 <= i < |r| && r[i].id == id;
        assert i < |ls| && ls[i] == r[i];
      }
      if HasId(ls, id) {
        var i :| 0 <= i < |ls| && ls[i].id == id;
        assert r[i] == ls[i];
      }
    }
  }
}
