/** The recruitment manager's state (src/discord/recruitment.js): the
    active recruitment posts keyed by their message id, the join requests
    waiting for the host keyed by their request id, and the latest Party
    Finder listings. Posts expire when their listing leaves the board;
    players join through a request the host approves or denies, and leave
    or are kicked again. */
module RecruitmentBoard {
  import opened Common
  import Jobs
  import PartyFinder
  import opened Recruitment

  // ---------------------------------------------------------------------
  // Posts and requests
  // ---------------------------------------------------------------------

  /** A recruitment post: the Discord message it lives in, its host, the
      listing it advertises and the members the host approved. */
  datatype Post = Post(
    messageId: string, channelId: string, hostUserId: string,
    listing: PartyFinder.Listing, members: seq<Member>, createdAt: int)

  /** A request to join a post as a job, waiting for the host. */
  datatype JoinRequest = JoinRequest(
    requestId: string, postMessageId: string, userId: string,
    username: string, job: Jobs.Job, hostUserId: string)

  /** The id of a request: the post, the user and the second it was made. */
  function RequestId(messageId: string, userId: string, now: int): string
  {
    messageId + "_" + userId + "_" + IntToString(now / 1000)
  }

  function Lookup<V>(m: map<string, V>, key: string): (r: Option<V>)
    ensures r.Some? <==> key in m
    ensures r.Some? ==> r.value == m[key]
  {
    if key in m then Some(m[key]) else None
  }

  // ---------------------------------------------------------------------
  // Finding members: findIndex and splice
  // ---------------------------------------------------------------------

  function IsUser(userId: string): Member -> bool
  {
    (m: Member) => m.userId == userId
  }

  function IsOtherUser(userId: string): Member -> bool
  {
    (m: Member) => m.userId != userId
  }

  /** The position of the user's first membership: findIndex. */
  function UserIndex(members: seq<Member>, userId: string): Option<nat>
  {
    FirstIndex(members, IsUser(userId))
  }

  /** How many times the user appears among the members. */
  function Memberships(members: seq<Member>, userId: string): nat
  {
    |Filter(members, IsUser(userId))|
  }

  /** splice(i, 1). */
  function Without(members: seq<Member>, i: nat): seq<Member>
    requires i < |members|
  {
    members[..i] + members[i + 1..]
  }

  /** Removing the user's first membership drops exactly one of theirs and
      keeps every other member, in order; a user listed once is gone
      afterwards. */
  lemma RemoveFirstSpec(members: seq<Member>, userId: string, i: nat)
    requires UserIndex(members, userId) == Some(i)
    ensures |Without(members, i)| == |members| - 1
    ensures Memberships(Without(members, i), userId) == Memberships(members, userId) - 1
    ensures Filter(Without(members, i), IsOtherUser(userId)) == Filter(members, IsOtherUser(userId))
    ensures Memberships(members, userId) == 1 ==>
              forall k :: 0 <= k < |Without(members, i)| ==> Without(members, i)[k].userId != userId
  {
    var pre, post := members[..i], members[i + 1..];
    var x := members[i];
    assert members == pre + [x] + post;
    FilterConcat(pre + [x], post, IsUser(userId));
    FilterConcat(pre, [x], IsUser(userId));
    FilterConcat(pre + [x], post, IsOtherUser(userId));
    FilterConcat(pre, [x], IsOtherUser(userId));
    FilterConcat(pre, post, IsUser(userId));
    FilterConcat(pre, post, IsOtherUser(userId));
    assert [x][..0] == [];
    assert Filter([x], IsUser(userId)) == [x];
    assert Filter([x], IsOtherUser(userId)) == [];
    FilterAllNone(pre, IsUser(userId));
    assert Filter(pre, IsUser(userId)) == [];
    var rest := Without(members, i);
    if Memberships(members, userId) == 1 {
      FilterAllNone(rest, IsUser(userId));
    }
  }

  // ---------------------------------------------------------------------
  // checkExpiredRecruitments
  // ---------------------------------------------------------------------

  /** Posts younger than this are never expired. */
  const GracePeriodMs := 2 * 60 * 1000

  /** What the expiry check decides for one post. */
  datatype Review = TooYoung | StillListed(current: PartyFinder.Listing) | Expired

  function HasId(id: string): PartyFinder.Listing -> bool
  {
    (l: PartyFinder.Listing) => l.id == id
  }

  /** A post old enough is still listed when the first listing with its
      id is found, and expired otherwise (also when no listings are known). */
  function ReviewPost(post: Post, listings: Option<seq<PartyFinder.Listing>>, now: int): Review
  {
    if now - post.createdAt < GracePeriodMs then TooYoung
    else if listings.None? then Expired
    else match FirstIndex(listings.value, HasId(post.listing.id))
      case Some(j) => StillListed(listings.value[j])
      case None => Expired
  }

  /** Young posts are skipped; an old one expires exactly when no listing
      carries its id, and is otherwise given the first listing that does. */
  lemma ReviewPostSpec(post: Post, listings: Option<seq<PartyFinder.Listing>>, now: int)
    ensures ReviewPost(post, listings, now) == TooYoung <==> now - post.createdAt < GracePeriodMs
    ensures ReviewPost(post, listings, now) == Expired <==>
              now - post.createdAt >= GracePeriodMs
              && (listings.None? || forall j :: 0 <= j < |listings.value| ==> listings.value[j].id != post.listing.id)
    ensures ReviewPost(post, listings, now).StillListed? ==>
              listings.Some? && ReviewPost(post, listings, now).current.id == post.listing.id
              && exists j :: 0 <= j < |listings.value| && listings.value[j] == ReviewPost(post, listings, now).current
                   && forall k :: 0 <= k < j ==> listings.value[k].id != post.listing.id
  {
  }

  /** A post with its listing replaced by the one still on the board. */
  function Refreshed(post: Post, listings: Option<seq<PartyFinder.Listing>>, now: int): Post
  {
    match ReviewPost(post, listings, now)
    case StillListed(l) => post.(listing := l)
    case _ => post
  }

  lemma RefreshedOf(post: Post, listings: Option<seq<PartyFinder.Listing>>, now: int)
    ensures ReviewPost(post, listings, now).StillListed? ==>
              Refreshed(post, listings, now) == post.(listing := ReviewPost(post, listings, now).current)
    ensures !ReviewPost(post, listings, now).StillListed? ==> Refreshed(post, listings, now) == post
  {
  }

  /** The active posts after the check: the expired ones gone, the listed
      ones refreshed, the young ones untouched. */
  function Reviewed(m: map<string, Post>, listings: Option<seq<PartyFinder.Listing>>, now: int): map<string, Post>
  {
    map id | id in m && !ReviewPost(m[id], listings, now).Expired? :: Refreshed(m[id], listings, now)
  }

  /** The check removes exactly the expired posts, leaves a young post as it
      was, and changes nothing in a surviving post but its listing. */
  lemma ReviewedSpec(m: map<string, Post>, listings: Option<seq<PartyFinder.Listing>>, now: int, id: string)
    requires id in m
    ensures id in Reviewed(m, listings, now) <==> !ReviewPost(m[id], listings, now).Expired?
    ensures now - m[id].createdAt < GracePeriodMs ==> Reviewed(m, listings, now)[id] == m[id]
    ensures id in Reviewed(m, listings, now) ==>
              Reviewed(m, listings, now)[id] == m[id].(listing := Reviewed(m, listings, now)[id].listing)
              && Reviewed(m, listings, now)[id].listing.id == m[id].listing.id
  {
  }

  // ---------------------------------------------------------------------
  // handleJoinRequest
  // ---------------------------------------------------------------------

  datatype JoinCheck = MayJoin | JoinPostGone | OwnParty | AlreadyJoined

  /** Who may open the job menu: anyone but the host (unless the host owns
      the guild) and anyone not already a member. */
  function JoinCheckOf(post: Option<Post>, userId: string, isOwner: bool): (r: JoinCheck)
    ensures r == JoinPostGone <==> post.None?
    ensures r == OwnParty <==> post.Some? && userId == post.value.hostUserId && !isOwner
    ensures r == MayJoin <==>
              post.Some? && (userId != post.value.hostUserId || isOwner)
              && forall k :: 0 <= k < |post.value.members| ==> post.value.members[k].userId != userId
    ensures r == AlreadyJoined ==> Memberships(post.value.members, userId) > 0
  {
    if post.None? then JoinPostGone
    else if userId == post.value.hostUserId && !isOwner then OwnParty
    else if UserIndex(post.value.members, userId).Some? then
      FilterSpec(post.value.members, IsUser(userId));
      var i := UserIndex(post.value.members, userId).value;
      assert post.value.members[i] in Filter(post.value.members, IsUser(userId));
      AlreadyJoined
    else MayJoin
  }

  // ---------------------------------------------------------------------
  // handleJobSelection
  // ---------------------------------------------------------------------

  /** The validator a post uses: the stricter one for Ultimate and Savage
      duties. */
  function JoinVerdict(post: Post, job: Jobs.Job): Verdict
  {
    if UsesUltimateRules(post.listing.duty) then UltimateVerdict(CompositionOf(MemberJobs(post.members)), job)
    else StandardVerdict(RoleCountsOf(MemberJobs(post.members)), job)
  }

  datatype Selection =
    | NoJobSelected | InvalidJob | SelectionPostGone
    | CannotJoin(reason: Rejection)
    | RequestSent(request: JoinRequest)

  /** The outcome of picking a job from the menu, checked in the order the
      handler checks: a selection, a known job, a live post, a free seat. */
  function SelectionOf(post: Option<Post>, messageId: string, values: seq<string>,
                       userId: string, username: string, now: int): Selection
  {
    if values == [] then NoJobSelected
    else
      var job := Jobs.FromAbbreviation(values[0]);
      if job == Jobs.Unknown then InvalidJob
      else if post.None? then SelectionPostGone
      else match JoinVerdict(post.value, job)
        case Rejected(reason) => CannotJoin(reason)
        case Accepted =>
          RequestSent(JoinRequest(RequestId(messageId, userId, now), messageId, userId, username, job, post.value.hostUserId))
  }

  /** A request is sent only for a known job that the post's validator
      accepts, and it names the post, the user and the post's host; every
      refusal of the validator is passed on. */
  lemma SelectionSpec(post: Option<Post>, messageId: string, values: seq<string>,
                      userId: string, username: string, now: int)
    ensures var s := SelectionOf(post, messageId, values, userId, username, now);
            s.RequestSent? <==>
              values != [] && Jobs.FromAbbreviation(values[0]) != Jobs.Unknown && post.Some?
              && JoinVerdict(post.value, Jobs.FromAbbreviation(values[0])) == Accepted
    ensures var s := SelectionOf(post, messageId, values, userId, username, now);
            s.RequestSent? ==>
              s.request == JoinRequest(RequestId(messageId, userId, now), messageId, userId, username,
                                       Jobs.FromAbbreviation(values[0]), post.value.hostUserId)
    ensures var s := SelectionOf(post, messageId, values, userId, username, now);
            s.CannotJoin? <==>
              values != [] && Jobs.FromAbbreviation(values[0]) != Jobs.Unknown && post.Some?
              && JoinVerdict(post.value, Jobs.FromAbbreviation(values[0])).Rejected?
    ensures var s := SelectionOf(post, messageId, values, userId, username, now);
            s.CannotJoin? ==> JoinVerdict(post.value, Jobs.FromAbbreviation(values[0])) == Rejected(s.reason)
  {
  }

  // ---------------------------------------------------------------------
  // handleLeaveRequest, handleKickMember
  // ---------------------------------------------------------------------

  datatype LeaveOutcome = LeavePostGone | NotJoined | Left(member: Member)

  /** Leaving: the user's first membership is spliced out of the post. */
  function LeaveStep(m: map<string, Post>, messageId: string, userId: string): (map<string, Post>, LeaveOutcome)
  {
    if messageId !in m then (m, LeavePostGone)
    else
      var post := m[messageId];
      match UserIndex(post.members, userId)
      case None => (m, NotJoined)
      case Some(i) => (m[messageId := post.(members := Without(post.members, i))], Left(post.members[i]))
  }

  /** A member who leaves loses exactly one membership of that post and no
      one else's changes; a user who is not a member changes nothing. */
  lemma LeaveSpec(m: map<string, Post>, messageId: string, userId: string)
    ensures var (m', out) := LeaveStep(m, messageId, userId);
            out.Left? <==> messageId in m && Memberships(m[messageId].members, userId) > 0
    ensures var (m', out) := LeaveStep(m, messageId, userId);
            !out.Left? ==> m' == m
    ensures var (m', out) := LeaveStep(m, messageId, userId);
            out.Left? ==>
              m'.Keys == m.Keys && out.member.userId == userId
              && (forall id :: id in m && id != messageId ==> m'[id] == m[id])
              && m'[messageId] == m[messageId].(members := m'[messageId].members)
              && Memberships(m'[messageId].members, userId) == Memberships(m[messageId].members, userId) - 1
              && Filter(m'[messageId].members, IsOtherUser(userId)) == Filter(m[messageId].members, IsOtherUser(userId))
  {
    if messageId in m {
      var members := m[messageId].members;
      FilterAllNone(members, IsUser(userId));
      match UserIndex(members, userId)
      case None =>
      case Some(i) =>
        RemoveFirstSpec(members, userId, i);
    }
  }

  datatype KickOutcome = NoMemberSelected | KickPostGone | NotHost | MemberNotFound | Kicked(member: Member)

  /** Kicking: only the post's host may splice out a chosen member. */
  function KickStep(m: map<string, Post>, messageId: string, values: seq<string>, requesterId: string)
    : (map<string, Post>, KickOutcome)
  {
    if values == [] then (m, NoMemberSelected)
    else if messageId !in m then (m, KickPostGone)
    else
      var post := m[messageId];
      if requesterId != post.hostUserId then (m, NotHost)
      else match UserIndex(post.members, values[0])
        case None => (m, MemberNotFound)
        case Some(i) => (m[messageId := post.(members := Without(post.members, i))], Kicked(post.members[i]))
  }

  /** Only the host kicks; a kick removes exactly one membership of the
      chosen user and nothing else. */
  lemma KickSpec(m: map<string, Post>, messageId: string, values: seq<string>, requesterId: string)
    ensures var (m', out) := KickStep(m, messageId, values, requesterId);
            out.Kicked? <==>
              values != [] && messageId in m && requesterId == m[messageId].hostUserId
              && Memberships(m[messageId].members, values[0]) > 0
    ensures var (m', out) := KickStep(m, messageId, values, requesterId);
            !out.Kicked? ==> m' == m
    ensures var (m', out) := KickStep(m, messageId, values, requesterId);
            messageId in m && requesterId != m[messageId].hostUserId && values != [] ==> out == NotHost
    ensures var (m', out) := KickStep(m, messageId, values, requesterId);
            out.Kicked? ==>
              m'.Keys == m.Keys && out.member.userId == values[0]
              && (forall id :: id in m && id != messageId ==> m'[id] == m[id])
              && m'[messageId] == m[messageId].(members := m'[messageId].members)
              && Memberships(m'[messageId].members, values[0]) == Memberships(m[messageId].members, values[0]) - 1
              && Filter(m'[messageId].members, IsOtherUser(values[0])) == Filter(m[messageId].members, IsOtherUser(values[0]))
  {
    if values != [] && messageId in m && requesterId == m[messageId].hostUserId {
      var members := m[messageId].members;
      FilterAllNone(members, IsUser(values[0]));
      match UserIndex(members, values[0])
      case None =>
      case Some(i) =>
        RemoveFirstSpec(members, values[0], i);
    }
  }

  // ---------------------------------------------------------------------
  // handleApproveJoin, handleDenyJoin
  // ---------------------------------------------------------------------

  datatype ApproveOutcome = ApproveRequestGone | ApprovePostGone | Approved(member: Member)

  /** Approving: the requester is appended to the post's members and the
      request is consumed; a request for a vanished post is dropped. */
  function ApproveStep(m: map<string, Post>, pending: map<string, JoinRequest>, requestId: string)
    : (map<string, Post>, map<string, JoinRequest>, ApproveOutcome)
  {
    if requestId !in pending then (m, pending, ApproveRequestGone)
    else
      var r := pending[requestId];
      if r.postMessageId !in m then (m, pending - {requestId}, ApprovePostGone)
      else
        var member := Member(r.userId, r.username, r.job);
        var post := m[r.postMessageId];
        (m[r.postMessageId := post.(members := post.members + [member])], pending - {requestId}, Approved(member))
  }

  /** The request never survives its approval; an approval appends exactly
      the requester, as the job requested, to exactly the post requested. */
  lemma ApproveSpec(m: map<string, Post>, pending: map<string, JoinRequest>, requestId: string)
    ensures var (m', p', out) := ApproveStep(m, pending, requestId);
            p' == pending - {requestId}
    ensures var (m', p', out) := ApproveStep(m, pending, requestId);
            out.Approved? <==> requestId in pending && pending[requestId].postMessageId in m
    ensures var (m', p', out) := ApproveStep(m, pending, requestId);
            !out.Approved? ==> m' == m
    ensures var (m', p', out) := ApproveStep(m, pending, requestId);
            out.Approved? ==>
              var r := pending[requestId];
              out.member == Member(r.userId, r.username, r.job)
              && m'.Keys == m.Keys
              && (forall id :: id in m && id != r.postMessageId ==> m'[id] == m[id])
              && m'[r.postMessageId] == m[r.postMessageId].(members := m[r.postMessageId].members + [out.member])
              && Memberships(m'[r.postMessageId].members, r.userId) == Memberships(m[r.postMessageId].members, r.userId) + 1
  {
    if requestId !in pending {
      assert pending - {requestId} == pending;
    } else {
      var r := pending[requestId];
      if r.postMessageId in m {
        var members := m[r.postMessageId].members;
        var member := Member(r.userId, r.username, r.job);
        FilterConcat(members, [member], IsUser(r.userId));
        assert [member][..0] == [];
      }
    }
  }

  datatype DenyOutcome = DenyRequestGone | DenyPostGone | Denied(request: JoinRequest)

  /** Denying consumes the request and leaves every post alone. */
  function DenyStep(m: map<string, Post>, pending: map<string, JoinRequest>, requestId: string)
    : (map<string, JoinRequest>, DenyOutcome)
  {
    if requestId !in pending then (pending, DenyRequestGone)
    else if pending[requestId].postMessageId !in m then (pending - {requestId}, DenyPostGone)
    else (pending - {requestId}, Denied(pending[requestId]))
  }

  lemma DenySpec(m: map<string, Post>, pending: map<string, JoinRequest>, requestId: string)
    ensures DenyStep(m, pending, requestId).0 == pending - {requestId}
    ensures DenyStep(m, pending, requestId).1.Denied? <==>
              requestId in pending && pending[requestId].postMessageId in m
  {
    if requestId !in pending {
      assert pending - {requestId} == pending;
    }
  }

  // ---------------------------------------------------------------------
  // The manager
  // ---------------------------------------------------------------------

  /** The message ids of a list of posts. */
  function IdsOf(posts: seq<Post>): set<string>
  {
    set j | 0 <= j < |posts| :: posts[j].messageId
  }

  lemma IdsOfSnoc(posts: seq<Post>, p: Post)
    ensures IdsOf(posts + [p]) == IdsOf(posts) + {p.messageId}
  {
    var s := posts + [p];
    assert s[|posts|] == p;
    forall id | id in IdsOf(posts) ensures id in IdsOf(s) {
      var j :| 0 <= j < |posts| && posts[j].messageId == id;
      assert s[j] == posts[j];
    }
  }

  /** The posts of the review loop once the ids outside `keys` have been
      visited: those are refreshed, the others untouched. */
  ghost predicate RefreshedSoFar(m0: map<string, Post>, m: map<string, Post>, keys: set<string>,
                                 listings: Option<seq<PartyFinder.Listing>>, now: int)
  {
    keys <= m0.Keys && m.Keys == m0.Keys
    && forall id :: id in m0 ==> m[id] == if id in keys then m0[id] else Refreshed(m0[id], listings, now)
  }

  /** The posts the review loop has collected once the ids outside `keys`
      have been visited: exactly the expired ones among those. */
  ghost predicate CollectedSoFar(m0: map<string, Post>, keys: set<string>, expired: seq<Post>,
                                 listings: Option<seq<PartyFinder.Listing>>, now: int)
  {
    (forall i :: 0 <= i < |expired| ==>
       expired[i].messageId in m0 && expired[i].messageId !in keys
       && m0[expired[i].messageId] == expired[i]
       && ReviewPost(expired[i], listings, now).Expired?)
    && (forall id :: id in m0 && id !in keys && ReviewPost(m0[id], listings, now).Expired? ==> m0[id] in expired)
  }

  /** Visiting one more id refreshes exactly its post. */
  lemma RefreshOne(m0: map<string, Post>, m: map<string, Post>, keys: set<string>,
                   listings: Option<seq<PartyFinder.Listing>>, now: int, id: string)
    requires RefreshedSoFar(m0, m, keys, listings, now) && id in keys
    ensures var review := ReviewPost(m[id], listings, now);
            RefreshedSoFar(m0, if review.StillListed? then m[id := m[id].(listing := review.current)] else m,
                           keys - {id}, listings, now)
  {
    RefreshedOf(m0[id], listings, now);
  }

  /** Visiting one more id collects its post exactly when it expired. */
  lemma CollectOne(m0: map<string, Post>, keys: set<string>, expired: seq<Post>,
                   listings: Option<seq<PartyFinder.Listing>>, now: int, id: string)
    requires forall k :: k in m0 ==> m0[k].messageId == k
    requires CollectedSoFar(m0, keys, expired, listings, now) && id in keys && id in m0
    ensures CollectedSoFar(m0, keys - {id},
                           if ReviewPost(m0[id], listings, now).Expired? then expired + [m0[id]] else expired,
                           listings, now)
  {
    var post := m0[id];
    var expired' := if ReviewPost(post, listings, now).Expired? then expired + [post] else expired;
    assert forall i :: 0 <= i < |expired| ==> expired'[i] == expired[i];
    forall k | k in m0 && k !in keys - {id} && ReviewPost(m0[k], listings, now).Expired?
      ensures m0[k] in expired'
    {
      if k != id {
        var i :| 0 <= i < |expired| && expired[i] == m0[k];
        assert expired'[i] == m0[k];
      }
    }
  }

  class RecruitmentManager {
    var activeRecruitments: map<string, Post>
    var pendingRequests: map<string, JoinRequest>
    var listings: Option<seq<PartyFinder.Listing>>

    /** Every post is filed under its message id and every request under
        its request id. */
    ghost predicate Valid()
      reads this
    {
      (forall id :: id in activeRecruitments ==> activeRecruitments[id].messageId == id)
      && (forall id :: id in pendingRequests ==> pendingRequests[id].requestId == id)
    }

    constructor()
      ensures Valid()
      ensures activeRecruitments == map[] && pendingRequests == map[] && listings == None
    {
      activeRecruitments := map[];
      pendingRequests := map[];
      listings := None;
    }

    /** updateListings: the latest board, against which posts expire. */
    method UpdateListings(current: seq<PartyFinder.Listing>)
      modifies this`listings
      ensures listings == Some(current)
    {
      listings := Some(current);
    }

    /** A new post, with no members yet, filed under its message id. */
    method StorePost(messageId: string, channelId: string, hostUserId: string,
                     listing: PartyFinder.Listing, now: int)
      requires Valid()
      modifies this`activeRecruitments
      ensures Valid()
      ensures activeRecruitments ==
                old(activeRecruitments)[messageId := Post(messageId, channelId, hostUserId, listing, [], now)]
    {
      activeRecruitments := activeRecruitments[messageId := Post(messageId, channelId, hostUserId, listing, [], now)];
    }

    /** The users an expired post's removal notifies, host first. */
    static function Recipients(post: Post): (users: seq<string>)
      ensures |users| == |post.members| + 1 && users[0] == post.hostUserId
      ensures forall k :: 0 <= k < |post.members| ==> users[k + 1] == post.members[k].userId
    {
      [post.hostUserId] + seq(|post.members|, k requires 0 <= k < |post.members| => post.members[k].userId)
    }

    /** markRecruitmentExpired: notify the host and every member, then drop
        the post. */
    method MarkRecruitmentExpired(post: Post) returns (notified: seq<string>)
      requires Valid()
      modifies this`activeRecruitments
      ensures Valid()
      ensures activeRecruitments == old(activeRecruitments) - {post.messageId}
      ensures notified == Recipients(post)
    {
      notified := [post.hostUserId];
      var i := 0;
      while i < |post.members|
        invariant 0 <= i <= |post.members|
        invariant notified == Recipients(post)[..i + 1]
      {
        notified := notified + [post.members[i].userId];
        i := i + 1;
      }
      activeRecruitments := activeRecruitments - {post.messageId};
    }

    /** The first pass of checkExpiredRecruitments: every post old enough
        whose listing is still on the board takes the current listing, and
        the expired ones are collected. */
    method ReviewPosts(now: int) returns (expired: seq<Post>)
      requires Valid()
      modifies this`activeRecruitments
      ensures Valid()
      ensures activeRecruitments.Keys == old(activeRecruitments).Keys
      ensures forall id :: id in old(activeRecruitments) ==>
                activeRecruitments[id] == Refreshed(old(activeRecruitments)[id], listings, now)
      ensures forall i :: 0 <= i < |expired| ==>
                expired[i].messageId in old(activeRecruitments)
                && old(activeRecruitments)[expired[i].messageId] == expired[i]
                && ReviewPost(expired[i], listings, now).Expired?
      ensures forall id :: id in old(activeRecruitments) && ReviewPost(old(activeRecruitments)[id], listings, now).Expired?
                ==> old(activeRecruitments)[id] in expired
    {
      var m0 := activeRecruitments;
      var m := m0;
      var keys := m0.Keys;
      expired := [];
      while keys != {}
        invariant RefreshedSoFar(m0, m, keys, listings, now)
        invariant CollectedSoFar(m0, keys, expired, listings, now)
        decreases keys
      {
        var id :| id in keys;
        RefreshOne(m0, m, keys, listings, now, id);
        CollectOne(m0, keys, expired, listings, now, id);
        keys := keys - {id};
        var post := m[id];
        var review := ReviewPost(post, listings, now);
        if review.StillListed? {
          m := m[id := post.(listing := review.current)];
        } else if review.Expired? {
          expired := expired + [post];
        }
      }
      forall id | id in m ensures m[id].messageId == id {
        RefreshedOf(m0[id], listings, now);
      }
      activeRecruitments := m;
    }

    /** checkExpiredRecruitments: one pass over the posts refreshes the
        listed ones and collects the expired ones, which a second pass
        removes. */
    method CheckExpiredRecruitments(now: int) returns (expired: seq<Post>)
      requires Valid()
      modifies this`activeRecruitments
      ensures Valid()
      ensures activeRecruitments == Reviewed(old(activeRecruitments), listings, now)
      ensures forall i :: 0 <= i < |expired| ==>
                expired[i].messageId in old(activeRecruitments)
                && old(activeRecruitments)[expired[i].messageId] == expired[i]
                && ReviewPost(expired[i], listings, now).Expired?
      ensures forall id :: id in old(activeRecruitments) && ReviewPost(old(activeRecruitments)[id], listings, now).Expired?
                ==> old(activeRecruitments)[id] in expired
    {
      ghost var m0 := activeRecruitments;
      expired := ReviewPosts(now);
      ghost var m1 := activeRecruitments;
      RemoveExpired(expired);
      ExpiredIds(m0, m1, expired, listings, now);
    }

    /** The second pass of checkExpiredRecruitments: mark every collected
        post expired, in order. */
    method RemoveExpired(expired: seq<Post>)
      requires Valid()
      modifies this`activeRecruitments
      ensures Valid()
      ensures activeRecruitments == old(activeRecruitments) - IdsOf(expired)
    {
      var i := 0;
      while i < |expired|
        invariant 0 <= i <= |expired|
        invariant activeRecruitments == old(activeRecruitments) - IdsOf(expired[..i])
        invariant Valid()
      {
        IdsOfSnoc(expired[..i], expired[i]);
        assert expired[..i + 1] == expired[..i] + [expired[i]];
        var _ := MarkRecruitmentExpired(expired[i]);
        i := i + 1;
      }
      assert expired[..i] == expired;
    }

    /** The posts collected as expired are exactly those the review expires,
        so removing their ids from the refreshed posts leaves Reviewed. */
    static lemma ExpiredIds(m0: map<string, Post>, m1: map<string, Post>, expired: seq<Post>,
                            listings: Option<seq<PartyFinder.Listing>>, now: int)
      requires forall id :: id in m0 ==> m0[id].messageId == id
      requires m1.Keys == m0.Keys
      requires forall id :: id in m0 ==> m1[id] == Refreshed(m0[id], listings, now)
      requires forall i :: 0 <= i < |expired| ==>
                 expired[i].messageId in m0 && m0[expired[i].messageId] == expired[i]
                 && ReviewPost(expired[i], listings, now).Expired?
      requires forall id :: id in m0 && ReviewPost(m0[id], listings, now).Expired? ==> m0[id] in expired
      ensures m1 - IdsOf(expired) == Reviewed(m0, listings, now)
    {
      var gone := IdsOf(expired);
      var left := m1 - gone;
      var reviewed := Reviewed(m0, listings, now);
      forall id | id in m0
        ensures id in gone <==> ReviewPost(m0[id], listings, now).Expired?
      {
        if ReviewPost(m0[id], listings, now).Expired? {
          var j :| 0 <= j < |expired| && expired[j] == m0[id];
          assert expired[j].messageId == id;
        }
      }
      assert left.Keys == reviewed.Keys;
      forall id | id in left ensures left[id] == reviewed[id] {
        assert left[id] == m1[id];
      }
    }

    function PostAt(messageId: string): Option<Post>
      reads this
    {
      Lookup(activeRecruitments, messageId)
    }

    /** handleJoinRequest: whether the user may open the job menu. */
    method HandleJoinRequest(messageId: string, userId: string, isOwner: bool) returns (check: JoinCheck)
      ensures check == JoinCheckOf(PostAt(messageId), userId, isOwner)
    {
      if messageId !in activeRecruitments {
        return JoinPostGone;
      }
      var post := activeRecruitments[messageId];
      if userId == post.hostUserId && !isOwner {
        return OwnParty;
      }
      if UserIndex(post.members, userId).Some? {
        return AlreadyJoined;
      }
      return MayJoin;
    }

    /** handleJobSelection: validate the chosen job against the post and,
        when it fits, file a request for the host. */
    method HandleJobSelection(messageId: string, values: seq<string>, userId: string,
                              username: string, now: int) returns (out: Selection)
      requires Valid()
      modifies this`pendingRequests
      ensures Valid()
      ensures out == SelectionOf(PostAt(messageId), messageId, values, userId, username, now)
      ensures out.RequestSent? ==> pendingRequests == old(pendingRequests)[out.request.requestId := out.request]
      ensures !out.RequestSent? ==> pendingRequests == old(pendingRequests)
    {
      if values == [] {
        return NoJobSelected;
      }
      var job := Jobs.FromAbbreviation(values[0]);
      if job == Jobs.Unknown {
        return InvalidJob;
      }
      if messageId !in activeRecruitments {
        return SelectionPostGone;
      }
      var post := activeRecruitments[messageId];
      var verdict;
      if UsesUltimateRules(post.listing.duty) {
        verdict := ValidateUltimateSavageComposition(post.members, job);
      } else {
        verdict := ValidateStandardComposition(post.members, job);
      }
      if verdict.Rejected? {
        return CannotJoin(verdict.reason);
      }
      var requestId := RequestId(messageId, userId, now);
      var request := JoinRequest(requestId, messageId, userId, username, job, post.hostUserId);
      pendingRequests := pendingRequests[requestId := request];
      out := RequestSent(request);
    }

    /** handleLeaveRequest. */
    method HandleLeaveRequest(messageId: string, userId: string) returns (out: LeaveOutcome)
      requires Valid()
      modifies this`activeRecruitments
      ensures Valid()
      ensures (activeRecruitments, out) == LeaveStep(old(activeRecruitments), messageId, userId)
    {
      if messageId !in activeRecruitments {
        return LeavePostGone;
      }
      var post := activeRecruitments[messageId];
      var index := UserIndex(post.members, userId);
      if index.None? {
        return NotJoined;
      }
      var removed := post.members[index.value];
      activeRecruitments := activeRecruitments[messageId := post.(members := Without(post.members, index.value))];
      out := Left(removed);
    }

    /** handleKickMember. */
    method HandleKickMember(messageId: string, values: seq<string>, requesterId: string) returns (out: KickOutcome)
      requires Valid()
      modifies this`activeRecruitments
      ensures Valid()
      ensures (activeRecruitments, out) == KickStep(old(activeRecruitments), messageId, values, requesterId)
    {
      if values == [] {
        return NoMemberSelected;
      }
      var kickUserId := values[0];
      if messageId !in activeRecruitments {
        return KickPostGone;
      }
      var post := activeRecruitments[messageId];
      if requesterId != post.hostUserId {
        return NotHost;
      }
      var index := UserIndex(post.members, kickUserId);
      if index.None? {
        return MemberNotFound;
      }
      var kicked := post.members[index.value];
      activeRecruitments := activeRecruitments[messageId := post.(members := Without(post.members, index.value))];
      out := Kicked(kicked);
    }

    /** handleApproveJoin. */
    method HandleApproveJoin(requestId: string) returns (out: ApproveOutcome)
      requires Valid()
      modifies this`activeRecruitments, this`pendingRequests
      ensures Valid()
      ensures (activeRecruitments, pendingRequests, out)
              == ApproveStep(old(activeRecruitments), old(pendingRequests), requestId)
    {
      if requestId !in pendingRequests {
        return ApproveRequestGone;
      }
      var request := pendingRequests[requestId];
      if request.postMessageId !in activeRecruitments {
        pendingRequests := pendingRequests - {requestId};
        return ApprovePostGone;
      }
      var post := activeRecruitments[request.postMessageId];
      var member := Member(request.userId, request.username, request.job);
      activeRecruitments := activeRecruitments[request.postMessageId := post.(members := post.members + [member])];
      pendingRequests := pendingRequests - {requestId};
      out := Approved(member);
    }

    /** handleDenyJoin. */
    method HandleDenyJoin(requestId: string) returns (out: DenyOutcome)
      requires Valid()
      modifies this`pendingRequests
      ensures Valid()
      ensures (pendingRequests, out) == DenyStep(activeRecruitments, old(pendingRequests), requestId)
    {
      if requestId !in pendingRequests {
        return DenyRequestGone;
      }
      var request := pendingRequests[requestId];
      pendingRequests := pendingRequests - {requestId};
      if request.postMessageId !in activeRecruitments {
        return DenyPostGone;
      }
      out := Denied(request);
    }
  }

  // ---------------------------------------------------------------------
  // formatTags
  // ---------------------------------------------------------------------

  const Marker := " ??"
  const NoTags := "*No tags*"

  /** The tags that get a marker, in the order they are replaced. */
  const MarkedTags: seq<string> := ["Duty Completion", "Duty Complete", "Loot", "Practice", "One Player per Job"]

  /** One replaceAll of the chain: the tag followed by the marker. */
  function MarkEvery(tags: string, tag: string): string
    requires |tag| > 0
  {
    ReplaceAll(tags, tag, tag + Marker)
  }

  /** formatTags: every occurrence of each marked tag, in turn, gets the
      marker after it. */
  function FormatTags(tags: string): string
  {
    if tags == "" then NoTags
    else
      MarkEvery(MarkEvery(MarkEvery(MarkEvery(MarkEvery(tags, MarkedTags[0]), MarkedTags[1]),
                                    MarkedTags[2]), MarkedTags[3]), MarkedTags[4])
  }

  /** The chain on a string that only the i-th marked tag matches, and
      whose marked form none of the later tags match, marks it once. */
  lemma MarkOnly(tag: string, i: nat)
    requires i < |MarkedTags| && tag == MarkedTags[i]
    requires forall j :: 0 <= j < i ==> !Contains(tag, MarkedTags[j])
    requires forall j :: i < j < |MarkedTags| ==> !Contains(tag + Marker, MarkedTags[j])
    ensures FormatTags(tag) == tag + Marker
  {
    var r0 := MarkEvery(tag, MarkedTags[0]);
    var r1 := MarkEvery(r0, MarkedTags[1]);
    var r2 := MarkEvery(r1, MarkedTags[2]);
    var r3 := MarkEvery(r2, MarkedTags[3]);
    var marked := tag + Marker;
    ReplaceWhole(tag, marked);
    if i == 0 {
      ReplaceAllAbsent(marked, MarkedTags[1], MarkedTags[1] + Marker);
      ReplaceAllAbsent(marked, MarkedTags[2], MarkedTags[2] + Marker);
      ReplaceAllAbsent(marked, MarkedTags[3], MarkedTags[3] + Marker);
      ReplaceAllAbsent(marked, MarkedTags[4], MarkedTags[4] + Marker);
    } else {
      ReplaceAllAbsent(tag, MarkedTags[0], MarkedTags[0] + Marker);
      if i == 1 {
        ReplaceAllAbsent(marked, MarkedTags[2], MarkedTags[2] + Marker);
        ReplaceAllAbsent(marked, MarkedTags[3], MarkedTags[3] + Marker);
        ReplaceAllAbsent(marked, MarkedTags[4], MarkedTags[4] + Marker);
      } else {
        ReplaceAllAbsent(tag, MarkedTags[1], MarkedTags[1] + Marker);
        if i == 2 {
          ReplaceAllAbsent(marked, MarkedTags[3], MarkedTags[3] + Marker);
          ReplaceAllAbsent(marked, MarkedTags[4], MarkedTags[4] + Marker);
        } else {
          ReplaceAllAbsent(tag, MarkedTags[2], MarkedTags[2] + Marker);
          if i == 3 {
            ReplaceAllAbsent(marked, MarkedTags[4], MarkedTags[4] + Marker);
          } else {
            ReplaceAllAbsent(tag, MarkedTags[3], MarkedTags[3] + Marker);
          }
        }
      }
    }
  }

  /** A string none of whose characters starts the pattern cannot contain it. */
  lemma FirstCharAbsent(s: string, t: string)
    requires |t| > 0 && t[0] !in s
    ensures !Contains(s, t)
  {
    forall k | 0 <= k && k + |t| <= |s| ensures !OccursAt(s, t, k) {
      assert s[k] in s;
      assert s[k..k + |t|][0] == s[k];
    }
  }

  /** A pattern whose first character appears only at k0, where the pattern
      does not occur, is absent. */
  lemma OnlyCandidateAbsent(s: string, t: string, k0: int)
    requires |t| > 0 && !OccursAt(s, t, k0)
    requires forall k :: 0 <= k < |s| && s[k] == t[0] ==> k == k0
    ensures !Contains(s, t)
  {
    forall k | 0 <= k && k + |t| <= |s| ensures !OccursAt(s, t, k) {
      assert s[k..k + |t|][0] == s[k];
    }
  }

  /** Replacing a pattern that occurs only at the very start. */
  lemma ReplaceLeading(pat: string, rest: string, rep: string)
    requires |pat| > 0 && !Contains(rest, pat)
    ensures ReplaceAll(pat + rest, pat, rep) == rep + rest
  {
    var s := pat + rest;
    assert s[0..|pat|] == pat;
    assert IndexOf(s, pat) == Some(0);
    assert s[|pat|..] == rest;
    assert Split(rest, pat) == [rest];
    assert Split(s, pat) == [""] + [rest];
    JoinTwo("", rest, rep);
  }

  lemma ReplaceWhole(pat: string, rep: string)
    requires |pat| > 0
    ensures ReplaceAll(pat, pat, rep) == rep
  {
    assert !Contains("", pat);
    ReplaceLeading(pat, "", rep);
    assert pat + "" == pat && rep + "" == rep;
  }

  /** Tags that contain none of the marked tags come back unchanged. */
  lemma FormatTagsUnmarked(tags: string)
    requires tags != ""
    requires forall i :: 0 <= i < |MarkedTags| ==> !Contains(tags, MarkedTags[i])
    ensures FormatTags(tags) == tags
  {
    assert !Contains(tags, MarkedTags[0]) && !Contains(tags, MarkedTags[1]) && !Contains(tags, MarkedTags[2]);
    assert !Contains(tags, MarkedTags[3]) && !Contains(tags, MarkedTags[4]);
  }

  lemma CompletionApart()
    ensures !Contains(MarkedTags[0] + Marker, MarkedTags[1]) && !Contains(MarkedTags[0] + Marker, MarkedTags[2])
    ensures !Contains(MarkedTags[0] + Marker, MarkedTags[3]) && !Contains(MarkedTags[0] + Marker, MarkedTags[4])
  {
    var t := MarkedTags;
    var r := t[0] + Marker;
    assert !OccursAt(r, t[1], 0) by {
      assert r[0..13][12] != t[1][12];
    }
    OnlyCandidateAbsent(r, t[1], 0);
    FirstCharAbsent(r, t[2]);
    FirstCharAbsent(r, t[3]);
    FirstCharAbsent(r, t[4]);
  }

  lemma CompleteApart()
    ensures !Contains(MarkedTags[1], MarkedTags[0])
    ensures !Contains(MarkedTags[1] + Marker, MarkedTags[2]) && !Contains(MarkedTags[1] + Marker, MarkedTags[3])
    ensures !Contains(MarkedTags[1] + Marker, MarkedTags[4])
  {
    var t := MarkedTags;
    assert |t[1]| < |t[0]|;
    FirstCharAbsent(t[1] + Marker, t[2]);
    FirstCharAbsent(t[1] + Marker, t[3]);
    FirstCharAbsent(t[1] + Marker, t[4]);
  }

  lemma LootApart()
    ensures !Contains(MarkedTags[2], MarkedTags[0]) && !Contains(MarkedTags[2], MarkedTags[1])
    ensures !Contains(MarkedTags[2] + Marker, MarkedTags[3]) && !Contains(MarkedTags[2] + Marker, MarkedTags[4])
  {
    var t := MarkedTags;
    FirstCharAbsent(t[2], t[0]);
    FirstCharAbsent(t[2], t[1]);
    FirstCharAbsent(t[2] + Marker, t[3]);
    FirstCharAbsent(t[2] + Marker, t[4]);
  }

  lemma PracticeApart()
    ensures !Contains(MarkedTags[3], MarkedTags[0]) && !Contains(MarkedTags[3], MarkedTags[1])
    ensures !Contains(MarkedTags[3], MarkedTags[2]) && !Contains(MarkedTags[3] + Marker, MarkedTags[4])
  {
    var t := MarkedTags;
    FirstCharAbsent(t[3], t[0]);
    FirstCharAbsent(t[3], t[1]);
    FirstCharAbsent(t[3], t[2]);
    FirstCharAbsent(t[3] + Marker, t[4]);
  }

  lemma OnePlayerApart()
    ensures !Contains(MarkedTags[4], MarkedTags[0]) && !Contains(MarkedTags[4], MarkedTags[1])
    ensures !Contains(MarkedTags[4], MarkedTags[2]) && !Contains(MarkedTags[4], MarkedTags[3])
  {
    var t := MarkedTags;
    FirstCharAbsent(t[4], t[0]);
    FirstCharAbsent(t[4], t[1]);
    FirstCharAbsent(t[4], t[2]);
    OnePlayerNotPractice();
  }

  /** The only capital P of "One Player per Job" starts "Player". */
  lemma OnePlayerNotPractice()
    ensures !Contains(MarkedTags[4], MarkedTags[3])
  {
    var s, t := MarkedTags[4], MarkedTags[3];
    assert !OccursAt(s, t, 4) by {
      assert s[4..12][1] != t[1];
    }
    OnlyCandidateAbsent(s, t, 4);
  }

  /** No marked tag contains an earlier one, and no marked tag with its
      marker contains a later one. */
  lemma MarkedTagsApart(i: nat)
    requires i < |MarkedTags|
    ensures forall j :: 0 <= j < i ==> !Contains(MarkedTags[i], MarkedTags[j])
    ensures forall j :: i < j < |MarkedTags| ==> !Contains(MarkedTags[i] + Marker, MarkedTags[j])
  {
    if i == 0 {
      CompletionApart();
    } else if i == 1 {
      CompleteApart();
    } else if i == 2 {
      LootApart();
    } else if i == 3 {
      PracticeApart();
    } else {
      OnePlayerApart();
    }
  }

  /** Each marked tag on its own gets exactly one marker: no replacement
      finds a tag inside another tag or inside an earlier replacement
      ("Duty Complete" and "Duty Completion" differ in their thirteenth
      character, so neither contains the other). */
  lemma FormatTagsMarksTagOnce(i: nat)
    requires i < |MarkedTags|
    ensures FormatTags(MarkedTags[i]) == MarkedTags[i] + Marker
  {
    MarkedTagsApart(i);
    MarkOnly(MarkedTags[i], i);
  }
}
