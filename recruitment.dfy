/** Recruitment posts (src/discord/recruitment.js): the party-composition
    rules behind the missing-role list and the two join validators, the
    progression roles and channel a post is routed to, the host's listing
    lookup and the job emoji parsing. The manager's state (posts, requests,
    expiry and membership) is RecruitmentBoard. */
module Recruitment {
  import opened Common
  import Jobs
  import Roles
  import PartyFinder

  // ---------------------------------------------------------------------
  // Counting jobs
  // ---------------------------------------------------------------------

  predicate IsTank(j: Jobs.Job) { Jobs.Category(j) == Jobs.TankRole }
  predicate IsHealer(j: Jobs.Job) { Jobs.Category(j) == Jobs.HealerRole }
  predicate IsDps(j: Jobs.Job) { Jobs.Category(j) == Jobs.DpsRole }
  predicate IsUnknownRole(j: Jobs.Job) { Jobs.Category(j) == Jobs.UnknownRole }
  predicate IsPureHealer(j: Jobs.Job) { IsHealer(j) && Jobs.Healer(j) == Jobs.Pure }
  predicate IsShieldHealer(j: Jobs.Job) { IsHealer(j) && Jobs.Healer(j) == Jobs.Shield }
  predicate IsMelee(j: Jobs.Job) { IsDps(j) && Jobs.Subcategory(j) == Jobs.Melee }
  predicate IsCaster(j: Jobs.Job) { IsDps(j) && Jobs.Subcategory(j) == Jobs.Caster }
  predicate IsPranged(j: Jobs.Job) { IsDps(j) && Jobs.Subcategory(j) == Jobs.PhysRanged }

  /** How many of the jobs satisfy p. */
  function Count(jobs: seq<Jobs.Job>, p: Jobs.Job -> bool): nat
  {
    |Filter(jobs, p)|
  }

  lemma CountSnoc(jobs: seq<Jobs.Job>, j: Jobs.Job, p: Jobs.Job -> bool)
    ensures Count(jobs + [j], p) == Count(jobs, p) + (if p(j) then 1 else 0)
  {
    assert (jobs + [j])[..|jobs|] == jobs;
  }

  /** The six tallies the Ultimate/Savage rules and the missing-role list
      keep; a healer without a healer type and a DPS without a
      subcategory add to none of them. */
  datatype Composition = Composition(
    tanks: nat, pureHealers: nat, shieldHealers: nat,
    melee: nat, casters: nat, pranged: nat)

  /** The reference tallies: each one counts the jobs of its own kind. */
  function CompositionOf(jobs: seq<Jobs.Job>): Composition
  {
    Composition(Count(jobs, IsTank), Count(jobs, IsPureHealer), Count(jobs, IsShieldHealer),
                Count(jobs, IsMelee), Count(jobs, IsCaster), Count(jobs, IsPranged))
  }

  /** The tallies after one more job: one more of its kind, if it has one. */
  function Plus(c: Composition, j: Jobs.Job): Composition
  {
    Composition(
      c.tanks + (if IsTank(j) then 1 else 0),
      c.pureHealers + (if IsPureHealer(j) then 1 else 0),
      c.shieldHealers + (if IsShieldHealer(j) then 1 else 0),
      c.melee + (if IsMelee(j) then 1 else 0),
      c.casters + (if IsCaster(j) then 1 else 0),
      c.pranged + (if IsPranged(j) then 1 else 0))
  }

  lemma CompositionSnoc(jobs: seq<Jobs.Job>, j: Jobs.Job)
    ensures CompositionOf(jobs + [j]) == Plus(CompositionOf(jobs), j)
  {
    CountSnoc(jobs, j, IsTank);
    CountSnoc(jobs, j, IsPureHealer);
    CountSnoc(jobs, j, IsShieldHealer);
    CountSnoc(jobs, j, IsMelee);
    CountSnoc(jobs, j, IsCaster);
    CountSnoc(jobs, j, IsPranged);
  }

  /** The switch both tallying loops run on a job: by role category, then
      by healer type or DPS subcategory. */
  method TallyJob(c: Composition, job: Jobs.Job) returns (d: Composition)
    ensures d == Plus(c, job)
  {
    d := c;
    var category := Jobs.Category(job);
    if category == Jobs.TankRole {
      d := d.(tanks := d.tanks + 1);
    } else if category == Jobs.HealerRole {
      if Jobs.Healer(job) == Jobs.Pure {
        d := d.(pureHealers := d.pureHealers + 1);
      } else if Jobs.Healer(job) == Jobs.Shield {
        d := d.(shieldHealers := d.shieldHealers + 1);
      }
    } else if category == Jobs.DpsRole {
      var sub := Jobs.Subcategory(job);
      if sub == Jobs.Melee {
        d := d.(melee := d.melee + 1);
      } else if sub == Jobs.Caster {
        d := d.(casters := d.casters + 1);
      } else if sub == Jobs.PhysRanged {
        d := d.(pranged := d.pranged + 1);
      }
    }
  }

  /** The jobs of the filled slots, in slot order. */
  function FilledJobs(party: seq<PartyFinder.Slot>): (jobs: seq<Jobs.Job>)
    ensures |jobs| <= |party|
  {
    if party == [] then []
    else
      var last := party[|party| - 1];
      FilledJobs(party[..|party| - 1]) + (if last.filled then [last.job] else [])
  }

  lemma FilledJobsStep(party: seq<PartyFinder.Slot>, i: nat)
    requires i < |party|
    ensures FilledJobs(party[..i + 1])
            == FilledJobs(party[..i]) + (if party[i].filled then [party[i].job] else [])
  {
    assert party[..i + 1][..i] == party[..i];
  }

  /** Open slots do not count: giving an open slot any other job, or any
      other open slot, leaves the filled jobs as they were. */
  lemma {:induction false} FilledJobsIgnoreOpenSlots(party: seq<PartyFinder.Slot>, i: nat, s: PartyFinder.Slot)
    requires i < |party| && !party[i].filled && !s.filled
    ensures FilledJobs(party[i := s]) == FilledJobs(party)
    decreases |party|
  {
    var n := |party| - 1;
    var q := party[i := s];
    assert q[..n] == if i < n then party[..n][i := s] else party[..n];
    if i < n {
      FilledJobsIgnoreOpenSlots(party[..n], i, s);
    }
  }

  // ---------------------------------------------------------------------
  // getMissingRoles
  // ---------------------------------------------------------------------

  /** The keys the missing-role object can have. */
  datatype Need = MainTank | OffTank | PureHealerSlot | ShieldHealerSlot | MeleeSlot | CasterSlot | PrangedSlot

  /** The key as the object spells it. */
  function Key(n: Need): string
  {
    match n
    case MainTank => "Main Tank" case OffTank => "Off Tank"
    case PureHealerSlot => "Pure Healer" case ShieldHealerSlot => "Shield Healer"
    case MeleeSlot => "Melee" case CasterSlot => "Caster" case PrangedSlot => "Pranged"
  }

  /** The value stored under each key: the role emoji of the slot. */
  function NeedEmoji(n: Need): string
  {
    match n
    case MainTank | OffTank => Roles.TankEmoji
    case PureHealerSlot | ShieldHealerSlot => Roles.HealerEmoji
    case MeleeSlot | CasterSlot | PrangedSlot => Roles.DpsEmoji
  }

  /** The seven keys are told apart by their lengths. */
  lemma KeyInjective(a: Need, b: Need)
    ensures Key(a) == Key(b) <==> a == b
  {
    assert |Key(a)| == match a
      case MainTank => 9 case OffTank => 8 case PureHealerSlot => 11 case ShieldHealerSlot => 13
      case MeleeSlot => 5 case CasterSlot => 6 case PrangedSlot => 7;
  }

  function TankNeeds(tanks: nat): seq<Need>
  {
    if 2 - tanks > 0 then
      if tanks == 0 then [MainTank] + (if 2 - tanks == 2 then [OffTank] else [])
      else if tanks == 1 then [OffTank]
      else []
    else []
  }

  function Optional(b: bool, n: Need): seq<Need>
  {
    if b then [n] else []
  }

  function HealerNeeds(c: Composition): seq<Need>
  {
    Optional(1 - c.pureHealers > 0, PureHealerSlot) + Optional(1 - c.shieldHealers > 0, ShieldHealerSlot)
  }

  function DpsNeeds(c: Composition): seq<Need>
  {
    Optional(2 - c.melee > 0, MeleeSlot) + Optional(1 - c.casters > 0, CasterSlot)
    + Optional(1 - c.pranged > 0, PrangedSlot)
  }

  /** The keys of the missing-role object for the given tallies, in
      insertion order. */
  function Missing(c: Composition): seq<Need>
  {
    TankNeeds(c.tanks) + HealerNeeds(c) + DpsNeeds(c)
  }

  /** The tally each key is judged by. */
  function Tally(c: Composition, n: Need): nat
  {
    match n
    case MainTank | OffTank => c.tanks
    case PureHealerSlot => c.pureHealers
    case ShieldHealerSlot => c.shieldHealers
    case MeleeSlot => c.melee
    case CasterSlot => c.casters
    case PrangedSlot => c.pranged
  }

  /** The standard party the list fills towards: two tanks (the main tank
      is the first of them), one pure and one shield healer, two melee,
      one caster and one physical ranged. */
  function Threshold(n: Need): nat
  {
    match n
    case OffTank | MeleeSlot => 2
    case _ => 1
  }

  predicate IsTankNeed(n: Need) { n == MainTank || n == OffTank }

  predicate IsHealerNeed(n: Need) { n == PureHealerSlot || n == ShieldHealerSlot }

  lemma TankNeedsSpec(c: Composition, n: Need)
    ensures n in TankNeeds(c.tanks) <==> IsTankNeed(n) && Tally(c, n) < Threshold(n)
  {
  }

  lemma HealerNeedsSpec(c: Composition, n: Need)
    ensures n in HealerNeeds(c) <==> IsHealerNeed(n) && Tally(c, n) < Threshold(n)
  {
  }

  lemma DpsNeedsSpec(c: Composition, n: Need)
    ensures n in DpsNeeds(c) <==> !IsTankNeed(n) && !IsHealerNeed(n) && Tally(c, n) < Threshold(n)
  {
  }

  /** A key is listed exactly when its tally is short of the standard
      party: the main tank only with no tank at all, the off tank with
      fewer than two, melee with fewer than two, every other key when
      its slot is not filled once. */
  lemma MissingSpec(c: Composition, n: Need)
    ensures n in Missing(c) <==> Tally(c, n) < Threshold(n)
  {
    TankNeedsSpec(c, n);
    HealerNeedsSpec(c, n);
    DpsNeedsSpec(c, n);
  }

  /** A post is filled when nothing is missing: at least two tanks, a pure
      and a shield healer, two melee, a caster and a physical ranged. */
  lemma NothingMissing(c: Composition)
    ensures Missing(c) == [] <==>
      c.tanks >= 2 && c.pureHealers >= 1 && c.shieldHealers >= 1
      && c.melee >= 2 && c.casters >= 1 && c.pranged >= 1
  {
  }

  /** getMissingRoles: the tallies of the filled slots, then the entries
      they leave short. */
  method GetMissingRoles(party: seq<PartyFinder.Slot>) returns (missing: seq<Need>)
    ensures missing == Missing(CompositionOf(FilledJobs(party)))
  {
    var c := Composition(0, 0, 0, 0, 0, 0);
    ghost var jobs: seq<Jobs.Job> := [];
    var i := 0;
    while i < |party|
      invariant 0 <= i <= |party|
      invariant jobs == FilledJobs(party[..i])
      invariant c == CompositionOf(jobs)
    {
      var slot := party[i];
      FilledJobsStep(party, i);
      if slot.filled {
        CompositionSnoc(jobs, slot.job);
        jobs := jobs + [slot.job];
        c := TallyJob(c, slot.job);
      } else {
        assert jobs + [] == jobs;
      }
      i := i + 1;
    }
    assert party[..|party|] == party;
    missing := Missing(c);
  }

  // ---------------------------------------------------------------------
  // validateStandardComposition / validateUltimateSavageComposition
  // ---------------------------------------------------------------------

  /** A member of a post: the Discord user and the job they joined as. */
  datatype Member = Member(userId: string, username: string, job: Jobs.Job)

  function MemberJobs(members: seq<Member>): (jobs: seq<Jobs.Job>)
    ensures |jobs| == |members|
    ensures forall i :: 0 <= i < |members| ==> jobs[i] == members[i].job
  {
    seq(|members|, i requires 0 <= i < |members| => members[i].job)
  }

  lemma MemberJobsStep(members: seq<Member>, i: nat)
    requires i < |members|
    ensures MemberJobs(members[..i + 1]) == MemberJobs(members[..i]) + [members[i].job]
  {
  }

  /** Why a join was refused; the message shown for each also lists the
      current tallies. */
  datatype Rejection =
    | TanksFull | HealersFull | DpsFull
    | PureHealerTaken | ShieldHealerTaken
    | MeleeFull | FakeMeleeFull | CastersFull | CasterAfterTwoMelee
    | PrangedTaken | UnknownJobRole

  datatype Verdict = Accepted | Rejected(reason: Rejection)

  /** The tallies of the standard validator: by role category only. */
  datatype RoleCounts = RoleCounts(tanks: nat, healers: nat, dps: nat)

  function RoleCountsOf(jobs: seq<Jobs.Job>): RoleCounts
  {
    RoleCounts(Count(jobs, IsTank), Count(jobs, IsHealer), Count(jobs, IsDps))
  }

  /** The decision validateStandardComposition takes on its tallies. */
  function StandardVerdict(r: RoleCounts, job: Jobs.Job): Verdict
  {
    var category := Jobs.Category(job);
    if category == Jobs.TankRole && r.tanks >= 2 then Rejected(TanksFull)
    else if category == Jobs.HealerRole && r.healers >= 2 then Rejected(HealersFull)
    else if category == Jobs.DpsRole && r.dps >= 4 then Rejected(DpsFull)
    else if category == Jobs.UnknownRole then Rejected(UnknownJobRole)
    else Accepted
  }

  /** validateStandardComposition: tally the members by role category,
      then decide. */
  method ValidateStandardComposition(members: seq<Member>, job: Jobs.Job) returns (v: Verdict)
    ensures v == StandardVerdict(RoleCountsOf(MemberJobs(members)), job)
  {
    var tanks: nat, healers: nat, dps: nat := 0, 0, 0;
    var i := 0;
    while i < |members|
      invariant 0 <= i <= |members|
      invariant RoleCounts(tanks, healers, dps) == RoleCountsOf(MemberJobs(members[..i]))
    {
      var memberJob := members[i].job;
      MemberJobsStep(members, i);
      CountSnoc(MemberJobs(members[..i]), memberJob, IsTank);
      CountSnoc(MemberJobs(members[..i]), memberJob, IsHealer);
      CountSnoc(MemberJobs(members[..i]), memberJob, IsDps);
      var category := Jobs.Category(memberJob);
      if category == Jobs.TankRole {
        tanks := tanks + 1;
      } else if category == Jobs.HealerRole {
        healers := healers + 1;
      } else if category == Jobs.DpsRole {
        dps := dps + 1;
      }
      i := i + 1;
    }
    assert members[..|members|] == members;
    v := StandardVerdict(RoleCounts(tanks, healers, dps), job);
  }

  /** The limits of a standard party: two tanks, two healers, four DPS. */
  predicate StandardWithin(r: RoleCounts)
  {
    r.tanks <= 2 && r.healers <= 2 && r.dps <= 4
  }

  /** On a party within the limits, a job is accepted exactly when it has
      a role and the party with it is still within the limits. */
  lemma StandardVerdictExact(jobs: seq<Jobs.Job>, job: Jobs.Job)
    requires StandardWithin(RoleCountsOf(jobs))
    ensures StandardVerdict(RoleCountsOf(jobs), job) == Accepted
            <==> !IsUnknownRole(job) && StandardWithin(RoleCountsOf(jobs + [job]))
  {
    CountSnoc(jobs, job, IsTank);
    CountSnoc(jobs, job, IsHealer);
    CountSnoc(jobs, job, IsDps);
  }

  /** Every job has exactly one role category. */
  lemma {:induction false} CategoriesPartition(jobs: seq<Jobs.Job>)
    ensures Count(jobs, IsTank) + Count(jobs, IsHealer) + Count(jobs, IsDps) + Count(jobs, IsUnknownRole) == |jobs|
  {
    if jobs != [] {
      var init := jobs[..|jobs| - 1];
      CategoriesPartition(init);
      assert init + [jobs[|jobs| - 1]] == jobs;
      CountSnoc(init, jobs[|jobs| - 1], IsTank);
      CountSnoc(init, jobs[|jobs| - 1], IsHealer);
      CountSnoc(init, jobs[|jobs| - 1], IsDps);
      CountSnoc(init, jobs[|jobs| - 1], IsUnknownRole);
    }
  }

  /** A party of known jobs within the standard limits has at most eight
      members. */
  lemma StandardPartySize(jobs: seq<Jobs.Job>)
    requires StandardWithin(RoleCountsOf(jobs))
    requires forall i :: 0 <= i < |jobs| ==> !IsUnknownRole(jobs[i])
    ensures |jobs| <= 8
  {
    CategoriesPartition(jobs);
    FilterAllNone(jobs, IsUnknownRole);
  }

  /** The decision validateUltimateSavageComposition takes on its tallies. */
  function UltimateVerdict(c: Composition, job: Jobs.Job): Verdict
  {
    var category := Jobs.Category(job);
    if category == Jobs.TankRole then
      if c.tanks >= 2 then Rejected(TanksFull) else Accepted
    else if category == Jobs.HealerRole then
      var healerType := Jobs.Healer(job);
      if healerType == Jobs.Pure && c.pureHealers >= 1 then Rejected(PureHealerTaken)
      else if healerType == Jobs.Shield && c.shieldHealers >= 1 then Rejected(ShieldHealerTaken)
      else Accepted
    else if category == Jobs.DpsRole then
      var sub := Jobs.Subcategory(job);
      if sub == Jobs.Melee then
        if c.melee >= 2 then Rejected(MeleeFull)
        else if c.melee == 1 && c.casters == 2 then Rejected(FakeMeleeFull)
        else Accepted
      else if sub == Jobs.Caster then
        if c.casters >= 2 then Rejected(CastersFull)
        else if c.casters == 1 && c.melee == 2 then Rejected(CasterAfterTwoMelee)
        else Accepted
      else if sub == Jobs.PhysRanged then
        if c.pranged >= 1 then Rejected(PrangedTaken) else Accepted
      else Rejected(UnknownJobRole)
    else Rejected(UnknownJobRole)
  }

  /** validateUltimateSavageComposition: tally the members as the
      missing-role list does, then decide. */
  method ValidateUltimateSavageComposition(members: seq<Member>, job: Jobs.Job) returns (v: Verdict)
    ensures v == UltimateVerdict(CompositionOf(MemberJobs(members)), job)
  {
    var c := Composition(0, 0, 0, 0, 0, 0);
    var i := 0;
    while i < |members|
      invariant 0 <= i <= |members|
      invariant c == CompositionOf(MemberJobs(members[..i]))
    {
      MemberJobsStep(members, i);
      CompositionSnoc(MemberJobs(members[..i]), members[i].job);
      c := TallyJob(c, members[i].job);
      i := i + 1;
    }
    assert members[..|members|] == members;
    v := UltimateVerdict(c, job);
  }

  /** The limits of an Ultimate or Savage party: two tanks, one pure and
      one shield healer, one physical ranged, and three melee or caster
      seats of which at most two are melee and at most two casters (the
      "fake melee" swap). */
  predicate UltimateWithin(c: Composition)
  {
    c.tanks <= 2 && c.pureHealers <= 1 && c.shieldHealers <= 1 && c.pranged <= 1
    && c.melee <= 2 && c.casters <= 2 && c.melee + c.casters <= 3
  }

  /** The jobs the Ultimate/Savage rules know how to seat: every tank and
      healer, and the DPS with a subcategory. */
  predicate HasUltimateSeat(j: Jobs.Job)
  {
    IsTank(j) || IsHealer(j) || IsMelee(j) || IsCaster(j) || IsPranged(j)
  }

  /** On a party within the limits, a job is accepted exactly when it has
      a seat and the party with it is still within the limits;
      admitting one never breaks them. */
  lemma UltimateVerdictExact(jobs: seq<Jobs.Job>, job: Jobs.Job)
    requires UltimateWithin(CompositionOf(jobs))
    ensures UltimateVerdict(CompositionOf(jobs), job) == Accepted
            <==> HasUltimateSeat(job) && UltimateWithin(CompositionOf(jobs + [job]))
  {
    CompositionSnoc(jobs, job);
  }

  /** The fake-melee rule: with one melee and two casters seated another
      melee is refused, and with two melee and one caster another caster
      is, each with its own reason. */
  lemma FakeMeleeRule(c: Composition, job: Jobs.Job)
    ensures IsMelee(job) && c.melee == 1 && c.casters == 2 ==> UltimateVerdict(c, job) == Rejected(FakeMeleeFull)
    ensures IsCaster(job) && c.casters == 1 && c.melee == 2 ==> UltimateVerdict(c, job) == Rejected(CasterAfterTwoMelee)
  {
  }

  /** Posts whose duty mentions an Ultimate or a Savage use the stricter
      rules. */
  predicate UsesUltimateRules(duty: string)
  {
    Contains(Lower(duty), "ultimate") || Contains(Lower(duty), "savage")
  }

  // ---------------------------------------------------------------------
  // getProgressionRoles
  // ---------------------------------------------------------------------

  /** The duties with progression roles, in the order they are tried. */
  datatype Raid = DSR | TOP | FRU | TEA | UWU | UCoB | M12S | M11S | M10S | M9S

  const RaidOrder: seq<Raid> := [DSR, TOP, FRU, TEA, UWU, UCoB, M12S, M11S, M10S, M9S]

  /** The prefix every role of the raid starts with. */
  function RaidName(r: Raid): string
  {
    match r
    case DSR => "DSR" case TOP => "TOP" case FRU => "FRU" case TEA => "TEA" case UWU => "UWU"
    case UCoB => "UCoB" case M12S => "M12S" case M11S => "M11S" case M10S => "M10S" case M9S => "M9S"
  }

  /** Whether the lower-cased duty names the raid: its distinctive words
      for the Ultimates, "heavyweight mN", or "mN" together with
      "savage", for the Savage tiers. */
  predicate NamesRaid(d: string, r: Raid)
  {
    match r
    case DSR => Contains(d, "dragonsong")
    case TOP => Contains(d, "omega protocol")
    case FRU => Contains(d, "futures rewritten")
    case TEA => Contains(d, "epic of alexander")
    case UWU => Contains(d, "weapon's refrain")
    case UCoB => Contains(d, "unending coil")
    case M12S => Contains(d, "heavyweight m4") || (Contains(d, "m4") && Contains(d, "savage"))
    case M11S => Contains(d, "heavyweight m3") || (Contains(d, "m3") && Contains(d, "savage"))
    case M10S => Contains(d, "heavyweight m2") || (Contains(d, "m2") && Contains(d, "savage"))
    case M9S => Contains(d, "heavyweight m1") || (Contains(d, "m1") && Contains(d, "savage"))
  }

  /** The raid of the first branch whose test the duty passes. */
  function DutyRaid(d: string): Option<Raid>
  {
    if NamesRaid(d, DSR) then Some(DSR)
    else if NamesRaid(d, TOP) then Some(TOP)
    else if NamesRaid(d, FRU) then Some(FRU)
    else if NamesRaid(d, TEA) then Some(TEA)
    else if NamesRaid(d, UWU) then Some(UWU)
    else if NamesRaid(d, UCoB) then Some(UCoB)
    else if NamesRaid(d, M12S) then Some(M12S)
    else if NamesRaid(d, M11S) then Some(M11S)
    else if NamesRaid(d, M10S) then Some(M10S)
    else if NamesRaid(d, M9S) then Some(M9S)
    else None
  }

  /** The position of each raid's branch. */
  function Rank(r: Raid): nat
  {
    match r
    case DSR => 0 case TOP => 1 case FRU => 2 case TEA => 3 case UWU => 4
    case UCoB => 5 case M12S => 6 case M11S => 7 case M10S => 8 case M9S => 9
  }

  /** The first branch that matches wins, so a duty naming two raids gets
      the earlier one; a duty naming none gets none. */
  lemma DutyRaidFirst(d: string, q: Raid)
    ensures DutyRaid(d).None? ==> !NamesRaid(d, q)
    ensures DutyRaid(d).Some? ==> NamesRaid(d, DutyRaid(d).value)
    ensures DutyRaid(d).Some? && Rank(q) < Rank(DutyRaid(d).value) ==> !NamesRaid(d, q)
  {
  }

  /** The clear and reclear list of a raid. */
  function ClearRoles(r: Raid): seq<string>
  {
    [RaidName(r) + " Cleared", RaidName(r) + " Reclear", RaidName(r) + " C4X"]
  }

  /** The progression list of a raid, latest phase first. */
  function ProgRoles(r: Raid): (roles: seq<string>)
    ensures |roles| >= 1
  {
    match r
    case DSR => ["DSR P7 Prog (Dragon King)", "DSR P6 Prog (Double Dragons)", "DSR P5 Prog (Thordan II)",
                 "DSR P4 Prog (Eyes)", "DSR P3 Prog (Nidhogg)", "DSR P2 Prog (Thordan)",
                 "DSR P1 Prog (Vault Knights)"]
    case TOP => ["TOP P6 Prog (Alpha Omega)", "TOP P5 Prog (Run Dynamis)", "TOP P4 Prog (Blue Screen)",
                 "TOP P3 Prog (Reconfigured)", "TOP P2 Prog (Omega-M/F)", "TOP P1 Prog (Omega)"]
    case FRU => ["FRU P5 Prog (Pandora)", "FRU P4 Prog (Shiva + Gaia)", "FRU P3 Prog (Oracle of Darkness)",
                 "FRU P2 Prog (Usurper of Frost)", "FRU P1 Prog (Fatebreaker)"]
    case TEA => ["TEA P4 Prog (Perfect Alexander)", "TEA P3 Prog (Alexander Prime)", "TEA P2 Prog (BJ/CC)",
                 "TEA P1 Prog (Living Liquid)"]
    case UWU => ["UWU P4 Prog (Ultima)", "UWU P3 Prog (Titan)", "UWU P2 Prog (Ifrit)", "UWU P1 Prog (Garuda)"]
    case UCoB => ["UCoB P5 Prog (Golden Bahamut)", "UCoB P4 Prog (Adds)", "UCoB P3 Prog (Bahamut Prime)",
                  "UCoB P2 Prog (Nael)", "UCoB P1 Prog (Twintania)"]
    case M12S => ["M12S Prog"]
    case M11S => ["M11S Prog"]
    case M10S => ["M10S Prog"]
    case M9S => ["M9S Prog"]
  }

  /** Tags that mark a clear or loot party. */
  predicate ClearTags(t: string)
  {
    Contains(t, "duty completion") || Contains(t, "loot")
  }

  /** getProgressionRoles: the raid of the duty picks the roles, the tags
      pick between its clear list and its progression list. */
  function ProgressionRoles(duty: string, tags: string): seq<string>
  {
    match DutyRaid(Lower(duty))
    case None => []
    case Some(r) => if ClearTags(Lower(tags)) then ClearRoles(r) else ProgRoles(r)
  }

  /** The tags choose between the two lists of the duty's raid, and only a
      duty naming none of the raids gets no roles. */
  lemma ProgressionRolesSpec(duty: string, tags: string)
    ensures ProgressionRoles(duty, tags) == [] <==> DutyRaid(Lower(duty)).None?
    ensures DutyRaid(Lower(duty)).Some? && ClearTags(Lower(tags))
            ==> ProgressionRoles(duty, tags) == ClearRoles(DutyRaid(Lower(duty)).value)
    ensures DutyRaid(Lower(duty)).Some? && !ClearTags(Lower(tags))
            ==> ProgressionRoles(duty, tags) == ProgRoles(DutyRaid(Lower(duty)).value)
  {
    match DutyRaid(Lower(duty))
    case None =>
    case Some(r) =>
      var roles := if ClearTags(Lower(tags)) then ClearRoles(r) else ProgRoles(r);
      assert |roles| >= 1;
  }

  // ---------------------------------------------------------------------
  // determineRecruitmentChannel
  // ---------------------------------------------------------------------

  /** A configured recruitment channel and its type ("ultimate",
      "savage", "menu", ...). */
  datatype Channel = Channel(id: string, kind: string)

  predicate IsUltimateDuty(duty: string)
  {
    Contains(Lower(duty), "ultimate")
  }

  /** The channel type a duty is routed to first. */
  function PreferredKind(duty: string): string
  {
    if IsUltimateDuty(duty) then "ultimate" else "savage"
  }

  function OfKind(kind: string): Channel -> bool
  {
    (c: Channel) => c.kind == kind
  }

  function NotMenu(): Channel -> bool
  {
    (c: Channel) => c.kind != "menu"
  }

  /** determineRecruitmentChannel: the first channel of the preferred
      type, else the first channel that is not a menu, else ''. */
  function RecruitmentChannel(duty: string, channels: seq<Channel>): string
  {
    match FirstIndex(channels, OfKind(PreferredKind(duty)))
    case Some(k) => channels[k].id
    case None =>
      match FirstIndex(channels, NotMenu())
      case Some(k) => channels[k].id
      case None => ""
  }

  /** The channel chosen is the first of the preferred type when there is
      one, otherwise the first that is not a menu, otherwise none. */
  lemma RecruitmentChannelSpec(duty: string, channels: seq<Channel>, k: nat)
    requires k < |channels|
    ensures channels[k].kind == PreferredKind(duty)
            && (forall j :: 0 <= j < k ==> channels[j].kind != PreferredKind(duty))
            ==> RecruitmentChannel(duty, channels) == channels[k].id
    ensures (forall j :: 0 <= j < |channels| ==> channels[j].kind != PreferredKind(duty))
            && channels[k].kind != "menu"
            && (forall j :: 0 <= j < k ==> channels[j].kind == "menu")
            ==> RecruitmentChannel(duty, channels) == channels[k].id
  {
    var p := FirstIndex(channels, OfKind(PreferredKind(duty)));
    var q := FirstIndex(channels, NotMenu());
    if p.Some? && p.value != k && channels[k].kind == PreferredKind(duty) {
      assert OfKind(PreferredKind(duty))(channels[k]);
    }
    if q.Some? && q.value != k && channels[k].kind != "menu" {
      assert NotMenu()(channels[k]);
    }
  }

  /** With no channel of the preferred type and only menus, there is no
      channel: the result is ''. */
  lemma RecruitmentChannelNone(duty: string, channels: seq<Channel>)
    requires forall j :: 0 <= j < |channels| ==> channels[j].kind == "menu"
    ensures RecruitmentChannel(duty, channels) == ""
  {
    assert PreferredKind(duty) != "menu";
    assert FirstIndex(channels, OfKind(PreferredKind(duty))).None?;
  }

  // ---------------------------------------------------------------------
  // findUserListingInListings
  // ---------------------------------------------------------------------

  /** The creator matches the display name when either, lower-cased,
      contains the other. */
  function CreatorMatches(displayName: string): PartyFinder.Listing -> bool
  {
    (l: PartyFinder.Listing) => Contains(Lower(l.creator), Lower(displayName)) || Contains(Lower(displayName), Lower(l.creator))
  }

  /** findUserListingInListings: no listings give null, otherwise the
      first listing whose creator matches. */
  function FindUserListing(displayName: string, listings: Option<seq<PartyFinder.Listing>>): Option<PartyFinder.Listing>
  {
    match listings
    case None => None
    case Some(ls) =>
      match FirstIndex(ls, CreatorMatches(displayName))
      case None => None
      case Some(k) => Some(ls[k])
  }

  /** The listing found is one whose creator matches and no earlier one
      matches; nothing is found only when no listing matches. An empty
      display name matches the first listing. */
  lemma FindUserListingSpec(displayName: string, ls: seq<PartyFinder.Listing>)
    ensures FindUserListing(displayName, Some(ls)).None?
            <==> forall j :: 0 <= j < |ls| ==> !CreatorMatches(displayName)(ls[j])
    ensures FindUserListing(displayName, Some(ls)).Some? ==>
              exists k :: 0 <= k < |ls| && FindUserListing(displayName, Some(ls)).value == ls[k]
                && CreatorMatches(displayName)(ls[k])
                && forall j :: 0 <= j < k ==> !CreatorMatches(displayName)(ls[j])
    ensures displayName == [] && ls != [] ==> FindUserListing(displayName, Some(ls)) == Some(ls[0])
  {
    if displayName == [] && ls != [] {
      EmptyOccurs(Lower(ls[0].creator));
      assert Lower(displayName) == [];
      assert CreatorMatches(displayName)(ls[0]);
    }
    if FindUserListing(displayName, Some(ls)).Some? {
      var k := FirstIndex(ls, CreatorMatches(displayName)).value;
      assert FindUserListing(displayName, Some(ls)).value == ls[k];
    }
  }

  // ---------------------------------------------------------------------
  // parseCustomEmoji / buildJobComponentEmoji
  // ---------------------------------------------------------------------

  /** The name and id of a custom emoji; both empty when none is found. */
  datatype EmojiParts = EmojiParts(name: string, id: string)

  /** The text between the brackets: the leading '<' dropped, then a
      trailing '>' if there is one. */
  function Unbracketed(s: string): string
    requires s != [] && s[0] == '<'
  {
    var t := s[1..];
    if t != [] && t[|t| - 1] == '>' then t[..|t| - 1] else t
  }

  /** The first two ':'-separated fields, if there are two. */
  function Fields(t: string): EmojiParts
  {
    var parts := Split(t, ":");
    if |parts| < 2 then EmojiParts("", "") else EmojiParts(parts[0], parts[1])
  }

  /** parseCustomEmoji as written: after the brackets it drops a leading
      ':' and then, from what is left, a leading "a:" as well, so a static
      emoji named "a" loses its name. */
  function ParseCustomEmojiAsWritten(s: string): EmojiParts
  {
    if s == [] then EmojiParts("", "")
    else if s[0] != '<' then EmojiParts(s, "")
    else
      var t := Unbracketed(s);
      var t1 := if t != [] && t[0] == ':' then t[1..] else t;
      var t2 := if |t1| >= 2 && t1[..2] == "a:" then t1[2..] else t1;
      Fields(t2)
  }

  /** parseCustomEmoji as intended: one prefix is dropped, the ':' of a
      static emoji or the "a:" of an animated one. */
  function ParseCustomEmoji(s: string): EmojiParts
  {
    if s == [] then EmojiParts("", "")
    else if s[0] != '<' then EmojiParts(s, "")
    else
      var t := Unbracketed(s);
      var t2 := if t != [] && t[0] == ':' then t[1..]
                else if |t| >= 2 && t[..2] == "a:" then t[2..]
                else t;
      Fields(t2)
  }

  /** After a name free of ':' the first field is the name, and the
      second is the id when the id is free of ':' as well. */
  lemma FieldsOfTwo(n: string, i: string)
    requires !Contains(n, ":")
    ensures Fields(n + ":" + i).name == n
    ensures Fields(n + ":" + i).id == Split(i, ":")[0]
    ensures !Contains(i, ":") ==> Fields(n + ":" + i) == EmojiParts(n, i)
  {
    FirstSeparator(n, ":", i);
    var s := n + ":" + i;
    assert s[..|n|] == n && s[|n| + 1..] == i;
    if !Contains(i, ":") {
      assert IndexOf(i, ":").None?;
    }
  }

  /** How both parses read a static emoji, whose inner text starts with ':'. */
  lemma StaticShape(s: string, t: string)
    requires s != [] && s[0] == '<' && Unbracketed(s) == ":" + t
    ensures ParseCustomEmoji(s) == Fields(t)
    ensures ParseCustomEmojiAsWritten(s) == if |t| >= 2 && t[..2] == "a:" then Fields(t[2..]) else Fields(t)
  {
    assert (":" + t)[1..] == t;
  }

  /** How both parses read an animated emoji, whose inner text starts with "a:". */
  lemma AnimatedShape(s: string, t: string)
    requires s != [] && s[0] == '<' && Unbracketed(s) == "a:" + t
    ensures ParseCustomEmoji(s) == Fields(t)
    ensures ParseCustomEmojiAsWritten(s) == Fields(t)
  {
    assert ("a:" + t)[0] == 'a' && ("a:" + t)[..2] == "a:" && ("a:" + t)[2..] == t;
  }

  lemma StaticBody(n: string, i: string)
    ensures var s := "<:" + n + ":" + i + ">"; s != [] && s[0] == '<' && Unbracketed(s) == ":" + (n + ":" + i)
  {
    var s := "<:" + n + ":" + i + ">";
    assert s[1..][..|s| - 2] == ":" + (n + ":" + i);
  }

  lemma AnimatedBody(n: string, i: string)
    ensures var s := "<a:" + n + ":" + i + ">"; s != [] && s[0] == '<' && Unbracketed(s) == "a:" + (n + ":" + i)
  {
    var s := "<a:" + n + ":" + i + ">";
    assert s[1..][..|s| - 2] == "a:" + (n + ":" + i);
  }

  /** After the static ':', text that starts with "a:" comes from the
      name "a" when the name is free of ':'. */
  lemma AnimatedPrefixName(n: string, i: string)
    requires !Contains(n, ":")
    ensures var t := n + ":" + i; |t| >= 2 && t[..2] == "a:" ==> n == "a"
  {
    var t := n + ":" + i;
    FirstSeparator(n, ":", i);
    if |t| >= 2 && t[..2] == "a:" {
      assert t[1..2] == ":" && t[0..1] == "a";
      assert OccursAt(t, ":", 1) && !OccursAt(t, ":", 0);
      assert n == t[..|n|] == t[0..1];
    }
  }

  /** Both parses agree on a static emoji whose name is free of ':' and
      is not "a", and on every animated one whose name is free of ':'. */
  lemma ParseAgrees(n: string, i: string)
    requires !Contains(n, ":")
    ensures n != "a" ==> ParseCustomEmojiAsWritten("<:" + n + ":" + i + ">") == ParseCustomEmoji("<:" + n + ":" + i + ">")
    ensures ParseCustomEmojiAsWritten("<a:" + n + ":" + i + ">") == ParseCustomEmoji("<a:" + n + ":" + i + ">")
  {
    StaticBody(n, i);
    StaticShape("<:" + n + ":" + i + ">", n + ":" + i);
    AnimatedPrefixName(n, i);
    AnimatedBody(n, i);
    AnimatedShape("<a:" + n + ":" + i + ">", n + ":" + i);
  }

  /** The intended parse reads back the name and id of `<:n:i>` and
      `<a:n:i>` whenever neither contains ':'. */
  lemma ParseCustomEmojiRoundTrip(n: string, i: string)
    requires !Contains(n, ":") && !Contains(i, ":")
    ensures ParseCustomEmoji("<:" + n + ":" + i + ">") == EmojiParts(n, i)
    ensures ParseCustomEmoji("<a:" + n + ":" + i + ">") == EmojiParts(n, i)
  {
    FieldsOfTwo(n, i);
    StaticBody(n, i);
    StaticShape("<:" + n + ":" + i + ">", n + ":" + i);
    AnimatedBody(n, i);
    AnimatedShape("<a:" + n + ":" + i + ">", n + ":" + i);
  }

  /** Text that is not bracketed is the name itself, and the empty string
      gives empties. */
  lemma ParseCustomEmojiPlain(s: string)
    requires s == [] || s[0] != '<'
    ensures ParseCustomEmoji(s) == EmojiParts(s, "")
    ensures ParseCustomEmojiAsWritten(s) == EmojiParts(s, "")
  {
  }

  /** Text free of ':' is a single field, so it has no id. */
  lemma OneField(t: string)
    requires !Contains(t, ":")
    ensures Fields(t) == EmojiParts("", "")
  {
    assert IndexOf(t, ":").None?;
  }

  /** A static emoji named "a" loses its name and id as written, while the
      intended parse keeps them: `<:a:123>` is such an input. */
  lemma ParseCustomEmojiNamedA(i: string)
    requires !Contains(i, ":")
    ensures ParseCustomEmojiAsWritten("<:a:" + i + ">") == EmojiParts("", "")
    ensures ParseCustomEmoji("<:a:" + i + ">") == EmojiParts("a", i)
  {
    NotContainsChar("a", ':');
    ParseCustomEmojiRoundTrip("a", i);
    assert "<:a:" + i + ">" == "<:" + "a" + ":" + i + ">";
    StaticBody("a", i);
    var t := "a" + ":" + i;
    StaticShape("<:a:" + i + ">", t);
    assert t[..2] == "a:" && t[2..] == i;
    OneField(i);
  }

  /** buildJobComponentEmoji: the parsed emoji when it has both a name
      and an id, for the select menu. */
  function ComponentEmoji(emoji: string): Option<EmojiParts>
  {
    var parsed := ParseCustomEmoji(emoji);
    if parsed.name == "" || parsed.id == "" then None else Some(parsed)
  }

  /** A custom emoji whose name is free of ':' and is neither empty nor
      "a" is parsed alike both ways and keeps its name; with an id free of
      ':' as well it becomes a select-menu emoji with exactly that name
      and id. */
  lemma ComponentEmojiOf(n: string, i: string)
    requires !Contains(n, ":") && n != "" && n != "a"
    ensures ParseCustomEmojiAsWritten(Jobs.CustomEmoji(n, i)) == ParseCustomEmoji(Jobs.CustomEmoji(n, i))
    ensures ParseCustomEmoji(Jobs.CustomEmoji(n, i)).name == n
    ensures !Contains(i, ":") && i != "" ==> ComponentEmoji(Jobs.CustomEmoji(n, i)) == Some(EmojiParts(n, i))
  {
    assert Jobs.CustomEmoji(n, i) == "<:" + n + ":" + i + ">";
    ParseAgrees(n, i);
    FieldsOfTwo(n, i);
    StaticBody(n, i);
    StaticShape(Jobs.CustomEmoji(n, i), n + ":" + i);
  }

  /** A known job's emoji is parsed alike both ways and keeps the job's
      code as its name. */
  lemma JobComponentEmojiSpec(j: Jobs.Job)
    requires j != Jobs.Unknown
    ensures ParseCustomEmojiAsWritten(Jobs.Emoji(j)) == ParseCustomEmoji(Jobs.Emoji(j))
    ensures ParseCustomEmoji(Jobs.Emoji(j)).name == Jobs.Code(j)
    ensures !Contains(Jobs.EmojiId(j), ":") && Jobs.EmojiId(j) != "" ==> ComponentEmoji(Jobs.Emoji(j)) == Some(EmojiParts(Jobs.Code(j), Jobs.EmojiId(j)))
  {
    var n, i := Jobs.Code(j), Jobs.EmojiId(j);
    assert Jobs.Emoji(j) == Jobs.CustomEmoji(n, i);
    Jobs.FromCodeIff(n, j);
    NotContainsChar(n, ':');
    ComponentEmojiOf(n, i);
  }
}
