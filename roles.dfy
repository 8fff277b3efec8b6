/** Party finder slot roles (src/ffxiv/role.js): the roles an open slot
    accepts, compared element by element, shown as one emoji and as text. */
module Roles {
  import opened Common
  import Jobs

  datatype Role = Dps | Healer | Tank | Empty

  /** rolesEqual: same length and the same role at every index, that is,
      the same sequence. */
  function RolesEqual(a: seq<Role>, b: seq<Role>): (r: bool)
    ensures r <==> a == b
  {
    |a| == |b| && forall i :: 0 <= i < |a| ==> a[i] == b[i]
  }

  const DpsEmoji := Jobs.CustomEmoji("dps", "1411018214812680375")
  const HealerEmoji := Jobs.CustomEmoji("healer", "1411018085401497733")
  const TankEmoji := Jobs.CustomEmoji("tank", "1411017963741380689")
  const HealerDpsEmoji := Jobs.CustomEmoji("healerdps", "1411061433218629662")
  const TankDpsEmoji := Jobs.CustomEmoji("tankdps", "1411061132738826280")
  const TankHealerEmoji := Jobs.CustomEmoji("tankhealer", "1411061702916575343")
  const TankHealerDpsEmoji := Jobs.CustomEmoji("tankhealerdps", "1411062576338698304")
  const AnyRoleEmoji := Jobs.CustomEmoji("AnyRole", "1411066540526276619")

  /** The role lists that have an emoji of their own, in the order they
      are tried. */
  const Combinations: seq<seq<Role>> :=
    [[Dps], [Healer], [Tank], [Dps, Healer], [Dps, Tank], [Healer, Tank], [Healer, Tank, Dps]]

  /** Roles.emoji(). */
  function Emoji(roles: seq<Role>): string
  {
    if RolesEqual(roles, [Dps]) then DpsEmoji
    else if RolesEqual(roles, [Healer]) then HealerEmoji
    else if RolesEqual(roles, [Tank]) then TankEmoji
    else if RolesEqual(roles, [Dps, Healer]) then HealerDpsEmoji
    else if RolesEqual(roles, [Dps, Tank]) then TankDpsEmoji
    else if RolesEqual(roles, [Healer, Tank]) then TankHealerEmoji
    else if RolesEqual(roles, [Healer, Tank, Dps]) then TankHealerDpsEmoji
    else AnyRoleEmoji
  }

  /** The eight emoji are told apart by the length of their names, except
      tankdps and AnyRole, which differ in their first letter. */
  lemma EmojisDistinct()
    ensures |DpsEmoji| == 26 && |HealerEmoji| == 29 && |TankEmoji| == 27 && |HealerDpsEmoji| == 32
    ensures |TankDpsEmoji| == 30 && |TankHealerEmoji| == 33 && |TankHealerDpsEmoji| == 36
    ensures |AnyRoleEmoji| == 30 && TankDpsEmoji != AnyRoleEmoji
  {
    assert TankDpsEmoji[2] == 't' && AnyRoleEmoji[2] == 'A';
  }

  /** The seven listed combinations each show their own emoji; every other
      list, the empty one and any order not listed included, shows AnyRole. */
  lemma EmojiSpec(a: seq<Role>, b: seq<Role>)
    ensures Emoji(a) == AnyRoleEmoji <==> a !in Combinations
    ensures a in Combinations && Emoji(a) == Emoji(b) ==> a == b
  {
    EmojisDistinct();
  }

  /** The text each role contributes to toString. */
  function RoleName(r: Role): string
  {
    match r
    case Tank => "Tank"
    case Healer => "Healer"
    case Dps => "DPS"
    case Empty => "Empty"
  }

  function RoleNames(roles: seq<Role>): (names: seq<string>)
    ensures |names| == |roles|
    ensures forall i :: 0 <= i < |roles| ==> names[i] == RoleName(roles[i])
  {
    if roles == [] then [] else [RoleName(roles[0])] + RoleNames(roles[1..])
  }

  /** Roles.toString(): "Any" for no roles, else the names joined by '/'. */
  function ToString(roles: seq<Role>): string
  {
    if |roles| == 0 then "Any" else Join(RoleNames(roles), "/")
  }

  lemma RoleNameSpec(r: Role, q: Role)
    ensures !Contains(RoleName(r), "/")
    ensures RoleName(r) != "Any"
    ensures RoleName(r) == RoleName(q) <==> r == q
  {
    NotContainsChar(RoleName(r), '/');
  }

  /** Text read back: splitting on '/' gives one name per role, in order. */
  lemma ToStringSplits(roles: seq<Role>)
    requires |roles| > 0
    ensures Split(ToString(roles), "/") == RoleNames(roles)
  {
    forall i | 0 <= i < |roles|
      ensures !Contains(RoleNames(roles)[i], "/")
    {
      RoleNameSpec(roles[i], roles[i]);
    }
    SplitJoin(RoleNames(roles), "/");
  }

  /** Distinct role lists read differently, and only the empty list reads "Any". */
  lemma ToStringInjective(a: seq<Role>, b: seq<Role>)
    ensures ToString(a) == "Any" <==> a == []
    ensures ToString(a) == ToString(b) <==> a == b
  {
    if a != [] { RoleEmptyNotAny(a); }
    if b != [] { RoleEmptyNotAny(b); }
    if a != [] && b != [] && ToString(a) == ToString(b) {
      ToStringSplits(a);
      ToStringSplits(b);
      forall i | 0 <= i < |a|
        ensures a[i] == b[i]
      {
        RoleNameSpec(a[i], b[i]);
      }
    }
  }

  lemma RoleEmptyNotAny(b: seq<Role>)
    requires b != []
    ensures ToString(b) != "Any"
  {
    ToStringSplits(b);
    RoleNameSpec(b[0], b[0]);
    if |b| == 1 {
      assert ToString(b) == RoleName(b[0]);
    } else {
      assert |Split(ToString(b), "/")| > 1;
      NoSlashInAny();
    }
  }

  lemma NoSlashInAny()
    ensures Split("Any", "/") == ["Any"]
  {
    NotContainsChar("Any", '/');
  }
}
