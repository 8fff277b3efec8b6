/** How the Tomestone client infers a player's progress in a duty from the
    encounter lists of an activity payload (src/tomestone/tomestone.js,
    getDutyProgress and its label and encounter helpers). All of it is pure:
    labels are normalised, candidate names are matched against the duty and
    the first matching encounter or progression target decides. */
module DutyProgress {
  import opened Common

  // ---------------------------------------------------------------------
  // Labels: normalizeLabel and slugToLabel
  // ---------------------------------------------------------------------

  /** The characters `[a-z0-9]` that survive normalisation. */
  predicate LabelChar(c: char)
  {
    'a' <= c <= 'z' || '0' <= c <= '9'
  }

  /** `replace(/[^a-z0-9]+/g, ' ')`: every maximal run of other characters
      becomes one space, written where the run ends. */
  function Squash(s: string): string
    decreases |s|
  {
    if s == [] then []
    else if LabelChar(s[0]) then [s[0]] + Squash(s[1..])
    else if |s| > 1 && !LabelChar(s[1]) then Squash(s[1..])
    else [' '] + Squash(s[1..])
  }

  /** normalizeLabel: lower-case, collapse separator runs, trim. */
  function NormalizeLabel(value: string): string
  {
    if value == "" then "" else Trim(Squash(Lower(value)))
  }

  predicate IsDash(c: char) { c == '-' || c == '_' }

  /** `replace(/[-_]+/g, ' ')`. */
  function Dashes(s: string): string
    decreases |s|
  {
    if s == [] then []
    else if IsDash(s[0]) then
      (if |s| > 1 && IsDash(s[1]) then Dashes(s[1..]) else [' '] + Dashes(s[1..]))
    else [s[0]] + Dashes(s[1..])
  }

  /** slugToLabel: dashes and underscores become spaces, then normalise. */
  function SlugToLabel(value: string): string
  {
    if value == "" then "" else NormalizeLabel(Dashes(value))
  }

  /** Only `[a-z0-9]` and single spaces. */
  predicate Spaced(r: string)
  {
    (forall i :: 0 <= i < |r| ==> LabelChar(r[i]) || r[i] == ' ')
    && (forall i :: 0 < i < |r| ==> r[i - 1] == ' ' ==> r[i] != ' ')
  }

  /** The shape of every normalised label: words of `[a-z0-9]` separated by
      single spaces, with no space at either end. */
  predicate IsLabel(r: string)
  {
    Spaced(r) && (r == [] || (r[0] != ' ' && r[|r| - 1] != ' '))
  }

  lemma {:induction false} SquashSpaced(s: string)
    ensures Spaced(Squash(s))
    ensures Squash(s) == [] <==> s == []
    ensures s != [] && LabelChar(s[0]) ==> Squash(s)[0] == s[0]
    decreases |s|
  {
    if s != [] {
      var t := s[1..];
      SquashSpaced(t);
      if !LabelChar(s[0]) && !(|s| > 1 && !LabelChar(s[1])) {
        var r := [' '] + Squash(t);
        assert forall i :: 0 < i < |r| ==> r[i] == Squash(t)[i - 1];
      }
    }
  }

  /** A label followed by nothing or by a word is left alone by Squash. */
  lemma {:induction false} SquashFixed(r: string)
    requires Spaced(r) && (r == [] || r[|r| - 1] != ' ')
    ensures Squash(r) == r
    decreases |r|
  {
    if r != [] {
      var t := r[1..];
      assert Spaced(t) by {
        assert forall i :: 0 <= i < |t| ==> t[i] == r[i + 1];
      }
      SquashFixed(t);
      assert r == [r[0]] + t;
    }
  }

  /** Every normalised label has the shape IsLabel. */
  lemma NormalizeLabelShape(value: string)
    ensures IsLabel(NormalizeLabel(value))
  {
    if value != "" {
      var x := Squash(Lower(value));
      SquashSpaced(Lower(value));
      TrimSpec(x);
      var r := Trim(x);
      var i := |x| - |TrimStart(x)|;
      assert forall k :: 0 <= k < |r| ==> r[k] == x[i + k];
    }
  }

  /** A string that already has the shape of a label normalises to itself. */
  lemma NormalizeLabelFixed(r: string)
    requires IsLabel(r)
    ensures NormalizeLabel(r) == r
  {
    if r != "" {
      assert Lower(r) == r;
      SquashFixed(r);
      assert Trimmed(r);
      TrimOfTrimmed(r);
    }
  }

  /** Normalising twice is normalising once. */
  lemma NormalizeLabelIdempotent(value: string)
    ensures NormalizeLabel(NormalizeLabel(value)) == NormalizeLabel(value)
  {
    NormalizeLabelShape(value);
    NormalizeLabelFixed(NormalizeLabel(value));
  }

  lemma SquashCons(c: char, t: string)
    ensures Squash([c] + t)
         == if LabelChar(c) then [c] + Squash(t)
            else if t != [] && !LabelChar(t[0]) then Squash(t)
            else [' '] + Squash(t)
  {
    assert ([c] + t)[1..] == t;
  }

  lemma LowerCons(s: string)
    requires s != []
    ensures Lower(s) == [LowerChar(s[0])] + Lower(s[1..])
  {
  }

  /** Dashes keeps the first character's kind: a label character or not. */
  lemma DashesHead(t: string)
    ensures Dashes(t) == [] <==> t == []
    ensures t != [] ==> (LabelChar(LowerChar(Dashes(t)[0])) <==> LabelChar(LowerChar(t[0])))
  {
  }

  lemma {:induction false} SquashLowerDashes(s: string)
    ensures Squash(Lower(Dashes(s))) == Squash(Lower(s))
    decreases |s|
  {
    if s != [] {
      var t := s[1..];
      SquashLowerDashes(t);
      DashesHead(t);
      LowerCons(s);
      SquashCons(LowerChar(s[0]), Lower(t));
      if IsDash(s[0]) && |s| > 1 && IsDash(s[1]) {
        assert Dashes(s) == Dashes(t);
      } else if IsDash(s[0]) {
        assert Dashes(s) == [' '] + Dashes(t);
        LowerCons(Dashes(s));
        assert Dashes(s)[1..] == Dashes(t);
        SquashCons(' ', Lower(Dashes(t)));
      } else {
        assert Dashes(s) == [s[0]] + Dashes(t);
        LowerCons(Dashes(s));
        assert Dashes(s)[1..] == Dashes(t);
        SquashCons(LowerChar(s[0]), Lower(Dashes(t)));
      }
    }
  }

  /** Dashes and underscores are separators to normalizeLabel already, so
      slugToLabel is normalizeLabel. */
  lemma SlugToLabelIsNormalize(value: string)
    ensures SlugToLabel(value) == NormalizeLabel(value)
  {
    if value != "" {
      SquashLowerDashes(value);
      DashesHead(value);
    }
  }

  // ---------------------------------------------------------------------
  // matchesDuty
  // ---------------------------------------------------------------------

  /** A normalised candidate matches a duty label when it is non-empty and
      equal to it, contains it or is contained in it. */
  predicate LabelMatches(duty: string, normalized: string)
  {
    normalized != "" && (normalized == duty || Contains(normalized, duty) || Contains(duty, normalized))
  }

  /** matchesDuty: missing candidates are "" and are skipped. */
  predicate MatchesDuty(duty: string, candidates: seq<string>)
    decreases |candidates|
  {
    candidates != []
    && (LabelMatches(duty, NormalizeLabel(candidates[0])) || MatchesDuty(duty, candidates[1..]))
  }

  predicate CandidateMatches(duty: string, candidates: seq<string>, i: int)
  {
    0 <= i < |candidates| && LabelMatches(duty, NormalizeLabel(candidates[i]))
  }

  /** matchesDuty holds exactly when some candidate matches. */
  lemma {:induction false} MatchesDutyIff(duty: string, candidates: seq<string>)
    ensures MatchesDuty(duty, candidates) <==> exists i :: CandidateMatches(duty, candidates, i)
    decreases |candidates|
  {
    if candidates != [] {
      var t := candidates[1..];
      MatchesDutyIff(duty, t);
      if LabelMatches(duty, NormalizeLabel(candidates[0])) {
        assert CandidateMatches(duty, candidates, 0);
      }
      if MatchesDuty(duty, t) {
        var i :| CandidateMatches(duty, t, i);
        assert CandidateMatches(duty, candidates, i + 1);
      }
      if exists i :: CandidateMatches(duty, candidates, i) {
        var i :| CandidateMatches(duty, candidates, i);
        if i > 0 { assert CandidateMatches(duty, t, i - 1); }
      }
    }
  }

  /** A candidate whose label is the duty label itself always matches. */
  lemma OwnLabelMatches(duty: string, candidates: seq<string>, i: int)
    requires 0 <= i < |candidates| && NormalizeLabel(candidates[i]) == duty && duty != ""
    ensures MatchesDuty(duty, candidates)
  {
    assert CandidateMatches(duty, candidates, i);
    MatchesDutyIff(duty, candidates);
  }

  /** Blank or separator-only candidates never match. */
  lemma BlankCandidatesNeverMatch(duty: string, candidates: seq<string>)
    requires forall i :: 0 <= i < |candidates| ==> NormalizeLabel(candidates[i]) == ""
    ensures !MatchesDuty(duty, candidates)
  {
    MatchesDutyIff(duty, candidates);
  }

  // ---------------------------------------------------------------------
  // The encounters of an activity payload
  // ---------------------------------------------------------------------

  datatype Category = Ultimate | Savage | Extremes | Criterion | Chaotic | Quantum

  /** An encounter; absent text fields are "". `completed` is whether
      `achievement.completedAt` is set. */
  datatype Encounter = Encounter(name: string, zoneName: string, compactName: string,
                                 activityLink: string, completed: bool)

  /** A progression target; the `encounter` and `zone` query parameters of
      its link are given already decoded ("" when absent). */
  datatype Target = Target(name: string, percent: string, encounterSlug: string, zoneSlug: string)

  /** `encounters`: a list per category (absent when not an array, with
      None for a falsy entry) and a `<category>ProgressionTarget` per
      category (absent when falsy). */
  datatype Encounters = Encounters(lists: map<Category, seq<Option<Encounter>>>,
                                   targets: map<Category, Target>)

  datatype ActivityPayload = ActivityPayload(encounters: Option<Encounters>)

  function EncounterCandidates(e: Encounter): seq<string>
  {
    [e.name, e.zoneName, e.compactName, e.activityLink]
  }

  /** The candidates of a target: its name and its two slugs as labels. */
  function TargetCandidates(t: Target): seq<string>
  {
    [t.name, SlugToLabel(t.encounterSlug), SlugToLabel(t.zoneSlug)]
  }

  /** Some label of `labels` matches one of the encounter's candidates. */
  predicate AnyLabelMatches(labels: seq<string>, e: Encounter)
    decreases |labels|
  {
    labels != [] && (MatchesDuty(labels[0], EncounterCandidates(e)) || AnyLabelMatches(labels[1..], e))
  }

  predicate Hit(list: seq<Option<Encounter>>, labels: seq<string>, k: int)
  {
    0 <= k < |list| && list[k].Some? && AnyLabelMatches(labels, list[k].value)
  }

  /** The first index at or after i whose encounter matches a label. */
  function FirstHit(list: seq<Option<Encounter>>, labels: seq<string>, i: nat): Option<nat>
    decreases |list| - i
  {
    if i >= |list| then None
    else if list[i].Some? && AnyLabelMatches(labels, list[i].value) then Some(i)
    else FirstHit(list, labels, i + 1)
  }

  lemma {:induction false} FirstHitSpec(list: seq<Option<Encounter>>, labels: seq<string>, i: nat)
    ensures var r := FirstHit(list, labels, i);
            (r.Some? ==> i <= r.value && Hit(list, labels, r.value)
                         && forall k :: i <= k < r.value ==> !Hit(list, labels, k))
            && (r.None? ==> forall k :: i <= k < |list| ==> !Hit(list, labels, k))
    decreases |list| - i
  {
    if i < |list| && !(list[i].Some? && AnyLabelMatches(labels, list[i].value)) {
      FirstHitSpec(list, labels, i + 1);
    }
  }

  // ---------------------------------------------------------------------
  // findEncounterMatch
  // ---------------------------------------------------------------------

  /** The order in which findEncounterMatch walks the categories. */
  const GroupOrder: seq<Category> := [Ultimate, Savage, Extremes, Criterion, Chaotic, Quantum]

  datatype EncounterMatch = EncounterMatch(category: Category, encounter: Encounter, index: nat)

  function EncounterList(enc: Encounters, key: Category): seq<Option<Encounter>>
  {
    if key in enc.lists then enc.lists[key] else []
  }

  /** The category `key` holds an encounter matching the duty. */
  predicate GroupHit(enc: Encounters, key: Category, duty: string, k: int)
  {
    Hit(EncounterList(enc, key), [duty], k)
  }

  function SearchGroups(enc: Encounters, duty: string, groups: seq<Category>): Option<EncounterMatch>
    decreases |groups|
  {
    if groups == [] then None
    else
      var list := EncounterList(enc, groups[0]);
      match FirstHit(list, [duty], 0)
      case Some(i) => if i < |list| && list[i].Some? then Some(EncounterMatch(groups[0], list[i].value, i))
                      else SearchGroups(enc, duty, groups[1..])
      case None => SearchGroups(enc, duty, groups[1..])
  }

  /** findEncounterMatch. */
  function FindEncounterMatch(encounters: Option<Encounters>, duty: string): Option<EncounterMatch>
  {
    if encounters.None? || duty == "" then None else SearchGroups(encounters.value, duty, GroupOrder)
  }

  predicate NoGroupHit(enc: Encounters, key: Category, duty: string)
  {
    forall k :: 0 <= k < |EncounterList(enc, key)| ==> !GroupHit(enc, key, duty, k)
  }

  lemma OneLabel(duty: string, e: Encounter)
    ensures AnyLabelMatches([duty], e) <==> MatchesDuty(duty, EncounterCandidates(e))
  {
    assert [duty][1..] == [];
  }

  lemma {:induction false} SearchGroupsSpec(enc: Encounters, duty: string, groups: seq<Category>)
    ensures var r := SearchGroups(enc, duty, groups);
            (r.Some? ==> exists j :: 0 <= j < |groups| && groups[j] == r.value.category
                           && (forall g :: 0 <= g < j ==> NoGroupHit(enc, groups[g], duty))
                           && GroupHit(enc, groups[j], duty, r.value.index)
                           && EncounterList(enc, groups[j])[r.value.index] == Some(r.value.encounter)
                           && forall k :: 0 <= k < r.value.index ==> !GroupHit(enc, groups[j], duty, k))
            && (r.None? ==> forall g :: 0 <= g < |groups| ==> NoGroupHit(enc, groups[g], duty))
    decreases |groups|
  {
    if groups != [] {
      var list := EncounterList(enc, groups[0]);
      FirstHitSpec(list, [duty], 0);
      SearchGroupsSpec(enc, duty, groups[1..]);
      var r := SearchGroups(enc, duty, groups);
      if FirstHit(list, [duty], 0).None? {
        assert NoGroupHit(enc, groups[0], duty);
        if r.Some? {
          var j :| 0 <= j < |groups[1..]| && groups[1..][j] == r.value.category
                   && (forall g :: 0 <= g < j ==> NoGroupHit(enc, groups[1..][g], duty))
                   && GroupHit(enc, groups[1..][j], duty, r.value.index)
                   && EncounterList(enc, groups[1..][j])[r.value.index] == Some(r.value.encounter)
                   && forall k :: 0 <= k < r.value.index ==> !GroupHit(enc, groups[1..][j], duty, k);
          assert groups[j + 1] == r.value.category;
          assert forall g :: 0 <= g < j + 1 ==> NoGroupHit(enc, groups[g], duty) by {
            forall g | 0 < g < j + 1 ensures NoGroupHit(enc, groups[g], duty) {
              assert groups[g] == groups[1..][g - 1];
            }
          }
        } else {
          forall g | 0 < g < |groups| ensures NoGroupHit(enc, groups[g], duty) {
            assert groups[g] == groups[1..][g - 1];
          }
        }
      } else {
        assert r.value.category == groups[0];
      }
    }
  }

  /** findEncounterMatch returns the first matching encounter, the categories
      taken in the order ultimate, savage, extremes, criterion, chaotic,
      quantum and each list in index order; null only when nothing matches. */
  lemma FindEncounterMatchFirst(encounters: Option<Encounters>, duty: string)
    requires encounters.Some? && duty != ""
    ensures var r := FindEncounterMatch(encounters, duty);
            var enc := encounters.value;
            (r.Some? ==> exists j :: 0 <= j < |GroupOrder| && GroupOrder[j] == r.value.category
                           && (forall g :: 0 <= g < j ==> NoGroupHit(enc, GroupOrder[g], duty))
                           && GroupHit(enc, GroupOrder[j], duty, r.value.index)
                           && MatchesDuty(duty, EncounterCandidates(r.value.encounter))
                           && EncounterList(enc, GroupOrder[j])[r.value.index] == Some(r.value.encounter)
                           && forall k :: 0 <= k < r.value.index ==> !GroupHit(enc, GroupOrder[j], duty, k))
            && (r.None? ==> forall g :: 0 <= g < |GroupOrder| ==> NoGroupHit(enc, GroupOrder[g], duty))
  {
    SearchGroupsSpec(encounters.value, duty, GroupOrder);
    var r := FindEncounterMatch(encounters, duty);
    if r.Some? {
      OneLabel(duty, r.value.encounter);
    }
  }

  /** Without encounters or a duty label there is no match. */
  lemma FindEncounterMatchMissing(encounters: Option<Encounters>, duty: string)
    requires encounters.None? || duty == ""
    ensures FindEncounterMatch(encounters, duty).None?
  {
  }

  // ---------------------------------------------------------------------
  // findEncounterIndex, findProgressionTarget, getProgressionTargetForCategory
  // ---------------------------------------------------------------------

  /** The non-empty normalised labels of the truthy candidates, in order. */
  function CandidateLabels(candidates: seq<string>): seq<string>
    decreases |candidates|
  {
    if candidates == [] then []
    else
      var n := NormalizeLabel(candidates[0]);
      (if n != "" then [n] else []) + CandidateLabels(candidates[1..])
  }

  /** findEncounterIndex, with -1 for "not found". */
  function FindEncounterIndex(list: seq<Option<Encounter>>, candidates: seq<string>): int
  {
    if |list| == 0 then -1
    else
      var labels := CandidateLabels(candidates);
      if labels == [] then -1
      else match FirstHit(list, labels, 0)
           case Some(i) => i
           case None => -1
  }

  lemma NoLabelsNoHit(list: seq<Option<Encounter>>, labels: seq<string>, k: int)
    requires labels == []
    ensures !Hit(list, labels, k)
  {
  }

  /** findEncounterIndex is the first index whose encounter matches one of
      the candidate labels, and -1 exactly when there is none. */
  lemma FindEncounterIndexFirst(list: seq<Option<Encounter>>, candidates: seq<string>)
    ensures var r := FindEncounterIndex(list, candidates);
            var labels := CandidateLabels(candidates);
            (r >= 0 ==> Hit(list, labels, r) && forall k :: 0 <= k < r ==> !Hit(list, labels, k))
            && (r == -1 <==> forall k :: 0 <= k < |list| ==> !Hit(list, labels, k))
            && -1 <= r < |list|
  {
    FirstHitSpec(list, CandidateLabels(candidates), 0);
  }

  datatype TargetEntry = TargetEntry(key: Category, target: Target)

  /** The targets present for the given keys, in order. */
  function PresentTargets(enc: Encounters, keys: seq<Category>): (entries: seq<TargetEntry>)
    decreases |keys|
  {
    if keys == [] then []
    else (if keys[0] in enc.targets then [TargetEntry(keys[0], enc.targets[keys[0]])] else [])
         + PresentTargets(enc, keys[1..])
  }

  /** The fixed order of findProgressionTarget after the preferred category:
      there is no criterion entry here. */
  const TargetOrder: seq<Category> := [Savage, Ultimate, Extremes, Chaotic, Quantum]

  /** The targets findProgressionTarget tries: the preferred category's first. */
  function TargetEntries(enc: Encounters, preferred: Option<Category>): seq<TargetEntry>
  {
    PresentTargets(enc, (if preferred.Some? then [preferred.value] else []) + TargetOrder)
  }

  /** Every entry carries the target stored under its key. */
  predicate FromTargets(enc: Encounters, es: seq<TargetEntry>)
  {
    forall i :: 0 <= i < |es| ==> es[i].key in enc.targets && enc.targets[es[i].key] == es[i].target
  }

  /** Every present target among `keys` has an entry. */
  predicate Covers(enc: Encounters, keys: seq<Category>, es: seq<TargetEntry>)
  {
    forall k :: k in keys && k in enc.targets ==> exists i :: 0 <= i < |es| && es[i].key == k
  }

  lemma {:induction false} PresentTargetsSpec(enc: Encounters, keys: seq<Category>)
    ensures FromTargets(enc, PresentTargets(enc, keys))
    ensures Covers(enc, keys, PresentTargets(enc, keys))
    ensures keys != [] && keys[0] in enc.targets
            ==> PresentTargets(enc, keys) != [] && PresentTargets(enc, keys)[0] == TargetEntry(keys[0], enc.targets[keys[0]])
    decreases |keys|
  {
    if keys != [] {
      PresentTargetsSpec(enc, keys[1..]);
      var es := PresentTargets(enc, keys);
      var head := if keys[0] in enc.targets then [TargetEntry(keys[0], enc.targets[keys[0]])] else [];
      var rest := PresentTargets(enc, keys[1..]);
      assert es == head + rest;
      forall k | k in keys && k in enc.targets ensures exists i :: 0 <= i < |es| && es[i].key == k {
        if k == keys[0] {
          assert es[0].key == k;
        } else {
          assert k in keys[1..];
          var i :| 0 <= i < |rest| && rest[i].key == k;
          assert es[|head| + i] == rest[i];
        }
      }
    }
  }

  /** A key that is not asked for is not among the present targets. */
  lemma {:induction false} PresentTargetsOnly(enc: Encounters, keys: seq<Category>, k: Category)
    requires k !in keys
    ensures forall i :: 0 <= i < |PresentTargets(enc, keys)| ==> PresentTargets(enc, keys)[i].key != k
    decreases |keys|
  {
    if keys != [] {
      assert k !in keys[1..];
      PresentTargetsOnly(enc, keys[1..], k);
    }
  }

  /** The targets tried are exactly the present ones among the preferred
      category and savage, ultimate, extremes, chaotic, quantum, the
      preferred one first; a criterion target is tried only when criterion
      is preferred. */
  lemma TargetEntriesOrder(enc: Encounters, preferred: Option<Category>)
    ensures FromTargets(enc, TargetEntries(enc, preferred))
    ensures Covers(enc, TargetOrder, TargetEntries(enc, preferred))
    ensures preferred.Some? && preferred.value in enc.targets
            ==> TargetEntries(enc, preferred) != []
                && TargetEntries(enc, preferred)[0] == TargetEntry(preferred.value, enc.targets[preferred.value])
    ensures preferred != Some(Criterion)
            ==> forall i :: 0 <= i < |TargetEntries(enc, preferred)| ==> TargetEntries(enc, preferred)[i].key != Criterion
  {
    var keys := (if preferred.Some? then [preferred.value] else []) + TargetOrder;
    PresentTargetsSpec(enc, keys);
    assert forall k :: k in TargetOrder ==> k in keys;
    if preferred != Some(Criterion) {
      assert Criterion !in TargetOrder;
      PresentTargetsOnly(enc, keys, Criterion);
    }
  }

  datatype TargetMatch = TargetMatch(category: Category, target: Target, index: int)

  function SearchTargets(enc: Encounters, duty: string, entries: seq<TargetEntry>): Option<TargetMatch>
    decreases |entries|
  {
    if entries == [] then None
    else
      var e := entries[0];
      var candidates := TargetCandidates(e.target);
      if MatchesDuty(duty, candidates)
      then Some(TargetMatch(e.key, e.target, FindEncounterIndex(EncounterList(enc, e.key), candidates)))
      else SearchTargets(enc, duty, entries[1..])
  }

  /** findProgressionTarget. */
  function FindProgressionTarget(encounters: Option<Encounters>, duty: string,
                                 preferred: Option<Category>): Option<TargetMatch>
  {
    if encounters.None? || duty == "" then None
    else SearchTargets(encounters.value, duty, TargetEntries(encounters.value, preferred))
  }

  predicate EntryMatches(duty: string, entries: seq<TargetEntry>, i: int)
  {
    0 <= i < |entries| && MatchesDuty(duty, TargetCandidates(entries[i].target))
  }

  lemma {:induction false} SearchTargetsSpec(enc: Encounters, duty: string, entries: seq<TargetEntry>)
    ensures var r := SearchTargets(enc, duty, entries);
            (r.Some? ==> exists i :: EntryMatches(duty, entries, i)
                           && entries[i] == TargetEntry(r.value.category, r.value.target)
                           && r.value.index == FindEncounterIndex(EncounterList(enc, r.value.category),
                                                                  TargetCandidates(r.value.target))
                           && forall k :: 0 <= k < i ==> !EntryMatches(duty, entries, k))
            && (r.None? ==> forall k :: !EntryMatches(duty, entries, k))
    decreases |entries|
  {
    if entries != [] && !MatchesDuty(duty, TargetCandidates(entries[0].target)) {
      var t := entries[1..];
      SearchTargetsSpec(enc, duty, t);
      var r := SearchTargets(enc, duty, entries);
      if r.Some? {
        var i :| EntryMatches(duty, t, i) && t[i] == TargetEntry(r.value.category, r.value.target)
                 && r.value.index == FindEncounterIndex(EncounterList(enc, r.value.category),
                                                        TargetCandidates(r.value.target))
                 && forall k :: 0 <= k < i ==> !EntryMatches(duty, t, k);
        assert EntryMatches(duty, entries, i + 1);
        forall k | 0 <= k < i + 1 ensures !EntryMatches(duty, entries, k) {
          if k > 0 { assert !EntryMatches(duty, t, k - 1); }
        }
      } else {
        forall k ensures !EntryMatches(duty, entries, k) {
          if 0 < k < |entries| { assert !EntryMatches(duty, t, k - 1); }
        }
      }
    } else if entries != [] {
      assert EntryMatches(duty, entries, 0);
    }
  }

  /** findProgressionTarget returns the first tried target whose candidates
      match the duty, together with the index of the encounter it points at
      in its own category's list. */
  lemma FindProgressionTargetFirst(encounters: Option<Encounters>, duty: string, preferred: Option<Category>)
    requires encounters.Some? && duty != ""
    ensures var es := TargetEntries(encounters.value, preferred);
            var r := FindProgressionTarget(encounters, duty, preferred);
            (r.Some? ==> exists i :: EntryMatches(duty, es, i)
                           && es[i] == TargetEntry(r.value.category, r.value.target)
                           && r.value.index == FindEncounterIndex(EncounterList(encounters.value, r.value.category),
                                                                  TargetCandidates(r.value.target))
                           && forall k :: 0 <= k < i ==> !EntryMatches(duty, es, k))
            && (r.None? ==> forall k :: !EntryMatches(duty, es, k))
  {
    SearchTargetsSpec(encounters.value, duty, TargetEntries(encounters.value, preferred));
  }

  /** getProgressionTargetForCategory: the category's target, if present,
      with the index of the encounter it points at. */
  function GetProgressionTargetForCategory(encounters: Option<Encounters>, key: Category): (r: Option<TargetMatch>)
    ensures r.Some? <==> encounters.Some? && key in encounters.value.targets
    ensures r.Some? ==> r.value.category == key && r.value.target == encounters.value.targets[key]
  {
    if encounters.None? then None
    else if key !in encounters.value.targets then None
    else
      var target := encounters.value.targets[key];
      var candidates := TargetCandidates(target);
      Some(TargetMatch(key, target, FindEncounterIndex(EncounterList(encounters.value, key), candidates)))
  }

  // ---------------------------------------------------------------------
  // formatProgress and getDutyProgress
  // ---------------------------------------------------------------------

  const Cleared: string := "\U{2705} Cleared"
  const NotCleared: string := "Not Cleared"
  const ProgressPrefix: string := "Progress: "

  /** formatProgress. */
  function FormatProgress(target: Option<Target>): string
  {
    if target.None? then NotCleared
    else
      var percent := Trim(target.value.percent);
      var name := Trim(target.value.name);
      if name != "" && percent != "" then ProgressPrefix + name + " " + percent
      else if percent != "" then ProgressPrefix + percent
      else if name != "" then ProgressPrefix + name
      else NotCleared
  }

  /** formatProgress says "Not Cleared" exactly when there is no target or
      both its (trimmed) name and percent are blank; otherwise it reports
      the name, then the percent, after "Progress: ". */
  lemma FormatProgressSpec(target: Option<Target>)
    ensures var r := FormatProgress(target);
            (r == NotCleared <==> target.None? || (Trim(target.value.name) == "" && Trim(target.value.percent) == ""))
            && (r != NotCleared ==>
                  (r[..|ProgressPrefix|] == ProgressPrefix
                   && var name := Trim(target.value.name);
                      var percent := Trim(target.value.percent);
                      r[|ProgressPrefix|..] == name + (if name != "" && percent != "" then " " else "") + percent))
            && r != Cleared
  {
    var r := FormatProgress(target);
    if target.Some? && (Trim(target.value.name) != "" || Trim(target.value.percent) != "") {
      assert r[0] == 'P' != NotCleared[0];
      assert r[..|ProgressPrefix|] == ProgressPrefix;
    }
  }

  /** getDutyProgress. None is null. */
  function GetDutyProgress(payload: Option<ActivityPayload>, dutyName: string): Option<string>
  {
    if payload.None? || dutyName == "" then None
    else
      var duty := NormalizeLabel(dutyName);
      if duty == "" then None
      else
        var encounters := payload.value.encounters;
        var encounterMatch := FindEncounterMatch(encounters, duty);
        if encounterMatch.Some? && encounterMatch.value.encounter.completed then Some(Cleared)
        else
          var preferred := if encounterMatch.Some? then Some(encounterMatch.value.category) else None;
          var targetMatch := FindProgressionTarget(encounters, duty, preferred);
          var categoryTarget := if encounterMatch.Some?
                                then GetProgressionTargetForCategory(encounters, encounterMatch.value.category)
                                else None;
          if categoryTarget.Some? && categoryTarget.value.index >= 0
             && categoryTarget.value.index > encounterMatch.value.index then Some(Cleared)
          else if categoryTarget.Some? && categoryTarget.value.index >= 0
             && categoryTarget.value.index == encounterMatch.value.index
          then Some(FormatProgress(Some(categoryTarget.value.target)))
          else if targetMatch.Some? then Some(FormatProgress(Some(targetMatch.value.target)))
          else if encounterMatch.Some? then Some(NotCleared)
          else None
  }

  /** The answer is null exactly when there is no payload, the duty name
      normalises to nothing, or neither an encounter nor a progression
      target matches the duty. */
  lemma DutyProgressNull(payload: Option<ActivityPayload>, dutyName: string)
    ensures GetDutyProgress(payload, dutyName).None?
        <==> payload.None? || NormalizeLabel(dutyName) == ""
             || (FindEncounterMatch(payload.value.encounters, NormalizeLabel(dutyName)).None?
                 && FindProgressionTarget(payload.value.encounters, NormalizeLabel(dutyName), None).None?)
  {
  }

  /** "Cleared" is reported exactly when the matched encounter has a
      completion date, or when the progression target of its category
      points at a later encounter of the same list. */
  lemma DutyProgressCleared(payload: Option<ActivityPayload>, dutyName: string)
    requires payload.Some? && NormalizeLabel(dutyName) != ""
    ensures var encounters := payload.value.encounters;
            var m := FindEncounterMatch(encounters, NormalizeLabel(dutyName));
            GetDutyProgress(payload, dutyName) == Some(Cleared)
            <==> m.Some? && (m.value.encounter.completed
                             || (var ct := GetProgressionTargetForCategory(encounters, m.value.category);
                                 ct.Some? && ct.value.index > m.value.index))
  {
    var duty := NormalizeLabel(dutyName);
    var encounters := payload.value.encounters;
    var m := FindEncounterMatch(encounters, duty);
    if m.Some? {
      var ct := GetProgressionTargetForCategory(encounters, m.value.category);
      if ct.Some? { FormatProgressSpec(Some(ct.value.target)); }
    }
    var tm := FindProgressionTarget(encounters, duty, if m.Some? then Some(m.value.category) else None);
    if tm.Some? { FormatProgressSpec(Some(tm.value.target)); }
  }

  /** When the category's progression target points at the matched
      encounter itself (and it has no completion date), that target's
      progress is reported, ahead of any other matching target. */
  lemma DutyProgressAtTarget(payload: Option<ActivityPayload>, dutyName: string)
    requires payload.Some? && NormalizeLabel(dutyName) != ""
    requires var m := FindEncounterMatch(payload.value.encounters, NormalizeLabel(dutyName));
             m.Some? && !m.value.encounter.completed
             && var ct := GetProgressionTargetForCategory(payload.value.encounters, m.value.category);
                ct.Some? && ct.value.index == m.value.index
    ensures var m := FindEncounterMatch(payload.value.encounters, NormalizeLabel(dutyName));
            GetDutyProgress(payload, dutyName)
              == Some(FormatProgress(Some(payload.value.encounters.value.targets[m.value.category])))
  {
  }

  /** Otherwise the first progression target that matches the duty decides,
      the matched encounter's category tried first; an encounter matched
      without any such target is "Not Cleared". */
  lemma DutyProgressByTarget(payload: Option<ActivityPayload>, dutyName: string)
    requires payload.Some? && NormalizeLabel(dutyName) != ""
    requires var m := FindEncounterMatch(payload.value.encounters, NormalizeLabel(dutyName));
             m.Some? ==> !m.value.encounter.completed
                         && var ct := GetProgressionTargetForCategory(payload.value.encounters, m.value.category);
                            !(ct.Some? && ct.value.index >= m.value.index)
    ensures var duty := NormalizeLabel(dutyName);
            var encounters := payload.value.encounters;
            var m := FindEncounterMatch(encounters, duty);
            var tm := FindProgressionTarget(encounters, duty, if m.Some? then Some(m.value.category) else None);
            GetDutyProgress(payload, dutyName)
              == if tm.Some? then Some(FormatProgress(Some(tm.value.target)))
                 else if m.Some? then Some(NotCleared) else None
  {
  }

  /** Every answer is "Cleared", "Not Cleared" or a "Progress: " line. */
  lemma DutyProgressOutcomes(payload: Option<ActivityPayload>, dutyName: string)
    ensures var r := GetDutyProgress(payload, dutyName);
            r.Some? ==> r.value == Cleared || r.value == NotCleared
                        || (|r.value| >= |ProgressPrefix| && r.value[..|ProgressPrefix|] == ProgressPrefix)
  {
    var r := GetDutyProgress(payload, dutyName);
    if r.Some? && r.value != Cleared && r.value != NotCleared {
      var duty := NormalizeLabel(dutyName);
      var encounters := payload.value.encounters;
      var m := FindEncounterMatch(encounters, duty);
      if m.Some? {
        var ct := GetProgressionTargetForCategory(encounters, m.value.category);
        if ct.Some? { FormatProgressSpec(Some(ct.value.target)); }
      }
      var tm := FindProgressionTarget(encounters, duty, if m.Some? then Some(m.value.category) else None);
      if tm.Some? { FormatProgressSpec(Some(tm.value.target)); }
    }
  }
}
