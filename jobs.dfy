/** Final Fantasy XIV jobs (src/ffxiv/job.js): the job codes the party
    finder shows, their emoji, and the role, healer type and DPS
    subcategory tables the recruitment rules are built on. */
module Jobs {
  import opened Common

  /** Every code of the emoji table; Unknown stands for any other input. */
  datatype Job =
    | GNB | PLD | GLD | DRK | WAR | MRD
    | SCH | ACN | SGE | AST | WHM | CNJ
    | SAM | DRG | NIN | MNK | RPR | VPR
    | BRD | MCH | DNC
    | BLM | BLU | SMN | PCT | RDM
    | LNC | PUG | ROG | THM | ARC
    | Unknown

  datatype RoleCategory = TankRole | HealerRole | DpsRole | UnknownRole

  datatype HealerType = NoHealerType | Pure | Shield

  datatype DpsSubcategory = NoSubcategory | Melee | PhysRanged | Caster

  /** job.abbreviation(): the code as the table spells it. */
  function Code(j: Job): string
  {
    match j
    case GNB => "GNB" case PLD => "PLD" case GLD => "GLD" case DRK => "DRK" case WAR => "WAR"
    case MRD => "MRD" case SCH => "SCH" case ACN => "ACN" case SGE => "SGE" case AST => "AST"
    case WHM => "WHM" case CNJ => "CNJ" case SAM => "SAM" case DRG => "DRG" case NIN => "NIN"
    case MNK => "MNK" case RPR => "RPR" case VPR => "VPR" case BRD => "BRD" case MCH => "MCH"
    case DNC => "DNC" case BLM => "BLM" case BLU => "BLU" case SMN => "SMN" case PCT => "PCT"
    case RDM => "RDM" case LNC => "LNC" case PUG => "PUG" case ROG => "ROG" case THM => "THM"
    case ARC => "ARC" case Unknown => "Unknown"
  }

  /** The lookup `JOB_EMOJIS[code]` for the upper-cased codes: None when
      the code is not a key. ("Unknown" is a key too, but no upper-cased
      string can spell it.) */
  function FromCode(code: string): Option<Job>
  {
    match code
    case "GNB" => Some(GNB) case "PLD" => Some(PLD) case "GLD" => Some(GLD) case "DRK" => Some(DRK)
    case "WAR" => Some(WAR) case "MRD" => Some(MRD) case "SCH" => Some(SCH) case "ACN" => Some(ACN)
    case "SGE" => Some(SGE) case "AST" => Some(AST) case "WHM" => Some(WHM) case "CNJ" => Some(CNJ)
    case "SAM" => Some(SAM) case "DRG" => Some(DRG) case "NIN" => Some(NIN) case "MNK" => Some(MNK)
    case "RPR" => Some(RPR) case "VPR" => Some(VPR) case "BRD" => Some(BRD) case "MCH" => Some(MCH)
    case "DNC" => Some(DNC) case "BLM" => Some(BLM) case "BLU" => Some(BLU) case "SMN" => Some(SMN)
    case "PCT" => Some(PCT) case "RDM" => Some(RDM) case "LNC" => Some(LNC) case "PUG" => Some(PUG)
    case "ROG" => Some(ROG) case "THM" => Some(THM) case "ARC" => Some(ARC)
    case _ => None
  }

  /** Job.fromAbbreviation: trimmed and upper-cased, a known code or Unknown. */
  function FromAbbreviation(abbrev: string): Job
  {
    if abbrev == "" then Unknown
    else match FromCode(Upper(Trim(abbrev)))
         case Some(j) => j
         case None => Unknown
  }

  /** A job code as the table spells it: three capital letters. */
  predicate CapitalCode(c: string)
  {
    |c| == 3 && forall k :: 0 <= k < 3 ==> 'A' <= c[k] <= 'Z'
  }

  lemma TankCodes(code: string, j: Job)
    requires j == GNB || j == PLD || j == GLD || j == DRK || j == WAR || j == MRD
    ensures CapitalCode(Code(j))
    ensures FromCode(code) == Some(j) <==> code == Code(j)
  {
  }

  lemma HealerCodes(code: string, j: Job)
    requires j == SCH || j == ACN || j == SGE || j == AST || j == WHM || j == CNJ
    ensures CapitalCode(Code(j))
    ensures FromCode(code) == Some(j) <==> code == Code(j)
  {
  }

  lemma MeleeCodes(code: string, j: Job)
    requires j == SAM || j == DRG || j == NIN || j == MNK || j == RPR || j == VPR
    ensures CapitalCode(Code(j))
    ensures FromCode(code) == Some(j) <==> code == Code(j)
  {
  }

  lemma RangedCodes(code: string, j: Job)
    requires j == BRD || j == MCH || j == DNC
    ensures CapitalCode(Code(j))
    ensures FromCode(code) == Some(j) <==> code == Code(j)
  {
  }

  lemma CasterCodes(code: string, j: Job)
    requires j == BLM || j == BLU || j == SMN || j == PCT || j == RDM
    ensures CapitalCode(Code(j))
    ensures FromCode(code) == Some(j) <==> code == Code(j)
  {
  }

  lemma BaseClassCodes(code: string, j: Job)
    requires j == LNC || j == PUG || j == ROG || j == THM || j == ARC
    ensures CapitalCode(Code(j))
    ensures FromCode(code) == Some(j) <==> code == Code(j)
  {
  }

  lemma NeverUnknown(code: string)
    ensures FromCode(code) != Some(Unknown)
  {
  }

  /** The lookup is exact: it finds a job precisely for that job's code, and
      every code is three capital letters. */
  lemma FromCodeIff(code: string, j: Job)
    requires j != Unknown
    ensures CapitalCode(Code(j))
    ensures FromCode(code) == Some(j) <==> code == Code(j)
  {
    match j
    case GNB | PLD | GLD | DRK | WAR | MRD => TankCodes(code, j);
    case SCH | ACN | SGE | AST | WHM | CNJ => HealerCodes(code, j);
    case SAM | DRG | NIN | MNK | RPR | VPR => MeleeCodes(code, j);
    case BRD | MCH | DNC => RangedCodes(code, j);
    case BLM | BLU | SMN | PCT | RDM => CasterCodes(code, j);
    case LNC | PUG | ROG | THM | ARC => BaseClassCodes(code, j);
  }

  /** A lookup hit names a job whose code is exactly the key. */
  lemma FromCodeSpec(code: string)
    ensures FromCode(code).Some? ==> FromCode(code).value != Unknown && Code(FromCode(code).value) == code
  {
    NeverUnknown(code);
    if FromCode(code).Some? {
      FromCodeIff(code, FromCode(code).value);
    }
  }

  /** Capital codes survive trim and upper-casing, and lower-casing is undone. */
  lemma CapitalCodeFixed(c: string)
    requires CapitalCode(c)
    ensures Trim(c) == c && Upper(c) == c
    ensures Trim(Lower(c)) == Lower(c) && Upper(Lower(c)) == c
  {
    assert Trimmed(c);
    TrimOfTrimmed(c);
    var l := Lower(c);
    assert Trimmed(l);
    TrimOfTrimmed(l);
  }

  /** fromAbbreviation gives the job whose code is the trimmed, upper-cased
      input, and Unknown exactly when there is none. */
  lemma FromAbbreviationSpec(abbrev: string, j: Job)
    requires j != Unknown
    ensures FromAbbreviation(abbrev) == j <==> Upper(Trim(abbrev)) == Code(j)
    ensures FromAbbreviation(abbrev) == Unknown <==> FromCode(Upper(Trim(abbrev))).None?
  {
    FromCodeSpec(Upper(Trim(abbrev)));
    FromCodeIff(Upper(Trim(abbrev)), j);
    if abbrev == "" {
      assert Trim(abbrev) == "";
      assert Upper("") == "";
    }
  }

  /** Every known code, in upper or lower case, maps back to its job. */
  lemma FromAbbreviationOfCode(j: Job)
    requires j != Unknown
    ensures FromAbbreviation(Code(j)) == j
    ensures FromAbbreviation(Lower(Code(j))) == j
  {
    FromCodeIff(Code(j), j);
    CapitalCodeFixed(Code(j));
  }

  /** The numeric part of each known job's custom emoji. */
  function EmojiId(j: Job): string
  {
    match j
    case GNB => "1411014750535553024" case PLD => "1410947608796594216"
    case GLD => "1411074262931869828" case DRK => "1410972931298820269"
    case WAR => "1411014674094227649" case MRD => "1411074307664117821"
    case SCH => "1410972677698486363" case ACN => "1411070594631467200"
    case SGE => "1410972302744752218" case AST => "1410972495930069004"
    case WHM => "1410947840233963525" case CNJ => "1411074378527014983"
    case SAM => "1411015447926673468" case DRG => "1411015869772992623"
    case NIN => "1411015531837919323" case MNK => "1411015094954889362"
    case RPR => "1411015977042186301" case VPR => "1411014999853367316"
    case BRD => "1411016172421255198" case MCH => "1411016234870374470"
    case DNC => "1411016288871907338" case BLM => "1411016665159696394"
    case BLU => "1411017674586329108" case SMN => "1411017128332497011"
    case PCT => "1411016930579710073" case RDM => "1411017043083264010"
    case LNC => "1411069704390316034" case PUG => "1411069818819575969"
    case ROG => "1411070493674438696" case THM => "1411070548414300170"
    case ARC => "1411075009278906470"
    case Unknown => "1411073434422612160"
  }

  /** A Discord custom emoji `<:name:id>`. */
  function CustomEmoji(name: string, id: string): string
  {
    "<:" + name + ":" + id + ">"
  }

  /** The name of a custom emoji can be read back from between the colons. */
  lemma CustomEmojiName(n1: string, i1: string, n2: string, i2: string)
    requires |n1| == |n2|
    ensures CustomEmoji(n1, i1) == CustomEmoji(n2, i2) ==> n1 == n2
  {
    if CustomEmoji(n1, i1) == CustomEmoji(n2, i2) {
      assert CustomEmoji(n1, i1)[2..2 + |n1|] == n1;
      assert CustomEmoji(n2, i2)[2..2 + |n2|] == n2;
    }
  }

  const UnknownEmoji: string := CustomEmoji("DOH", "1411073434422612160")

  /** job.emoji(): the table entry of the job's own code; only the Unknown
      entry is the DOH emoji. */
  function Emoji(j: Job): string
  {
    if j == Unknown then UnknownEmoji else CustomEmoji(Code(j), EmojiId(j))
  }

  /** Only Unknown falls back to the DOH emoji. */
  lemma EmojiFallback(j: Job)
    ensures Emoji(j) == UnknownEmoji <==> j == Unknown
  {
    if j != Unknown {
      FromCodeIff(Code(j), j);
      FromCodeIff("DOH", j);
      assert FromCode("DOH") == None;
      CustomEmojiName(Code(j), EmojiId(j), "DOH", "1411073434422612160");
    }
  }

  /** No two jobs share an emoji. */
  lemma EmojiInjective(a: Job, b: Job)
    ensures Emoji(a) == Emoji(b) <==> a == b
  {
    EmojiFallback(a);
    EmojiFallback(b);
    if a != Unknown && b != Unknown {
      FromCodeIff(Code(a), a);
      FromCodeIff(Code(a), b);
      FromCodeIff(Code(b), b);
      CustomEmojiName(Code(a), EmojiId(a), Code(b), EmojiId(b));
    }
  }

  /** job.roleCategory(). */
  function Category(j: Job): RoleCategory
  {
    match j
    case GNB | PLD | GLD | DRK | WAR | MRD => TankRole
    case SCH | ACN | SGE | AST | WHM | CNJ => HealerRole
    case SAM | DRG | NIN | MNK | RPR | VPR | LNC | PUG | ROG
       | BRD | MCH | DNC | ARC | BLM | BLU | SMN | PCT | RDM | THM => DpsRole
    case Unknown => UnknownRole
  }

  /** job.healerType(). */
  function Healer(j: Job): HealerType
  {
    match j
    case WHM | AST => Pure
    case SCH | SGE => Shield
    case _ => NoHealerType
  }

  /** job.dpsSubcategory(). */
  function Subcategory(j: Job): DpsSubcategory
  {
    match j
    case SAM | DRG | NIN | MNK | RPR | VPR => Melee
    case BRD | MCH | DNC => PhysRanged
    case BLM | BLU | SMN | PCT | RDM => Caster
    case _ => NoSubcategory
  }

  /** A healer type is only ever given to healers, and a DPS subcategory
      only to DPS; the base classes (ACN, CNJ; LNC, PUG, ROG, ARC, THM)
      have none. */
  lemma TablesConsistent(j: Job)
    ensures Healer(j) != NoHealerType ==> Category(j) == HealerRole
    ensures Subcategory(j) != NoSubcategory ==> Category(j) == DpsRole
    ensures Category(j) == UnknownRole <==> j == Unknown
    ensures Category(j) == HealerRole && Healer(j) == NoHealerType <==> j == ACN || j == CNJ
    ensures Category(j) == DpsRole && Subcategory(j) == NoSubcategory
            <==> j == LNC || j == PUG || j == ROG || j == ARC || j == THM
  {
  }

  datatype JobGroup = TankGroup | HealerGroup | MeleeGroup | RangedGroup | CasterGroup

  /** The label getAllJobs keys each group by. */
  function GroupName(g: JobGroup): string
  {
    match g
    case TankGroup => "Tank" case HealerGroup => "Healer" case MeleeGroup => "Melee DPS"
    case RangedGroup => "Ranged DPS" case CasterGroup => "Caster DPS"
  }

  /** Job.getAllJobs: the jobs offered when joining, by group. */
  function AllJobs(g: JobGroup): seq<Job>
  {
    match g
    case TankGroup => [GNB, PLD, DRK, WAR]
    case HealerGroup => [WHM, SCH, AST, SGE]
    case MeleeGroup => [SAM, DRG, NIN, MNK, RPR, VPR]
    case RangedGroup => [BRD, MCH, DNC]
    case CasterGroup => [BLM, SMN, RDM, PCT]
  }

  /** The role a job offered under a group must have. */
  predicate BelongsTo(j: Job, g: JobGroup)
  {
    match g
    case TankGroup => Category(j) == TankRole
    case HealerGroup => Category(j) == HealerRole && Healer(j) != NoHealerType
    case MeleeGroup => Subcategory(j) == Melee
    case RangedGroup => Subcategory(j) == PhysRanged
    case CasterGroup => Subcategory(j) == Caster
  }

  /** Every offered job matches its group: its role, and for healers a
      healer type, for DPS the group's subcategory. */
  lemma AllJobsClassified(g: JobGroup)
    ensures forall i :: 0 <= i < |AllJobs(g)| ==> BelongsTo(AllJobs(g)[i], g) && AllJobs(g)[i] != Unknown
  {
  }
}
