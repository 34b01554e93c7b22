/** A character ("general"): kingdom, maximum hit points in half-point
    units, gender, lord/hidden/never-shown flags, the skills it grants and
    its companions. Every mutator returns an updated copy. */
module Generals {
  import opened Wrappers
  import opened Strings
  import opened Enumeration
  import opened Skills

  /** The extra skill names are kept in the order they were added, without
      repetition; the set `General` stores is `ExtraSkillSet`. */
  datatype General = General(
    name: string,
    package: string,
    kingdom: string,
    doubleMaxHp: int,
    gender: GeneralGender,
    lord: bool,
    skillSet: set<string>,
    extraNames: seq<string>,
    skillNameList: seq<string>,
    relatedSkills: seq<string>,
    hidden: bool,
    neverShown: bool,
    companions: seq<string>,
    headMaxHpAdjustedValue: int,
    deputyMaxHpAdjustedValue: int)

  const LordSymbol: char := '$'

  const DefaultDoubleMaxHp: int := 4
  const DefaultMale: bool := true
  const DefaultHidden: bool := false
  const DefaultNeverShown: bool := false

  /** The argument the max-hp adjustment setters use when none is given. */
  const DefaultAdjustedValue: int := -1

  predicate NoDuplicates(s: seq<string>)
  {
    forall i, j :: 0 <= i < j < |s| ==> s[i] != s[j]
  }

  /** The lord marker: a name ending in `$` is a lord, and its object name
      is the name with every `$` removed. */
  function ParseLordName(name: string): (r: (bool, string))
    ensures r.0 <==> EndsWith(name, LordSymbol)
    ensures r.0 ==> LordSymbol !in r.1 && |r.1| < |name|
    ensures r.0 ==> forall c :: c != LordSymbol ==> multiset(r.1)[c] == multiset(name)[c]
    ensures r.0 ==> r.1 == RemoveChar(name, LordSymbol)
    ensures !r.0 ==> r.1 == name
  {
    if EndsWith(name, LordSymbol) then
      assert name[|name| - 1] in multiset(name);
      (true, RemoveChar(name, LordSymbol))
    else (false, name)
  }

  /** The constructor: gender from the `male` flag, no skills, both
      adjustments zero. */
  function NewGeneral(package: string, name: string, kingdom: string,
                      doubleMaxHp: int, male: bool, hidden: bool, neverShown: bool): (g: General)
    ensures (g.lord, g.name) == ParseLordName(name)
    ensures g.package == package && g.kingdom == kingdom
    ensures g.doubleMaxHp == doubleMaxHp
    ensures g.gender == (if male then Male else Female)
    ensures g.hidden == hidden && g.neverShown == neverShown
    ensures g.skillSet == {} && g.extraNames == [] && g.skillNameList == []
    ensures g.relatedSkills == [] && g.companions == []
    ensures g.headMaxHpAdjustedValue == 0 && g.deputyMaxHpAdjustedValue == 0
  {
    var parsed := ParseLordName(name);
    General(parsed.1, package, kingdom, doubleMaxHp, if male then Male else Female, parsed.0,
            {}, [], [], [], hidden, neverShown, [], 0, 0)
  }

  /** The constructor with every defaulted argument left out. */
  function NewGeneralWithDefaults(package: string, name: string, kingdom: string): (g: General)
    ensures g.doubleMaxHp == 4
    ensures g.gender == Male
    ensures !g.hidden && !g.neverShown
    ensures g == NewGeneral(package, name, kingdom, DefaultDoubleMaxHp, DefaultMale, DefaultHidden, DefaultNeverShown)
  {
    NewGeneral(package, name, kingdom, DefaultDoubleMaxHp, DefaultMale, DefaultHidden, DefaultNeverShown)
  }

  predicate IsMale(g: General) { g.gender == Male }
  predicate IsFemale(g: General) { g.gender == Female }
  predicate IsNeuter(g: General) { g.gender == Neuter }

  function SetGender(g: General, gender: GeneralGender): (g': General)
    ensures g'.gender == gender
    ensures g' == g.(gender := gender)
  {
    g.(gender := gender)
  }

  /** A constructed general is male exactly when `male` was passed and
      female otherwise; no general has two genders. */
  lemma GenderOfNewGeneral(package: string, name: string, kingdom: string,
                           doubleMaxHp: int, male: bool, hidden: bool, neverShown: bool)
    ensures var g := NewGeneral(package, name, kingdom, doubleMaxHp, male, hidden, neverShown);
      (IsMale(g) <==> male) && (IsFemale(g) <==> !male) && !IsNeuter(g)
  {
  }

  lemma GendersExclusive(g: General)
    ensures !(IsMale(g) && IsFemale(g))
    ensures !(IsMale(g) && IsNeuter(g))
    ensures !(IsFemale(g) && IsNeuter(g))
  {
  }

  /** Maximum hit points, in half points, when shown as head general. */
  function MaxHpHead(g: General): int
  {
    g.doubleMaxHp + g.headMaxHpAdjustedValue
  }

  /** Maximum hit points, in half points, when shown as deputy general. */
  function MaxHpDeputy(g: General): int
  {
    g.doubleMaxHp + g.deputyMaxHpAdjustedValue
  }

  function SetHeadMaxHpAdjustedValue(g: General, adjustedValue: int): (g': General)
    ensures MaxHpHead(g') == g.doubleMaxHp + adjustedValue
    ensures MaxHpDeputy(g') == MaxHpDeputy(g)
    ensures g' == g.(headMaxHpAdjustedValue := adjustedValue)
  {
    g.(headMaxHpAdjustedValue := adjustedValue)
  }

  function SetDeputyMaxHpAdjustedValue(g: General, adjustedValue: int): (g': General)
    ensures MaxHpDeputy(g') == g.doubleMaxHp + adjustedValue
    ensures MaxHpHead(g') == MaxHpHead(g)
    ensures g' == g.(deputyMaxHpAdjustedValue := adjustedValue)
  {
    g.(deputyMaxHpAdjustedValue := adjustedValue)
  }

  /** Both adjustments start at zero, so a fresh general has its base
      maximum in both positions; the setters without an argument take one
      half point away. */
  lemma MaxHpOfNewGeneral(package: string, name: string, kingdom: string,
                          doubleMaxHp: int, male: bool, hidden: bool, neverShown: bool)
    ensures var g := NewGeneral(package, name, kingdom, doubleMaxHp, male, hidden, neverShown);
      MaxHpHead(g) == doubleMaxHp && MaxHpDeputy(g) == doubleMaxHp
      && MaxHpHead(SetHeadMaxHpAdjustedValue(g, DefaultAdjustedValue)) == doubleMaxHp - 1
      && MaxHpDeputy(SetDeputyMaxHpAdjustedValue(g, DefaultAdjustedValue)) == doubleMaxHp - 1
  {
  }

  // ------------------------------------------------------------- skills

  /** The skill-name invariants: the ordered list and the extra names are
      duplicate-free, and the list names exactly the owned and the extra
      skills. */
  ghost predicate Valid(g: General)
  {
    && NoDuplicates(g.skillNameList)
    && NoDuplicates(g.extraNames)
    && (forall n :: n in g.skillNameList <==> n in g.skillSet || n in g.extraNames)
  }

  lemma NewGeneralValid(package: string, name: string, kingdom: string,
                        doubleMaxHp: int, male: bool, hidden: bool, neverShown: bool)
    ensures Valid(NewGeneral(package, name, kingdom, doubleMaxHp, male, hidden, neverShown))
  {
  }

  /** `s` with `n` appended unless it is already there. */
  function AppendIfAbsent(s: seq<string>, n: string): (r: seq<string>)
    ensures n in r
    ensures forall m :: m in r <==> m in s || m == n
    ensures NoDuplicates(s) ==> NoDuplicates(r)
    ensures n in s ==> r == s
    ensures n !in s ==> r == s + [n]
  {
    if n in s then s else s + [n]
  }

  /** `addSkill(Skill*)`: the skill's name joins the owned set, and the
      ordered list if it is not there yet. */
  function AddSkillObject(g: General, skillName: string): (g': General)
    ensures Valid(g) ==> Valid(g')
    ensures g'.skillSet == g.skillSet + {skillName}
    ensures g'.skillNameList == AppendIfAbsent(g.skillNameList, skillName)
    ensures g'.extraNames == g.extraNames
    ensures g' == g.(skillSet := g'.skillSet, skillNameList := g'.skillNameList)
  {
    g.(skillSet := g.skillSet + {skillName},
       skillNameList := AppendIfAbsent(g.skillNameList, skillName))
  }

  /** `addSkill(name)`: nothing happens when the name is already an extra
      skill; otherwise it joins the extra names, and the ordered list if
      it is not there yet. */
  function AddSkillName(g: General, skillName: string): (g': General)
    ensures Valid(g) ==> Valid(g')
    ensures skillName in g.extraNames ==> g' == g
    ensures skillName !in g.extraNames ==> g'.extraNames == g.extraNames + [skillName]
    ensures g'.skillNameList == AppendIfAbsent(g.skillNameList, skillName)
      || (skillName in g.extraNames && g'.skillNameList == g.skillNameList)
    ensures g'.skillSet == g.skillSet
    ensures g' == g.(extraNames := g'.extraNames, skillNameList := g'.skillNameList)
  {
    if skillName in g.extraNames then g
    else g.(extraNames := g.extraNames + [skillName],
            skillNameList := AppendIfAbsent(g.skillNameList, skillName))
  }

  /** Granting an extra skill twice is the same as granting it once. */
  lemma AddSkillNameIdempotent(g: General, skillName: string)
    ensures AddSkillName(AddSkillName(g, skillName), skillName) == AddSkillName(g, skillName)
  {
  }

  /** Granting an owned skill twice is the same as granting it once. */
  lemma AddSkillObjectIdempotent(g: General, skillName: string)
    ensures AddSkillObject(AddSkillObject(g, skillName), skillName) == AddSkillObject(g, skillName)
  {
  }

  /** The extra names as the set `General` stores; reading it changes nothing. */
  function ExtraSkillSet(g: General): (r: set<string>)
    ensures forall n :: n in r <==> n in g.extraNames
  {
    set n | n in g.extraNames
  }

  /** Only `addSkill(name)` grows the extra set, by exactly that name. */
  lemma ExtraSkillSetUpdates(g: General, skillName: string)
    ensures ExtraSkillSet(AddSkillName(g, skillName)) == ExtraSkillSet(g) + {skillName}
    ensures ExtraSkillSet(AddSkillObject(g, skillName)) == ExtraSkillSet(g)
  {
  }

  /** `hasSkill`: owned or extra. Under the invariant that is the same as
      being in the ordered list. */
  function HasSkill(g: General, skillName: string): (r: bool)
    ensures r <==> skillName in g.skillSet + ExtraSkillSet(g)
    ensures Valid(g) ==> (r <==> skillName in g.skillNameList)
  {
    skillName in g.skillSet || skillName in g.extraNames
  }

  /** After either `addSkill` the general has the skill. */
  lemma AddedSkillIsHeld(g: General, skillName: string, other: string)
    ensures HasSkill(AddSkillObject(g, skillName), skillName)
    ensures HasSkill(AddSkillName(g, skillName), skillName)
    ensures other != skillName ==>
      HasSkill(AddSkillName(g, skillName), other) == HasSkill(g, other)
      && HasSkill(AddSkillObject(g, skillName), other) == HasSkill(g, other)
  {
  }

  /** The skills registered under `names`, in order, keeping those `keep`
      accepts. Every name must be registered. */
  function SkillsOfNames(names: seq<string>, skills: map<string, Skill>, keep: Skill -> bool): (r: seq<Skill>)
    requires forall i :: 0 <= i < |names| ==> names[i] in skills
    ensures |r| <= |names|
    ensures forall i :: 0 <= i < |r| ==> keep(r[i])
    ensures forall s :: s in r ==> exists i :: 0 <= i < |names| && skills[names[i]] == s
    ensures forall i :: 0 <= i < |names| && keep(skills[names[i]]) ==> skills[names[i]] in r
  {
    if |names| == 0 then []
    else
      var rest := SkillsOfNames(names[1..], skills, keep);
      var s := skills[names[0]];
      assert forall i :: 1 <= i < |names| ==> names[i] == names[1..][i - 1];
      assert forall t :: t in rest ==> exists i :: 1 <= i < |names| && skills[names[i]] == t by {
        forall t | t in rest
          ensures exists i :: 1 <= i < |names| && skills[names[i]] == t
        {
          var j :| 0 <= j < |names[1..]| && skills[names[1..][j]] == t;
          assert skills[names[j + 1]] == t;
        }
      }
      if keep(s) then [s] + rest else rest
  }

  /** When every skill is kept, the result is the registered skill of each
      name, position by position. */
  lemma {:induction false} SkillsOfNamesKeepsAll(names: seq<string>, skills: map<string, Skill>, keep: Skill -> bool)
    requires forall i :: 0 <= i < |names| ==> names[i] in skills
    requires forall i :: 0 <= i < |names| ==> keep(skills[names[i]])
    ensures |SkillsOfNames(names, skills, keep)| == |names|
    ensures forall i :: 0 <= i < |names| ==> SkillsOfNames(names, skills, keep)[i] == skills[names[i]]
    decreases |names|
  {
    if |names| > 0 {
      assert forall i :: 1 <= i < |names| ==> names[i] == names[1..][i - 1];
      SkillsOfNamesKeepsAll(names[1..], skills, keep);
    }
  }

  /** One more name appends its skill, if kept, after the skills of the
      earlier names: the filtered list keeps the order of the names. */
  lemma {:induction false} SkillsOfNamesAppend(names: seq<string>, n: string, skills: map<string, Skill>, keep: Skill -> bool)
    requires forall i :: 0 <= i < |names| ==> names[i] in skills
    requires n in skills
    ensures SkillsOfNames(names + [n], skills, keep)
      == SkillsOfNames(names, skills, keep) + (if keep(skills[n]) then [skills[n]] else [])
    decreases |names|
  {
    if |names| == 0 {
      assert names + [n] == [n];
      assert [n][1..] == [];
    } else {
      assert (names + [n])[0] == names[0] && (names + [n])[1..] == names[1..] + [n];
      SkillsOfNamesAppend(names[1..], n, skills, keep);
    }
  }

  /** `getSkillList`: one registered skill per listed name, in order. When
      `relateToPlace` is set, only the skills for which `relates(skill,
      !headOnly)` is false are kept. Every name must resolve. */
  function GetSkillList(g: General, skills: map<string, Skill>, relateToPlace: bool, headOnly: bool,
                        relates: (Skill, bool) -> bool): (r: seq<Skill>)
    requires forall i :: 0 <= i < |g.skillNameList| ==> g.skillNameList[i] in skills
    ensures !relateToPlace ==>
      |r| == |g.skillNameList|
      && forall i :: 0 <= i < |r| ==> r[i] == skills[g.skillNameList[i]]
    ensures relateToPlace ==>
      (forall i :: 0 <= i < |r| ==> !relates(r[i], !headOnly))
      && (forall i :: 0 <= i < |g.skillNameList| && !relates(skills[g.skillNameList[i]], !headOnly)
            ==> skills[g.skillNameList[i]] in r)
    ensures forall s :: s in r ==> exists n :: n in g.skillNameList && n in skills && skills[n] == s
  {
    if relateToPlace then SkillsOfNames(g.skillNameList, skills, s => !relates(s, !headOnly))
    else
      SkillsOfNamesKeepsAll(g.skillNameList, skills, s => true);
      SkillsOfNames(g.skillNameList, skills, s => true)
  }

  /** A newly owned skill comes last in the place-filtered skill list, and
      only when it does not relate to the other place. */
  lemma GetSkillListAfterAdd(g: General, skills: map<string, Skill>, headOnly: bool,
                             relates: (Skill, bool) -> bool, skillName: string)
    requires forall i :: 0 <= i < |g.skillNameList| ==> g.skillNameList[i] in skills
    requires skillName in skills && skillName !in g.skillNameList
    ensures var g' := AddSkillObject(g, skillName);
      (forall i :: 0 <= i < |g'.skillNameList| ==> g'.skillNameList[i] in skills)
      && GetSkillList(g', skills, true, headOnly, relates)
         == GetSkillList(g, skills, true, headOnly, relates)
            + (if !relates(skills[skillName], !headOnly) then [skills[skillName]] else [])
  {
    SkillsOfNamesAppend(g.skillNameList, skillName, skills, s => !relates(s, !headOnly));
  }

  // ---------------------------------------------------------- companions

  function AddCompanion(g: General, name: string): (g': General)
    ensures g'.companions == g.companions + [name]
    ensures g' == g.(companions := g'.companions)
  {
    g.(companions := g.companions + [name])
  }

  /** Two generals are companions when they share a kingdom and either is a
      lord or either names the other as companion. */
  predicate CompanionRelation(a: General, b: General)
  {
    a.kingdom == b.kingdom
    && (a.lord || b.lord || b.name in a.companions || a.name in b.companions)
  }

  /** `isCompanionWith`: the other general must exist. */
  function IsCompanionWith(g: General, name: string, generals: map<string, General>): (r: bool)
    requires name in generals
    ensures g.kingdom != generals[name].kingdom ==> !r
    ensures generals[name].name == name ==> (r <==> CompanionRelation(g, generals[name]))
  {
    var other := generals[name];
    if g.kingdom != other.kingdom then false
    else g.lord || other.lord || name in g.companions || g.name in other.companions
  }

  /** The companion relation is symmetric. */
  lemma CompanionSymmetric(a: General, b: General, generals: map<string, General>)
    requires a.name in generals && generals[a.name] == a
    requires b.name in generals && generals[b.name] == b
    ensures IsCompanionWith(a, b.name, generals) == IsCompanionWith(b, a.name, generals)
  {
  }
}
