/** The content registry: the packages loaded so far, every card with its
    engine-wide id, skills by name and in per-kind lists, named card
    patterns, related-skill pairs and generals. Each operation returns an
    updated copy of the registry. */
module Engine {
  import opened Wrappers
  import opened Strings
  import opened Skills
  import opened Generals

  /** A compiled card pattern; the engine compiles an unknown pattern name
      as an expression pattern over the name itself. */
  datatype CardPattern = ExpPattern(exp: string)

  /** A general as a package supplies it, with the skill objects it owns. */
  datatype GeneralEntry = GeneralEntry(general: General, skills: seq<Skill>)

  /** A content package. Its skill list may hold null entries (`None`);
      its related skills are (main skill, related skill) pairs in the order
      they were declared. */
  datatype Package = Package(
    name: string,
    cards: seq<Card>,
    skills: seq<Option<Skill>>,
    generals: seq<GeneralEntry>,
    patterns: map<string, CardPattern>,
    relatedSkills: seq<(string, string)>)

  /** The two configuration lists that override a general's hidden flag. */
  datatype HiddenConfig = HiddenConfig(extraHiddenGenerals: seq<string>, removedHiddenGenerals: seq<string>)

  datatype Registry = Registry(
    packages: seq<Package>,
    cards: seq<Card>,
    skills: map<string, Skill>,
    prohibitSkills: seq<Skill>,
    distanceSkills: seq<Skill>,
    maxCardsSkills: seq<Skill>,
    targetModSkills: seq<Skill>,
    attackRangeSkills: seq<Skill>,
    globalTriggerSkills: seq<Skill>,
    patterns: map<string, CardPattern>,
    enginePatterns: seq<CardPattern>,
    relatedSkills: seq<(string, string)>,
    generalList: seq<General>,
    generalHash: map<string, General>,
    lordList: seq<string>)

  function EmptyRegistry(): Registry
  {
    Registry([], [], map[], [], [], [], [], [], [], map[], [], [], [], map[], [])
  }

  /** The per-kind list `l` of the registry. */
  function KindSkills(reg: Registry, l: KindList): seq<Skill>
  {
    match l
    case ProhibitList => reg.prohibitSkills
    case DistanceList => reg.distanceSkills
    case MaxCardsList => reg.maxCardsSkills
    case TargetModList => reg.targetModSkills
    case AttackRangeList => reg.attackRangeSkills
    case GlobalTriggerList => reg.globalTriggerSkills
  }

  /** The registry invariants: card ids are their positions, package names
      are unique, each skill is filed under its own name, each kind list holds only skills of its kind, and every
      general keeps its skill-name invariants. */
  ghost predicate Valid(reg: Registry)
  {
    && (forall i :: 0 <= i < |reg.cards| ==> reg.cards[i].id == i)
    && (forall i, j :: 0 <= i < j < |reg.packages| ==> reg.packages[i].name != reg.packages[j].name)
    && (forall n :: n in reg.skills ==> reg.skills[n].name == n)
    && (forall l, i :: 0 <= i < |KindSkills(reg, l)| ==> ListOf(KindSkills(reg, l)[i]) == Some(l))
    && (forall i :: 0 <= i < |reg.generalList| ==> Generals.Valid(reg.generalList[i]))
  }

  lemma EmptyRegistryValid()
    ensures Valid(EmptyRegistry())
  {
  }

  // ----------------------------------------------------------- skills

  /** `getSkill`: lookup by name. */
  function GetSkill(reg: Registry, name: string): (r: Option<Skill>)
    ensures r.Some? <==> name in reg.skills
    ensures r.Some? ==> r.value == reg.skills[name]
  {
    if name in reg.skills then Some(reg.skills[name]) else None
  }

  /** The non-null skills of `xs` that enter list `l`, in order. */
  function SkillsForList(xs: seq<Option<Skill>>, l: KindList): seq<Skill>
  {
    if |xs| == 0 then []
    else
      var head := if xs[0].Some? && ListOf(xs[0].value) == Some(l) then [xs[0].value] else [];
      head + SkillsForList(xs[1..], l)
  }

  /** The last non-null skill of `xs` named `name`, if any. */
  function LastNamed(xs: seq<Option<Skill>>, name: string): (r: Option<Skill>)
    ensures r.Some? ==> r.value.name == name
  {
    if |xs| == 0 then None
    else
      var later := LastNamed(xs[1..], name);
      if later.Some? then later
      else if xs[0].Some? && xs[0].value.name == name then xs[0]
      else None
  }

  /** `LastNamed` finds nothing exactly when no entry carries the name, and
      otherwise finds an entry carrying it that no later entry does. */
  lemma {:induction false} LastNamedMeaning(xs: seq<Option<Skill>>, name: string)
    ensures LastNamed(xs, name).None? <==>
      forall i :: 0 <= i < |xs| ==> !(xs[i].Some? && xs[i].value.name == name)
    ensures LastNamed(xs, name).Some? ==>
      exists i :: 0 <= i < |xs| && xs[i] == LastNamed(xs, name)
        && forall j :: i < j < |xs| ==> !(xs[j].Some? && xs[j].value.name == name)
    decreases |xs|
  {
    if |xs| > 0 {
      var later := LastNamed(xs[1..], name);
      LastNamedMeaning(xs[1..], name);
      assert forall i :: 1 <= i < |xs| ==> xs[i] == xs[1..][i - 1];
      if later.Some? {
        var k :| 0 <= k < |xs[1..]| && xs[1..][k] == later
          && forall j :: k < j < |xs[1..]| ==> !(xs[1..][j].Some? && xs[1..][j].value.name == name);
        assert xs[k + 1] == later;
      }
    }
  }

  /** One entry of `addSkills`: a null entry is skipped; otherwise the skill
      replaces any skill of the same name in the name map and is appended
      to the one kind list it belongs to, if any. */
  function AddSkill(reg: Registry, entry: Option<Skill>): (r: Registry)
    ensures entry.None? ==> r == reg
    ensures entry.Some? ==> r.skills == reg.skills[entry.value.name := entry.value]
    ensures forall l :: KindSkills(r, l) == KindSkills(reg, l) + SkillsForList([entry], l)
    ensures r.packages == reg.packages && r.cards == reg.cards && r.patterns == reg.patterns
    ensures r.enginePatterns == reg.enginePatterns && r.relatedSkills == reg.relatedSkills
    ensures r.generalList == reg.generalList && r.generalHash == reg.generalHash
    ensures r.lordList == reg.lordList
  {
    match entry
    case None => reg
    case Some(s) =>
      var named := reg.(skills := reg.skills[s.name := s]);
      match ListOf(s)
      case None => named
      case Some(ProhibitList) => named.(prohibitSkills := reg.prohibitSkills + [s])
      case Some(DistanceList) => named.(distanceSkills := reg.distanceSkills + [s])
      case Some(MaxCardsList) => named.(maxCardsSkills := reg.maxCardsSkills + [s])
      case Some(TargetModList) => named.(targetModSkills := reg.targetModSkills + [s])
      case Some(AttackRangeList) => named.(attackRangeSkills := reg.attackRangeSkills + [s])
      case Some(GlobalTriggerList) => named.(globalTriggerSkills := reg.globalTriggerSkills + [s])
  }

  /** `addSkills`: every entry added in order. Each kind list grows by
      exactly the non-null skills of its kind, in order (so a skill whose
      name is already taken still enters its list); the name map ends up
      holding the last skill of each name. */
  function AddSkills(reg: Registry, xs: seq<Option<Skill>>): (r: Registry)
    ensures forall l :: KindSkills(r, l) == KindSkills(reg, l) + SkillsForList(xs, l)
    ensures forall n {:trigger LastNamed(xs, n)} :: LastNamed(xs, n).Some? ==>
      n in r.skills && r.skills[n] == LastNamed(xs, n).value
    ensures forall n {:trigger LastNamed(xs, n)} :: LastNamed(xs, n).None? ==>
      (n in r.skills <==> n in reg.skills) && (n in reg.skills ==> r.skills[n] == reg.skills[n])
    ensures r.packages == reg.packages && r.cards == reg.cards && r.patterns == reg.patterns
    ensures r.enginePatterns == reg.enginePatterns && r.relatedSkills == reg.relatedSkills
    ensures r.generalList == reg.generalList && r.generalHash == reg.generalHash
    ensures r.lordList == reg.lordList
    decreases |xs|
  {
    if |xs| == 0 then reg
    else
      var step := AddSkill(reg, xs[0]);
      var r := AddSkills(step, xs[1..]);
      assert forall l :: SkillsForList(xs, l) == SkillsForList([xs[0]], l) + SkillsForList(xs[1..], l) by {
        forall l ensures SkillsForList(xs, l) == SkillsForList([xs[0]], l) + SkillsForList(xs[1..], l) {
          assert [xs[0]][1..] == [];
        }
      }
      r
  }

  /** Two batches added one after the other are one batch. */
  lemma {:induction false} AddSkillsAppend(reg: Registry, a: seq<Option<Skill>>, b: seq<Option<Skill>>)
    ensures AddSkills(AddSkills(reg, a), b) == AddSkills(reg, a + b)
    decreases |a|
  {
    if |a| == 0 {
      assert a + b == b;
    } else {
      assert (a + b)[0] == a[0] && (a + b)[1..] == a[1..] + b;
      AddSkillsAppend(AddSkill(reg, a[0]), a[1..], b);
    }
  }

  /** The name map `addSkills` leaves depends on the registry only through
      its name map. */
  lemma {:induction false} AddSkillsNameFrame(x: Registry, y: Registry, xs: seq<Option<Skill>>)
    requires x.skills == y.skills
    ensures AddSkills(x, xs).skills == AddSkills(y, xs).skills
    decreases |xs|
  {
    if |xs| > 0 {
      AddSkillsNameFrame(AddSkill(x, xs[0]), AddSkill(y, xs[0]), xs[1..]);
    }
  }

  /** Filing into a kind list distributes over concatenated batches. */
  lemma {:induction false} SkillsForListAppend(a: seq<Option<Skill>>, b: seq<Option<Skill>>, l: KindList)
    ensures SkillsForList(a + b, l) == SkillsForList(a, l) + SkillsForList(b, l)
    decreases |a|
  {
    if |a| == 0 {
      assert a + b == b;
    } else {
      assert (a + b)[0] == a[0] && (a + b)[1..] == a[1..] + b;
      SkillsForListAppend(a[1..], b, l);
    }
  }

  lemma AddSkillsValid(reg: Registry, xs: seq<Option<Skill>>)
    ensures Valid(reg) ==> Valid(AddSkills(reg, xs))
  {
    var r := AddSkills(reg, xs);
    if !Valid(reg) { return; }
    forall l, i | 0 <= i < |KindSkills(r, l)|
      ensures ListOf(KindSkills(r, l)[i]) == Some(l)
    {
      if i >= |KindSkills(reg, l)| {
        SkillsForListKind(xs, l, i - |KindSkills(reg, l)|);
      }
    }
    forall n | n in r.skills
      ensures r.skills[n].name == n
    {
      var found := LastNamed(xs, n);
    }
  }

  lemma {:induction false} SkillsForListKind(xs: seq<Option<Skill>>, l: KindList, i: int)
    requires 0 <= i < |SkillsForList(xs, l)|
    ensures ListOf(SkillsForList(xs, l)[i]) == Some(l)
    decreases |xs|
  {
    var head := if xs[0].Some? && ListOf(xs[0].value) == Some(l) then [xs[0].value] else [];
    if i >= |head| {
      SkillsForListKind(xs[1..], l, i - |head|);
    }
  }

  /** The non-null entries of `xs`. */
  function NonNull(xs: seq<Option<Skill>>): seq<Skill>
  {
    if |xs| == 0 then []
    else (if xs[0].Some? then [xs[0].value] else []) + NonNull(xs[1..])
  }

  /** The non-null skills that enter no list (non-global triggers and
      kinds the engine does not index). */
  function Unlisted(xs: seq<Option<Skill>>): seq<Skill>
  {
    if |xs| == 0 then []
    else (if xs[0].Some? && ListOf(xs[0].value).None? then [xs[0].value] else []) + Unlisted(xs[1..])
  }

  /** Null entries are skipped and no skill enters two lists: the kind lists
      grow by exactly as many skills as there are non-null, listed entries. */
  lemma {:induction false} EachSkillInAtMostOneList(xs: seq<Option<Skill>>)
    ensures |SkillsForList(xs, ProhibitList)| + |SkillsForList(xs, DistanceList)|
      + |SkillsForList(xs, MaxCardsList)| + |SkillsForList(xs, TargetModList)|
      + |SkillsForList(xs, AttackRangeList)| + |SkillsForList(xs, GlobalTriggerList)|
      + |Unlisted(xs)| == |NonNull(xs)|
    decreases |xs|
  {
    if |xs| > 0 {
      EachSkillInAtMostOneList(xs[1..]);
    }
  }

  /** A second skill with a taken name wins the name map, yet both stay in
      their kind list. */
  lemma DuplicateNameKeepsBoth(reg: Registry, a: Skill, b: Skill)
    requires a.name == b.name && a.kind == ProhibitKind && b.kind == ProhibitKind
    ensures a.name in AddSkills(reg, [Some(a), Some(b)]).skills
      && AddSkills(reg, [Some(a), Some(b)]).skills[a.name] == b
    ensures AddSkills(reg, [Some(a), Some(b)]).prohibitSkills == reg.prohibitSkills + [a, b]
  {
    var xs := [Some(a), Some(b)];
    assert xs[1..] == [Some(b)];
    assert [Some(b)][1..] == [];
    assert LastNamed([Some(b)], a.name) == Some(b);
    assert LastNamed(xs, a.name) == Some(b);
    assert ListOf(a) == Some(ProhibitList) && ListOf(b) == Some(ProhibitList);
    assert SkillsForList([Some(b)], ProhibitList) == [b] + SkillsForList([], ProhibitList);
    assert SkillsForList(xs, ProhibitList) == [a] + SkillsForList([Some(b)], ProhibitList);
  }

  // --------------------------------------------------- related skills

  /** `related_skills.values(key)`: the related names declared for `key`,
      the most recently declared first. */
  function RelatedValues(pairs: seq<(string, string)>, key: string): (r: seq<string>)
    ensures forall v :: v in r <==> (key, v) in pairs
  {
    if |pairs| == 0 then []
    else
      assert forall p :: p in pairs <==> p == pairs[0] || p in pairs[1..];
      RelatedValues(pairs[1..], key) + (if pairs[0].0 == key then [pairs[0].1] else [])
  }

  /** A pair declared last comes first among the values of its key, and
      leaves the values of other keys alone; repeated pairs repeat. */
  lemma {:induction false} RelatedValuesAppend(pairs: seq<(string, string)>, p: (string, string), key: string)
    ensures RelatedValues(pairs + [p], key) == (if p.0 == key then [p.1] else []) + RelatedValues(pairs, key)
    decreases |pairs|
  {
    if |pairs| == 0 {
      assert pairs + [p] == [p];
      assert [p][1..] == [];
    } else {
      assert (pairs + [p])[0] == pairs[0] && (pairs + [p])[1..] == pairs[1..] + [p];
      RelatedValuesAppend(pairs[1..], p, key);
    }
  }

  /** `getRelatedSkills`: the registered skill of each related name, `None`
      for a related name that was never registered. */
  function GetRelatedSkills(reg: Registry, name: string): (r: seq<Option<Skill>>)
    ensures |r| == |RelatedValues(reg.relatedSkills, name)|
    ensures forall i :: 0 <= i < |r| ==>
      (r[i].Some? <==> RelatedValues(reg.relatedSkills, name)[i] in reg.skills)
    ensures forall i :: 0 <= i < |r| && r[i].Some? ==>
      r[i].value == reg.skills[RelatedValues(reg.relatedSkills, name)[i]]
    ensures Valid(reg) ==> forall i :: 0 <= i < |r| && r[i].Some? ==>
      (name, r[i].value.name) in reg.relatedSkills
  {
    LookupAll(reg, RelatedValues(reg.relatedSkills, name))
  }

  /** The registered skill of each name, in order. */
  function LookupAll(reg: Registry, names: seq<string>): (r: seq<Option<Skill>>)
    ensures |r| == |names|
    ensures forall i :: 0 <= i < |r| ==> r[i] == GetSkill(reg, names[i])
    decreases |names|
  {
    if |names| == 0 then []
    else
      var rest := LookupAll(reg, names[1..]);
      assert forall i :: 1 <= i < |names| ==> names[i] == names[1..][i - 1];
      [GetSkill(reg, names[0])] + rest
  }

  /** The walk of `getMainSkill` over `related_skills.keys()` from position
      `i`: the first key whose related values include `name`. Keys come in
      declaration order, one per pair. */
  function OwnerFrom(pairs: seq<(string, string)>, name: string, i: nat): (r: Option<string>)
    requires i <= |pairs|
    ensures r.None? <==> forall j :: i <= j < |pairs| ==> (pairs[j].0, name) !in pairs
    ensures r.Some? ==> (r.value, name) in pairs
    ensures r.Some? ==>
      exists j :: i <= j < |pairs| && pairs[j].0 == r.value
        && forall m :: i <= m < j ==> (pairs[m].0, name) !in pairs
    decreases |pairs| - i
  {
    if i == |pairs| then None
    else if name in RelatedValues(pairs, pairs[i].0) then Some(pairs[i].0)
    else OwnerFrom(pairs, name, i + 1)
  }

  /** The main skill `getMainSkill` settles on for a hidden related skill:
      the first key, in key order, that lists `name` among its values. */
  function FirstOwner(pairs: seq<(string, string)>, name: string): (r: Option<string>)
    ensures r.None? <==> forall i :: 0 <= i < |pairs| ==> pairs[i].1 != name
    ensures r.Some? ==> (r.value, name) in pairs
    ensures r.Some? ==>
      exists i :: 0 <= i < |pairs| && pairs[i].0 == r.value
        && forall j :: 0 <= j < i ==> (pairs[j].0, name) !in pairs
  {
    var r := OwnerFrom(pairs, name, 0);
    if r.None? then
      forall i | 0 <= i < |pairs|
        ensures pairs[i].1 != name
      {
        assert (pairs[i].0, name) !in pairs;
      }
      r
    else r
  }

  /** The key order, not the pair order, decides: key "A" is met before
      "B" even though its pair with "n" is declared after B's. */
  lemma FirstOwnerFollowsKeyOrder()
    ensures FirstOwner([("A", "x"), ("B", "n"), ("A", "n")], "n") == Some("A")
  {
    var pairs := [("A", "x"), ("B", "n"), ("A", "n")];
    assert ("A", "n") == pairs[2];
    assert "n" in RelatedValues(pairs, pairs[0].0);
  }

  predicate IsRelatedKey(pairs: seq<(string, string)>, name: string)
  {
    exists i :: 0 <= i < |pairs| && pairs[i].0 == name
  }

  /** `getMainSkill`: a missing, visible or main skill is its own main
      skill; a hidden related skill resolves to the first main skill that
      lists it, and to itself when none does. */
  function GetMainSkill(reg: Registry, name: string): (r: Option<Skill>)
    ensures GetSkill(reg, name).None? ==> r.None?
    ensures GetSkill(reg, name).Some? && (reg.skills[name].visible || IsRelatedKey(reg.relatedSkills, name))
      ==> r == GetSkill(reg, name)
    ensures r != GetSkill(reg, name) ==>
      exists k :: (k, name) in reg.relatedSkills && r == GetSkill(reg, k)
    ensures (forall i :: 0 <= i < |reg.relatedSkills| ==> reg.relatedSkills[i].1 != name)
      ==> r == GetSkill(reg, name)
    ensures GetSkill(reg, name).Some? && !reg.skills[name].visible && !IsRelatedKey(reg.relatedSkills, name)
      && FirstOwner(reg.relatedSkills, name).Some?
      ==> r == GetSkill(reg, FirstOwner(reg.relatedSkills, name).value)
  {
    var skill := GetSkill(reg, name);
    if skill.None? || skill.value.visible || IsRelatedKey(reg.relatedSkills, name) then skill
    else
      match FirstOwner(reg.relatedSkills, name)
      case None => skill
      case Some(k) => GetSkill(reg, k)
  }

  // --------------------------------------------------------- patterns

  /** `getPattern`: the cached pattern when there is one; otherwise the name
      is compiled as an expression pattern, cached and returned. */
  function GetPattern(reg: Registry, name: string): (r: (Registry, CardPattern))
    ensures name in r.0.patterns && r.0.patterns[name] == r.1
    ensures name in reg.patterns ==> r == (reg, reg.patterns[name])
    ensures name !in reg.patterns ==>
      r.1 == ExpPattern(name)
      && r.0 == reg.(patterns := reg.patterns[name := r.1], enginePatterns := reg.enginePatterns + [r.1])
  {
    if name in reg.patterns then (reg, reg.patterns[name])
    else
      var p := ExpPattern(name);
      (reg.(patterns := reg.patterns[name := p], enginePatterns := reg.enginePatterns + [p]), p)
  }

  /** Asking twice gives the same pattern and the second call changes
      nothing. */
  lemma GetPatternMemoises(reg: Registry, name: string)
    ensures var (reg', p) := GetPattern(reg, name);
      GetPattern(reg', name) == (reg', p)
  {
  }

  // --------------------------------------------------------- generals

  /** `getGeneral`: lookup by object name. */
  function GetGeneral(reg: Registry, name: string): (r: Option<General>)
    ensures r.Some? <==> name in reg.generalHash
    ensures r.Some? ==> r.value == reg.generalHash[name]
  {
    if name in reg.generalHash then Some(reg.generalHash[name]) else None
  }

  /** `isGeneralHidden`: an unknown general is not hidden; otherwise the
      configuration can hide a shown general or show a hidden one. */
  function IsGeneralHidden(reg: Registry, name: string, cfg: HiddenConfig): (r: bool)
    ensures GetGeneral(reg, name).None? ==> !r
    ensures GetGeneral(reg, name).Some? && !reg.generalHash[name].hidden ==>
      (r <==> name in cfg.extraHiddenGenerals)
    ensures GetGeneral(reg, name).Some? && reg.generalHash[name].hidden ==>
      (r <==> name !in cfg.removedHiddenGenerals)
  {
    match GetGeneral(reg, name)
    case None => false
    case Some(g) =>
      if !g.hidden then name in cfg.extraHiddenGenerals
      else name !in cfg.removedHiddenGenerals
  }

  /** The configuration's verdict on a general with hidden flag `hidden`
      filed under `name`. */
  predicate HiddenByConfig(hidden: bool, name: string, cfg: HiddenConfig)
  {
    if hidden then name !in cfg.removedHiddenGenerals else name in cfg.extraHiddenGenerals
  }

  /** A name in both configuration lists is judged by the general's own
      flag alone: each list is consulted only for one value of it. */
  lemma HiddenListsNeverConflict(reg: Registry, name: string, cfg: HiddenConfig)
    requires name in reg.generalHash
    requires name in cfg.extraHiddenGenerals && name in cfg.removedHiddenGenerals
    ensures IsGeneralHidden(reg, name, cfg) == !reg.generalHash[name].hidden
  {
  }

  /** The number of generals from banned packages among the first `n`. */
  function BannedCount(gs: seq<General>, banPackages: seq<string>): (c: nat)
    ensures c <= |gs|
    ensures (forall i :: 0 <= i < |gs| ==> gs[i].package !in banPackages) ==> c == 0
    ensures (forall i :: 0 <= i < |gs| ==> gs[i].package in banPackages) ==> c == |gs|
  {
    if |gs| == 0 then 0
    else BannedCount(gs[..|gs| - 1], banPackages) + (if gs[|gs| - 1].package in banPackages then 1 else 0)
  }

  /** Counting one more general adds one exactly when it is banned. */
  lemma BannedCountStep(gs: seq<General>, i: int, banPackages: seq<string>)
    requires 0 <= i < |gs|
    ensures BannedCount(gs[..i + 1], banPackages)
      == BannedCount(gs[..i], banPackages) + (if gs[i].package in banPackages then 1 else 0)
  {
    assert gs[..i + 1][..i] == gs[..i];
  }

  /** The loop of `getGeneralCount` that skips generals of banned packages. */
  method CountUnbanned(gs: seq<General>, banPackages: seq<string>) returns (total: int)
    ensures total == |gs| - BannedCount(gs, banPackages)
  {
    total := |gs|;
    var i := 0;
    while i < |gs|
      invariant 0 <= i <= |gs|
      invariant total == |gs| - BannedCount(gs[..i], banPackages)
    {
      BannedCountStep(gs, i, banPackages);
      if gs[i].package in banPackages {
        total := total - 1;
      }
      i := i + 1;
    }
    assert gs[..i] == gs;
  }

  /** `getGeneralCount`: all generals, or all but those of banned packages. */
  method GetGeneralCount(reg: Registry, includeBanned: bool, banPackages: seq<string>) returns (total: int)
    ensures 0 <= total <= |reg.generalList|
    ensures includeBanned ==> total == |reg.generalList|
    ensures !includeBanned ==> total == |reg.generalList| - BannedCount(reg.generalList, banPackages)
  {
    if includeBanned {
      return |reg.generalList|;
    }
    total := CountUnbanned(reg.generalList, banPackages);
  }

  // ------------------------------------------------------------ cards

  /** `Card::S_UNKNOWN_CARD_ID`. */
  const UnknownCardId: int := -1

  /** The three outcomes of `getCard`: the unknown id (no card), an id
      outside the registry (an assertion failure in debug builds, no card
      in release builds), or the card. */
  datatype CardLookup = NoCard | InvalidCardId | FoundCard(card: Card)

  function GetCard(reg: Registry, cardId: int): (r: CardLookup)
    ensures r.NoCard? <==> cardId == UnknownCardId
    ensures r.FoundCard? <==> 0 <= cardId < |reg.cards|
    ensures r.FoundCard? ==> r.card == reg.cards[cardId]
    ensures r.FoundCard? && Valid(reg) ==> r.card.id == cardId
  {
    if cardId == UnknownCardId then NoCard
    else if cardId < 0 || cardId >= |reg.cards| then InvalidCardId
    else FoundCard(reg.cards[cardId])
  }

  function GetCardCount(reg: Registry): (n: nat)
    ensures forall id :: 0 <= id < n <==> GetCard(reg, id).FoundCard?
  {
    |reg.cards|
  }

  // --------------------------------------------------------- packages

  /** The names of the registered skills among `related`. */
  function GrantedNames(related: seq<Option<Skill>>): set<string>
  {
    set i | 0 <= i < |related| && related[i].Some? :: related[i].value.name
  }

  /** The general granted, as extra skills, every registered skill of
      `related` in turn. */
  function GrantRelated(g: General, related: seq<Option<Skill>>): (g': General)
    ensures ExtraSkillSet(g') == ExtraSkillSet(g) + GrantedNames(related)
    ensures g'.skillSet == g.skillSet
    ensures g' == g.(extraNames := g'.extraNames, skillNameList := g'.skillNameList)
    decreases |related|
  {
    if |related| == 0 then g
    else
      var step := if related[0].Some? then AddSkillName(g, related[0].value.name) else g;
      ExtraSkillSetUpdates(g, if related[0].Some? then related[0].value.name else "");
      assert GrantedNames(related) == GrantedNames(related[..1]) + GrantedNames(related[1..]) by {
        forall n | n in GrantedNames(related)
          ensures n in GrantedNames(related[..1]) + GrantedNames(related[1..])
        {
          var i :| 0 <= i < |related| && related[i].Some? && related[i].value.name == n;
          if i > 0 { assert related[1..][i - 1] == related[i]; }
        }
        forall n | n in GrantedNames(related[1..])
          ensures n in GrantedNames(related)
        {
          var i :| 0 <= i < |related[1..]| && related[1..][i].Some? && related[1..][i].value.name == n;
          assert related[i + 1] == related[1..][i];
        }
      }
      GrantRelated(step, related[1..])
  }

  /** The names granted for `names`: the registered skills related to
      each name that does not start with `#`. */
  function RelatedGrants(reg: Registry, names: seq<string>): set<string>
    decreases |names|
  {
    if |names| == 0 then {}
    else
      (if StartsWith(names[0], '#') then {} else GrantedNames(GetRelatedSkills(reg, names[0])))
      + RelatedGrants(reg, names[1..])
  }

  /** In a valid registry, the skills granted for one name are exactly the
      registered skills declared related to it. */
  lemma GrantedByRelation(reg: Registry, n: string, x: string)
    requires Valid(reg)
    ensures x in GrantedNames(GetRelatedSkills(reg, n)) <==> (n, x) in reg.relatedSkills && x in reg.skills
  {
    var rs := GetRelatedSkills(reg, n);
    var vs := RelatedValues(reg.relatedSkills, n);
    if x in GrantedNames(rs) {
      var i :| 0 <= i < |rs| && rs[i].Some? && rs[i].value.name == x;
      assert vs[i] in vs;
    }
    if (n, x) in reg.relatedSkills && x in reg.skills {
      var i :| 0 <= i < |vs| && vs[i] == x;
      assert rs[i].Some? && rs[i].value.name == x;
    }
  }

  /** In a valid registry, a name is granted exactly when it is a
      registered skill declared related to one of the names that does not
      start with `#`. */
  lemma {:induction false} RelatedGrantsMeaning(reg: Registry, names: seq<string>, x: string)
    requires Valid(reg)
    ensures x in RelatedGrants(reg, names) <==>
      exists k :: 0 <= k < |names| && !StartsWith(names[k], '#') && (names[k], x) in reg.relatedSkills && x in reg.skills
    decreases |names|
  {
    if |names| > 0 {
      RelatedGrantsMeaning(reg, names[1..], x);
      GrantedByRelation(reg, names[0], x);
      assert forall k :: 1 <= k < |names| ==> names[k] == names[1..][k - 1];
      if x in RelatedGrants(reg, names[1..]) {
        var k :| 0 <= k < |names[1..]| && !StartsWith(names[1..][k], '#')
          && (names[1..][k], x) in reg.relatedSkills && x in reg.skills;
        assert names[k + 1] == names[1..][k];
      }
    }
  }

  /** For each name of `names` not starting with `#`, grant the general
      the skills related to it. */
  function AbsorbRelated(reg: Registry, g: General, names: seq<string>): (g': General)
    ensures ExtraSkillSet(g') == ExtraSkillSet(g) + RelatedGrants(reg, names)
    ensures g'.skillSet == g.skillSet
    ensures g' == g.(extraNames := g'.extraNames, skillNameList := g'.skillNameList)
    decreases |names|
  {
    if |names| == 0 then g
    else
      var step := if StartsWith(names[0], '#') then g else GrantRelated(g, GetRelatedSkills(reg, names[0]));
      AbsorbRelated(reg, step, names[1..])
  }

  /** Granting related skills keeps a general's skill-name invariants. */
  lemma {:induction false} GrantRelatedValid(g: General, related: seq<Option<Skill>>)
    requires Generals.Valid(g)
    ensures Generals.Valid(GrantRelated(g, related))
    decreases |related|
  {
    if |related| > 0 {
      var step := if related[0].Some? then AddSkillName(g, related[0].value.name) else g;
      GrantRelatedValid(step, related[1..]);
    }
  }

  /** Walking the extra skills keeps a general's skill-name invariants. */
  lemma {:induction false} AbsorbRelatedValid(reg: Registry, g: General, names: seq<string>)
    requires Generals.Valid(g)
    ensures Generals.Valid(AbsorbRelated(reg, g, names))
    decreases |names|
  {
    if |names| > 0 {
      var step := if StartsWith(names[0], '#') then g else GrantRelated(g, GetRelatedSkills(reg, names[0]));
      if !StartsWith(names[0], '#') {
        GrantRelatedValid(g, GetRelatedSkills(reg, names[0]));
      }
      AbsorbRelatedValid(reg, step, names[1..]);
    }
  }

  /** One general of a package: its own skills are added, it is granted the
      skills related to its extra skills, it is listed and filed under its
      name, and it joins the lord list when it is a lord that the
      configuration does not hide. */
  function AddGeneral(reg: Registry, e: GeneralEntry, cfg: HiddenConfig): (r: Registry)
    ensures |r.generalList| == |reg.generalList| + 1
    ensures r.generalList[..|reg.generalList|] == reg.generalList
    ensures r.generalList[|reg.generalList|]
      == AbsorbRelated(AddSkills(reg, AsEntries(e.skills)), e.general, e.general.extraNames)
    ensures r.generalList[|reg.generalList|].name == e.general.name
    ensures r.generalHash == reg.generalHash[e.general.name := r.generalList[|reg.generalList|]]
    ensures r.lordList == reg.lordList
      + (if e.general.lord && !HiddenByConfig(e.general.hidden, e.general.name, cfg) then [e.general.name] else [])
    ensures r.packages == reg.packages && r.cards == reg.cards && r.patterns == reg.patterns
    ensures r.relatedSkills == reg.relatedSkills && r.enginePatterns == reg.enginePatterns
  {
    var r1 := AddSkills(reg, AsEntries(e.skills));
    var g := AbsorbRelated(r1, e.general, e.general.extraNames);
    var r2 := r1.(generalList := r1.generalList + [g], generalHash := r1.generalHash[g.name := g]);
    assert r2.generalList[..|reg.generalList|] == reg.generalList;
    if HiddenByConfig(g.hidden, g.name, cfg) || !g.lord then r2
    else r2.(lordList := r2.lordList + [g.name])
  }

  /** The general `addGeneral` lists is the entry's, granted exactly the
      skills related to its extra names that are registered once the
      entry's own skills are in. */
  lemma AddGeneralGrants(reg: Registry, e: GeneralEntry, cfg: HiddenConfig)
    ensures var g := AddGeneral(reg, e, cfg).generalList[|reg.generalList|];
      Extends(g, e.general)
      && ExtraSkillSet(g) == ExtraSkillSet(e.general)
           + RelatedGrants(AddSkills(reg, AsEntries(e.skills)), e.general.extraNames)
  {
  }

  /** The entry's own skills enter the name map and the kind lists exactly
      as `addSkills` leaves them. */
  lemma AddGeneralSkills(reg: Registry, e: GeneralEntry, cfg: HiddenConfig)
    ensures AddGeneral(reg, e, cfg).skills == AddSkills(reg, AsEntries(e.skills)).skills
    ensures forall l :: KindSkills(AddGeneral(reg, e, cfg), l) == KindSkills(reg, l) + SkillsForList(AsEntries(e.skills), l)
  {
    var r1 := AddSkills(reg, AsEntries(e.skills));
    var r := AddGeneral(reg, e, cfg);
    assert r == r1.(generalList := r.generalList, generalHash := r.generalHash, lordList := r.lordList);
    forall l ensures KindSkills(r, l) == KindSkills(reg, l) + SkillsForList(AsEntries(e.skills), l) {
      assert KindSkills(r, l) == KindSkills(r1, l);
    }
  }

  /** A lord is listed exactly when the registry, with the general filed,
      does not hide it. */
  lemma AddGeneralLord(reg: Registry, e: GeneralEntry, cfg: HiddenConfig)
    ensures var r := AddGeneral(reg, e, cfg);
      r.lordList == reg.lordList
        + (if e.general.lord && !IsGeneralHidden(r, e.general.name, cfg) then [e.general.name] else [])
  {
  }

  /** The general's own skills are all among the skill objects the entry
      supplies, as every general declared in a package is built. */
  predicate OwnsItsSkills(e: GeneralEntry)
  {
    forall n :: n in e.general.skillSet ==> exists i :: 0 <= i < |e.skills| && e.skills[i].name == n
  }

  /** When the entry supplies the objects of its own skills, each of them
      resolves by name once the general is added. */
  lemma OwnedSkillsResolve(reg: Registry, e: GeneralEntry, cfg: HiddenConfig)
    requires OwnsItsSkills(e)
    ensures forall n :: n in e.general.skillSet ==> n in AddGeneral(reg, e, cfg).skills
  {
    var xs := AsEntries(e.skills);
    AddGeneralSkills(reg, e, cfg);
    forall n | n in e.general.skillSet
      ensures n in AddGeneral(reg, e, cfg).skills
    {
      var i :| 0 <= i < |e.skills| && e.skills[i].name == n;
      LastNamedMeaning(xs, n);
      assert xs[i] == Some(e.skills[i]);
    }
  }

  /** Adding a well-formed general keeps the registry well formed: the
      general listed is the one granted its related skills, which keeps
      its skill-name invariants. */
  lemma AddGeneralValid(reg: Registry, e: GeneralEntry, cfg: HiddenConfig)
    requires Valid(reg) && Generals.Valid(e.general)
    ensures Valid(AddGeneral(reg, e, cfg))
  {
    var r1 := AddSkills(reg, AsEntries(e.skills));
    AddSkillsValid(reg, AsEntries(e.skills));
    AddGeneralSkills(reg, e, cfg);
    var g := AbsorbRelated(r1, e.general, e.general.extraNames);
    AbsorbRelatedValid(r1, e.general, e.general.extraNames);
    var r := AddGeneral(reg, e, cfg);
    assert r.generalList == r1.generalList + [g];
  }

  /** A general's own skills as non-null `addSkills` entries. */
  function AsEntries(skills: seq<Skill>): (xs: seq<Option<Skill>>)
    ensures |xs| == |skills|
    ensures forall i :: 0 <= i < |xs| ==> xs[i] == Some(skills[i])
    decreases |skills|
  {
    if |skills| == 0 then []
    else
      var rest := AsEntries(skills[1..]);
      assert forall i :: 1 <= i < |skills| ==> skills[i] == skills[1..][i - 1];
      [Some(skills[0])] + rest
  }

  /** The skill entries of a run of general entries, in order. */
  function AllEntries(es: seq<GeneralEntry>): seq<Option<Skill>>
    decreases |es|
  {
    if |es| == 0 then [] else AsEntries(es[0].skills) + AllEntries(es[1..])
  }

  /** The names of the lords among `es` the configuration does not hide,
      in order. */
  function ShownLords(es: seq<GeneralEntry>, cfg: HiddenConfig): seq<string>
    decreases |es|
  {
    if |es| == 0 then []
    else
      var g := es[0].general;
      (if g.lord && !HiddenByConfig(g.hidden, g.name, cfg) then [g.name] else []) + ShownLords(es[1..], cfg)
  }

  /** A name is among the shown lords exactly when some lord of the run
      carries it and the configuration does not hide that lord. */
  lemma {:induction false} ShownLordsMeaning(es: seq<GeneralEntry>, cfg: HiddenConfig, n: string)
    ensures n in ShownLords(es, cfg) <==>
      exists i :: 0 <= i < |es| && es[i].general.name == n && es[i].general.lord
        && !HiddenByConfig(es[i].general.hidden, n, cfg)
    decreases |es|
  {
    if |es| > 0 {
      ShownLordsMeaning(es[1..], cfg, n);
      assert forall i :: 1 <= i < |es| ==> es[i] == es[1..][i - 1];
      if n in ShownLords(es[1..], cfg) {
        var i :| 0 <= i < |es[1..]| && es[1..][i].general.name == n && es[1..][i].general.lord
          && !HiddenByConfig(es[1..][i].general.hidden, n, cfg);
        assert es[i + 1] == es[1..][i];
      }
    }
  }

  /** `g'` is `g` with some more skills granted. */
  predicate Extends(g': General, g: General)
  {
    g' == g.(extraNames := g'.extraNames, skillNameList := g'.skillNameList)
    && ExtraSkillSet(g) <= ExtraSkillSet(g')
  }

  function AddGenerals(reg: Registry, es: seq<GeneralEntry>, cfg: HiddenConfig): (r: Registry)
    ensures |r.generalList| == |reg.generalList| + |es|
    ensures r.generalList[..|reg.generalList|] == reg.generalList
    ensures r.packages == reg.packages && r.cards == reg.cards && r.patterns == reg.patterns
    ensures r.relatedSkills == reg.relatedSkills && r.enginePatterns == reg.enginePatterns
    decreases |es|
  {
    if |es| == 0 then reg
    else
      var step := AddGeneral(reg, es[0], cfg);
      var r := AddGenerals(step, es[1..], cfg);
      var n := |reg.generalList|;
      assert r.generalList[..n] == step.generalList[..|step.generalList|][..n];
      r
  }

  /** The lords a run lists are its shown lords, in order. */
  lemma {:induction false} AddGeneralsLords(reg: Registry, es: seq<GeneralEntry>, cfg: HiddenConfig)
    ensures AddGenerals(reg, es, cfg).lordList == reg.lordList + ShownLords(es, cfg)
    decreases |es|
  {
    if |es| == 0 {
      assert reg.lordList + ShownLords(es, cfg) == reg.lordList;
    } else {
      var step := AddGeneral(reg, es[0], cfg);
      AddGeneralsUnfold(reg, es, cfg);
      AddGeneralsLords(step, es[1..], cfg);
      var g := es[0].general;
      var shown := if g.lord && !HiddenByConfig(g.hidden, g.name, cfg) then [g.name] else [];
      assert step.lordList == reg.lordList + shown;
      assert ShownLords(es, cfg) == shown + ShownLords(es[1..], cfg);
      AppendAssociates(reg.lordList, shown, ShownLords(es[1..], cfg));
    }
  }

  /** Each general of the run is appended, in order, with only more skills
      granted. */
  lemma AddGeneralsShape(reg: Registry, es: seq<GeneralEntry>, cfg: HiddenConfig, i: int)
    requires 0 <= i < |es|
    ensures Extends(AddGenerals(reg, es, cfg).generalList[|reg.generalList| + i], es[i].general)
  {
    AddGeneralsShapeAt(reg, es, cfg, i, |reg.generalList| + i);
  }

  /** `AddGeneralsShape` with the list position `k` of the i-th general
      named, so that the induction never shifts an index. */
  lemma {:induction false} AddGeneralsShapeAt(reg: Registry, es: seq<GeneralEntry>, cfg: HiddenConfig, i: int, k: int)
    requires 0 <= i < |es| && k == |reg.generalList| + i
    ensures Extends(AddGenerals(reg, es, cfg).generalList[k], es[i].general)
    decreases |es|, 1
  {
    if i == 0 {
      AddGeneralsShapeFirst(reg, es, cfg);
    } else {
      AddGeneralsShapeNext(reg, es, cfg, i, k);
    }
  }

  /** A later general of the run is the one the rest of the run appends. */
  lemma {:induction false} AddGeneralsShapeNext(reg: Registry, es: seq<GeneralEntry>, cfg: HiddenConfig, i: int, k: int)
    requires 0 < i < |es| && k == |reg.generalList| + i
    ensures Extends(AddGenerals(reg, es, cfg).generalList[k], es[i].general)
    decreases |es|, 0
  {
    var step := AddGeneral(reg, es[0], cfg);
    AddGeneralsTail(reg, es, cfg, k);
    assert es[1..][i - 1] == es[i];
    AddGeneralsShapeAt(step, es[1..], cfg, i - 1, k);
  }

  lemma AddGeneralsShapeFirst(reg: Registry, es: seq<GeneralEntry>, cfg: HiddenConfig)
    requires 0 < |es|
    ensures Extends(AddGenerals(reg, es, cfg).generalList[|reg.generalList|], es[0].general)
  {
    AddGeneralsFirst(reg, es, cfg);
    AddGeneralGrants(reg, es[0], cfg);
  }

  /** The generals a run appends after its first are those the rest of the
      run appends, at the same positions. */
  lemma AddGeneralsTail(reg: Registry, es: seq<GeneralEntry>, cfg: HiddenConfig, k: int)
    requires 0 < |es| && |reg.generalList| < k < |reg.generalList| + |es|
    ensures AddGenerals(reg, es, cfg).generalList[k]
      == AddGenerals(AddGeneral(reg, es[0], cfg), es[1..], cfg).generalList[k]
  {
    AddGeneralsUnfold(reg, es, cfg);
  }

  lemma AddGeneralsUnfold(reg: Registry, es: seq<GeneralEntry>, cfg: HiddenConfig)
    requires 0 < |es|
    ensures AddGenerals(reg, es, cfg) == AddGenerals(AddGeneral(reg, es[0], cfg), es[1..], cfg)
  {
  }

  /** The first general appended by a run is the one `addGeneral` lists
      for the run's first entry. */
  lemma AddGeneralsFirst(reg: Registry, es: seq<GeneralEntry>, cfg: HiddenConfig)
    requires 0 < |es|
    ensures AddGenerals(reg, es, cfg).generalList[|reg.generalList|]
      == AddGeneral(reg, es[0], cfg).generalList[|reg.generalList|]
  {
    var step := AddGeneral(reg, es[0], cfg);
    var r := AddGenerals(step, es[1..], cfg);
    assert AddGenerals(reg, es, cfg) == r;
    assert r.generalList[..|step.generalList|][|reg.generalList|] == r.generalList[|reg.generalList|];
  }

  /** The generals' own skills enter the name map and the kind lists in
      order, as adding them all in one run would. */
  lemma {:induction false} AddGeneralsSkills(reg: Registry, es: seq<GeneralEntry>, cfg: HiddenConfig)
    ensures AddGenerals(reg, es, cfg).skills == AddSkills(reg, AllEntries(es)).skills
    ensures forall l :: KindSkills(AddGenerals(reg, es, cfg), l) == KindSkills(reg, l) + SkillsForList(AllEntries(es), l)
    decreases |es|
  {
    if |es| > 0 {
      var step := AddGeneral(reg, es[0], cfg);
      AddGeneralsSkills(step, es[1..], cfg);
      AddGeneralSkills(reg, es[0], cfg);
      AddSkillsNameFrame(step, AddSkills(reg, AsEntries(es[0].skills)), AllEntries(es[1..]));
      AddSkillsAppend(reg, AsEntries(es[0].skills), AllEntries(es[1..]));
      forall l ensures KindSkills(AddGenerals(reg, es, cfg), l) == KindSkills(reg, l) + SkillsForList(AllEntries(es), l) {
        SkillsForListAppend(AsEntries(es[0].skills), AllEntries(es[1..]), l);
      }
    }
  }

  /** `generalHash` after filing each of `gs` in turn under its name. */
  function FileAll(h: map<string, General>, gs: seq<General>): map<string, General>
    decreases |gs|
  {
    if |gs| == 0 then h else FileAll(h[gs[0].name := gs[0]], gs[1..])
  }

  /** Filing a run: every general is filed, the last of a name wins, and
      names the run does not use keep what they had. */
  lemma {:induction false} FileAllFiles(h: map<string, General>, gs: seq<General>, i: int)
    requires 0 <= i < |gs|
    ensures gs[i].name in FileAll(h, gs)
    ensures (forall j :: i < j < |gs| ==> gs[j].name != gs[i].name) ==> FileAll(h, gs)[gs[i].name] == gs[i]
    decreases |gs|
  {
    if i == 0 {
      if j :| 0 < j < |gs| && gs[j].name == gs[0].name {
        FileAllFiles(h[gs[0].name := gs[0]], gs[1..], j - 1);
        assert gs[1..][j - 1] == gs[j];
      } else {
        assert forall k :: 0 <= k < |gs[1..]| ==> gs[1..][k] == gs[k + 1];
        FileAllKeeps(h[gs[0].name := gs[0]], gs[1..], gs[0].name);
      }
    } else {
      FileAllFiles(h[gs[0].name := gs[0]], gs[1..], i - 1);
      assert gs[1..][i - 1] == gs[i];
      if forall j :: i < j < |gs| ==> gs[j].name != gs[i].name {
        forall j | i - 1 < j < |gs[1..]|
          ensures gs[1..][j].name != gs[1..][i - 1].name
        {
          assert gs[1..][j] == gs[j + 1];
        }
      }
    }
  }

  lemma {:induction false} FileAllKeeps(h: map<string, General>, gs: seq<General>, m: string)
    requires forall i :: 0 <= i < |gs| ==> gs[i].name != m
    ensures (m in FileAll(h, gs) <==> m in h) && (m in h ==> FileAll(h, gs)[m] == h[m])
    decreases |gs|
  {
    if |gs| > 0 {
      assert forall i :: 0 <= i < |gs[1..]| ==> gs[1..][i] == gs[i + 1];
      FileAllKeeps(h[gs[0].name := gs[0]], gs[1..], m);
    }
  }

  /** `addGeneral` over a run files the generals it appends, in order. */
  lemma {:induction false} AddGeneralsFiling(reg: Registry, es: seq<GeneralEntry>, cfg: HiddenConfig)
    ensures var r := AddGenerals(reg, es, cfg);
      r.generalHash == FileAll(reg.generalHash, r.generalList[|reg.generalList|..])
    decreases |es|
  {
    if |es| > 0 {
      var step := AddGeneral(reg, es[0], cfg);
      var r := AddGenerals(step, es[1..], cfg);
      var n := |reg.generalList|;
      assert AddGenerals(reg, es, cfg) == r;
      AddGeneralsFiling(step, es[1..], cfg);
      var g0 := step.generalList[n];
      assert r.generalList[..|step.generalList|][n] == r.generalList[n];
      assert r.generalList[n..][1..] == r.generalList[|step.generalList|..];
      assert step.generalHash == reg.generalHash[g0.name := g0];
    }
  }

  /** Every general of the run is filed under its name. */
  lemma AddGeneralsFiled(reg: Registry, es: seq<GeneralEntry>, cfg: HiddenConfig, i: int)
    requires 0 <= i < |es|
    ensures es[i].general.name in AddGenerals(reg, es, cfg).generalHash
  {
    var r := AddGenerals(reg, es, cfg);
    var gs := r.generalList[|reg.generalList|..];
    AddGeneralsFiling(reg, es, cfg);
    AddGeneralsShape(reg, es, cfg, i);
    FileAllFiles(reg.generalHash, gs, i);
    assert gs[i] == r.generalList[|reg.generalList| + i];
  }

  /** No general after position `i` of the run carries the name of the
      general at `i`. */
  predicate LastOfItsName(es: seq<GeneralEntry>, i: int)
    requires 0 <= i < |es|
  {
    forall j :: i < j < |es| ==> es[j].general.name != es[i].general.name
  }

  /** The last general of the run with a given name is the one filed
      under it. */
  lemma AddGeneralsFiledLast(reg: Registry, es: seq<GeneralEntry>, cfg: HiddenConfig, i: int)
    requires 0 <= i < |es| && LastOfItsName(es, i)
    ensures es[i].general.name in AddGenerals(reg, es, cfg).generalHash
    ensures AddGenerals(reg, es, cfg).generalHash[es[i].general.name]
      == AddGenerals(reg, es, cfg).generalList[|reg.generalList| + i]
  {
    var r := AddGenerals(reg, es, cfg);
    var n := |reg.generalList|;
    var gs := r.generalList[n..];
    AddGeneralsFiling(reg, es, cfg);
    forall j | 0 <= j < |es|
      ensures gs[j].name == es[j].general.name
    {
      AddGeneralsShape(reg, es, cfg, j);
      assert gs[j] == r.generalList[n + j];
    }
    FileAllFiles(reg.generalHash, gs, i);
  }

  lemma {:induction false} AddGeneralsValid(reg: Registry, es: seq<GeneralEntry>, cfg: HiddenConfig)
    requires Valid(reg) && forall i :: 0 <= i < |es| ==> Generals.Valid(es[i].general)
    ensures Valid(AddGenerals(reg, es, cfg))
    decreases |es|
  {
    if |es| > 0 {
      AddGeneralValid(reg, es[0], cfg);
      AddGeneralsValid(AddGeneral(reg, es[0], cfg), es[1..], cfg);
    }
  }

  /** The cards of a package, numbered on from `start` in order. */
  function NumberCards(cs: seq<Card>, start: int): (r: seq<Card>)
    ensures |r| == |cs|
    ensures forall i :: 0 <= i < |r| ==> r[i] == cs[i].(id := start + i)
  {
    seq(|cs|, i requires 0 <= i < |cs| => cs[i].(id := start + i))
  }

  predicate IsRegistered(reg: Registry, name: string)
  {
    exists i :: 0 <= i < |reg.packages| && reg.packages[i].name == name
  }

  /** The first step of `addPackage`: the package is recorded, its patterns
      and related pairs are merged in and its cards numbered on. */
  function RecordPackage(reg: Registry, pkg: Package): (r: Registry)
    ensures r.packages == reg.packages + [pkg]
    ensures r.cards == reg.cards + NumberCards(pkg.cards, |reg.cards|)
    ensures r.patterns == reg.patterns + pkg.patterns
    ensures r.relatedSkills == reg.relatedSkills + pkg.relatedSkills
    ensures r.generalList == reg.generalList && r.generalHash == reg.generalHash
    ensures r.skills == reg.skills && r.lordList == reg.lordList && r.enginePatterns == reg.enginePatterns
    ensures forall l :: KindSkills(r, l) == KindSkills(reg, l)
  {
    reg.(packages := reg.packages + [pkg],
         patterns := reg.patterns + pkg.patterns,
         relatedSkills := reg.relatedSkills + pkg.relatedSkills,
         cards := reg.cards + NumberCards(pkg.cards, |reg.cards|))
  }

  lemma RecordPackageValid(reg: Registry, pkg: Package)
    requires Valid(reg) && !IsRegistered(reg, pkg.name)
    ensures Valid(RecordPackage(reg, pkg))
  {
    var r1 := RecordPackage(reg, pkg);
    forall i, j | 0 <= i < j < |r1.packages|
      ensures r1.packages[i].name != r1.packages[j].name
    {
      if j == |reg.packages| {
        assert r1.packages[i] == reg.packages[i];
      }
    }
    forall l, i | 0 <= i < |KindSkills(r1, l)|
      ensures ListOf(KindSkills(r1, l)[i]) == Some(l)
    {
      assert KindSkills(r1, l) == KindSkills(reg, l);
    }
  }

  /** `addPackage`: a package whose name is already registered changes
      nothing. Otherwise the package is recorded, its patterns and related
      pairs are merged in, each of its cards gets as id the number of cards
      registered before it, and its skills and generals are added. The
      registry only ever grows. */
  function AddPackage(reg: Registry, pkg: Package, cfg: HiddenConfig): (r: Registry)
    ensures IsRegistered(reg, pkg.name) ==> r == reg
    ensures IsRegistered(r, pkg.name)
    ensures !IsRegistered(reg, pkg.name) ==> r.packages == reg.packages + [pkg]
    ensures !IsRegistered(reg, pkg.name) ==> r.cards == reg.cards + NumberCards(pkg.cards, |reg.cards|)
    ensures !IsRegistered(reg, pkg.name) ==>
      |r.generalList| == |reg.generalList| + |pkg.generals|
      && r.generalList[..|reg.generalList|] == reg.generalList
    ensures !IsRegistered(reg, pkg.name) ==> r.patterns == reg.patterns + pkg.patterns
    ensures !IsRegistered(reg, pkg.name) ==> r.relatedSkills == reg.relatedSkills + pkg.relatedSkills
    ensures r.enginePatterns == reg.enginePatterns
  {
    if IsRegistered(reg, pkg.name) then reg
    else
      var r1 := RecordPackage(reg, pkg);
      assert r1.packages[|reg.packages|].name == pkg.name;
      AddGenerals(AddSkills(r1, pkg.skills), pkg.generals, cfg)
  }

  /** A newly added package's own skills, then its generals' skills, enter
      the name map in that order. */
  lemma AddPackageSkills(reg: Registry, pkg: Package, cfg: HiddenConfig)
    requires !IsRegistered(reg, pkg.name)
    ensures AddPackage(reg, pkg, cfg).skills == AddSkills(reg, pkg.skills + AllEntries(pkg.generals)).skills
  {
    var r1 := RecordPackage(reg, pkg);
    var r2 := AddSkills(r1, pkg.skills);
    var all := AllEntries(pkg.generals);
    assert AddPackage(reg, pkg, cfg) == AddGenerals(r2, pkg.generals, cfg);
    AddGeneralsSkills(r2, pkg.generals, cfg);
    AddSkillsNameFrame(r1, reg, pkg.skills);
    assert r2.skills == AddSkills(reg, pkg.skills).skills;
    AddSkillsNameFrame(r2, AddSkills(reg, pkg.skills), all);
    AddSkillsAppend(reg, pkg.skills, all);
    assert AddSkills(r2, all).skills == AddSkills(reg, pkg.skills + all).skills;
  }

  /** ... and enter the kind lists in that order. */
  lemma AddPackageKinds(reg: Registry, pkg: Package, cfg: HiddenConfig, l: KindList)
    requires !IsRegistered(reg, pkg.name)
    ensures KindSkills(AddPackage(reg, pkg, cfg), l)
      == KindSkills(reg, l) + SkillsForList(pkg.skills + AllEntries(pkg.generals), l)
  {
    var r1 := RecordPackage(reg, pkg);
    var r2 := AddSkills(r1, pkg.skills);
    var all := AllEntries(pkg.generals);
    assert AddPackage(reg, pkg, cfg) == AddGenerals(r2, pkg.generals, cfg);
    AddGeneralsSkills(r2, pkg.generals, cfg);
    assert KindSkills(AddGenerals(r2, pkg.generals, cfg), l) == KindSkills(r2, l) + SkillsForList(all, l);
    assert KindSkills(r2, l) == KindSkills(reg, l) + SkillsForList(pkg.skills, l);
    SkillsForListAppend(pkg.skills, all, l);
    AppendAssociates(KindSkills(reg, l), SkillsForList(pkg.skills, l), SkillsForList(all, l));
  }

  /** A newly added package lists its shown lords, in order. */
  lemma AddPackageLords(reg: Registry, pkg: Package, cfg: HiddenConfig)
    requires !IsRegistered(reg, pkg.name)
    ensures AddPackage(reg, pkg, cfg).lordList == reg.lordList + ShownLords(pkg.generals, cfg)
  {
    AddGeneralsLords(AddSkills(RecordPackage(reg, pkg), pkg.skills), pkg.generals, cfg);
  }

  /** Each general of a newly added package is appended, in order, with
      only more skills granted. */
  lemma AddPackageShape(reg: Registry, pkg: Package, cfg: HiddenConfig, i: int)
    requires !IsRegistered(reg, pkg.name) && 0 <= i < |pkg.generals|
    ensures Extends(AddPackage(reg, pkg, cfg).generalList[|reg.generalList| + i], pkg.generals[i].general)
  {
    AddGeneralsShape(AddSkills(RecordPackage(reg, pkg), pkg.skills), pkg.generals, cfg, i);
  }

  /** Every general of a newly added package is filed under its name. */
  lemma AddPackageFiled(reg: Registry, pkg: Package, cfg: HiddenConfig)
    requires !IsRegistered(reg, pkg.name)
    ensures var r := AddPackage(reg, pkg, cfg);
      forall i :: 0 <= i < |pkg.generals| ==> pkg.generals[i].general.name in r.generalHash
  {
    forall i | 0 <= i < |pkg.generals| {
      AddGeneralsFiled(AddSkills(RecordPackage(reg, pkg), pkg.skills), pkg.generals, cfg, i);
    }
  }

  /** Adding the same package twice is the same as adding it once; in
      particular the skill, general and card counts do not change. */
  lemma AddPackageIdempotent(reg: Registry, pkg: Package, cfg: HiddenConfig)
    ensures AddPackage(AddPackage(reg, pkg, cfg), pkg, cfg) == AddPackage(reg, pkg, cfg)
  {
  }

  /** The registry invariants survive adding a package whose generals keep
      theirs; in particular card ids stay exactly 0..n-1 in insertion order. */
  lemma AddPackageValid(reg: Registry, pkg: Package, cfg: HiddenConfig)
    requires Valid(reg)
    requires forall i :: 0 <= i < |pkg.generals| ==> Generals.Valid(pkg.generals[i].general)
    ensures Valid(AddPackage(reg, pkg, cfg))
    ensures var r := AddPackage(reg, pkg, cfg);
      forall i :: 0 <= i < |r.cards| ==> r.cards[i].id == i
  {
    if !IsRegistered(reg, pkg.name) {
      RecordPackageValid(reg, pkg);
      AddSkillsValid(RecordPackage(reg, pkg), pkg.skills);
      AddGeneralsValid(AddSkills(RecordPackage(reg, pkg), pkg.skills), pkg.generals, cfg);
    }
  }
}
