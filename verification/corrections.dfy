/** The correction aggregators: folds over the registry's per-kind skill
    lists that combine every skill's answer into one number (or, for
    prohibition, pick the first skill that objects). What a skill answers
    depends on game state the engine does not own, so each per-skill answer,
    and the card-pattern match, is a function passed in. */
module Corrections {
  import opened Wrappers
  import opened Skills
  import opened Engine

  /** Answers at or above this bound mean "no limit" for the residue and
      distance-limit knobs. */
  const NoLimitThreshold: int := 998

  function Max(a: int, b: int): int { if a >= b then a else b }

  // ------------------------------------------------ reference definitions

  /** The sum of every skill's answer. */
  function SumOf(skills: seq<Skill>, f: Skill -> int): int
  {
    if |skills| == 0 then 0 else f(skills[0]) + SumOf(skills[1..], f)
  }

  lemma {:induction false} SumOfAppend(a: seq<Skill>, b: seq<Skill>, f: Skill -> int)
    ensures SumOf(a + b, f) == SumOf(a, f) + SumOf(b, f)
    decreases |a|
  {
    if |a| == 0 {
      assert a + b == b;
    } else {
      assert (a + b)[1..] == a[1..] + b;
      SumOfAppend(a[1..], b, f);
    }
  }

  /** The largest answer, or 0 when every answer is below 0 or there are
      no skills. */
  function MaxFrom0(skills: seq<Skill>, f: Skill -> int): (r: int)
    ensures r >= 0
    ensures forall i :: 0 <= i < |skills| ==> f(skills[i]) <= r
    ensures r == 0 || exists i :: 0 <= i < |skills| && r == f(skills[i])
  {
    if |skills| == 0 then 0
    else
      var rest := MaxFrom0(skills[1..], f);
      assert forall i :: 1 <= i < |skills| ==> skills[i] == skills[1..][i - 1];
      Max(f(skills[0]), rest)
  }

  // ------------------------------------------------------------ folds

  /** `x += f(skill)` for every skill in turn. */
  function SumFold(skills: seq<Skill>, f: Skill -> int, acc: int): (r: int)
    ensures r == acc + SumOf(skills, f)
  {
    if |skills| == 0 then acc else SumFold(skills[1..], f, acc + f(skills[0]))
  }

  /** The max-cards / attack-range loop: with `fixed`, keep the largest
      fixed answer seen so far (starting from `acc`); without, add up the
      extra answers. */
  function CorrectionFold(skills: seq<Skill>, fixed: bool, fixedOf: Skill -> int, extraOf: Skill -> int, acc: int): (r: int)
    ensures fixed && acc >= 0 ==> r == Max(acc, MaxFrom0(skills, fixedOf))
    ensures !fixed ==> r == acc + SumOf(skills, extraOf)
  {
    if |skills| == 0 then acc
    else
      var s := skills[0];
      var next := if fixed then (if fixedOf(s) > acc then fixedOf(s) else acc) else acc + extraOf(s);
      CorrectionFold(skills[1..], fixed, fixedOf, extraOf, next)
  }

  // ------------------------------------------------------ prohibition

  /** The first skill, in list order, that `p` accepts. */
  function FirstWhere(skills: seq<Skill>, p: Skill -> bool): (r: Option<Skill>)
    ensures r.None? <==> forall i :: 0 <= i < |skills| ==> !p(skills[i])
    ensures r.Some? ==>
      (exists i :: 0 <= i < |skills| && skills[i] == r.value && p(skills[i])
         && forall j :: 0 <= j < i ==> !p(skills[j]))
  {
    if |skills| == 0 then None
    else if p(skills[0]) then Some(skills[0])
    else
      var r := FirstWhere(skills[1..], p);
      assert forall i :: 1 <= i < |skills| ==> skills[i] == skills[1..][i - 1];
      if r.Some? then
        var k :| 0 <= k < |skills[1..]| && skills[1..][k] == r.value && p(skills[1..][k])
          && forall j :: 0 <= j < k ==> !p(skills[1..][j]);
        assert skills[k + 1] == r.value;
        r
      else r
  }

  /** `isProhibited`: the first prohibit skill, in registration order,
      that forbids `card` from `from` to `to`; `None` when none does. */
  function IsProhibited(reg: Registry, from: Player, to: Player, card: Card, others: seq<Player>,
                        prohibits: (Skill, Player, Player, Card, seq<Player>) -> bool): (r: Option<Skill>)
    ensures r.None? <==>
      forall i :: 0 <= i < |reg.prohibitSkills| ==> !prohibits(reg.prohibitSkills[i], from, to, card, others)
    ensures r.Some? ==>
      (exists i :: 0 <= i < |reg.prohibitSkills| && reg.prohibitSkills[i] == r.value
         && prohibits(r.value, from, to, card, others)
         && forall j :: 0 <= j < i ==> !prohibits(reg.prohibitSkills[j], from, to, card, others))
  {
    FirstWhere(reg.prohibitSkills, s => prohibits(s, from, to, card, others))
  }

  // -------------------------------------------------------- distance

  /** `correctDistance`: the plain sum of every distance skill's correction. */
  function CorrectDistance(reg: Registry, from: Player, to: Player,
                           getCorrect: (Skill, Player, Player) -> int): (r: int)
    ensures r == SumOf(reg.distanceSkills, s => getCorrect(s, from, to))
  {
    SumFold(reg.distanceSkills, s => getCorrect(s, from, to), 0)
  }

  /** Two distance skills answering +1 and -2 give -1 together. */
  lemma DistanceScenario(reg: Registry, from: Player, to: Player, a: Skill, b: Skill,
                         getCorrect: (Skill, Player, Player) -> int)
    requires reg.distanceSkills == [a, b]
    requires getCorrect(a, from, to) == 1 && getCorrect(b, from, to) == -2
    ensures CorrectDistance(reg, from, to, getCorrect) == -1
  {
    var f := s => getCorrect(s, from, to);
    assert [a, b][1..] == [b];
    assert SumOf([b], f) == f(b) + SumOf([], f);
  }

  /** Registering one more distance skill adds its correction to the total. */
  lemma DistanceAdditive(skills: seq<Skill>, s: Skill, from: Player, to: Player,
                         getCorrect: (Skill, Player, Player) -> int)
    ensures SumOf(skills + [s], t => getCorrect(t, from, to))
      == SumOf(skills, t => getCorrect(t, from, to)) + getCorrect(s, from, to)
  {
    SumOfAppend(skills, [s], t => getCorrect(t, from, to));
  }

  // ------------------------------------------------ max cards, range

  /** `correctMaxCards`: without `fixed`, the sum of every skill's extra;
      with `fixed`, the largest fixed value, and 0 when none is positive,
      so a fixed result is never negative and never a sum. */
  function CorrectMaxCards(reg: Registry, target: Player, fixed: bool, countType: int,
                           getExtra: (Skill, Player, int) -> int,
                           getFixed: (Skill, Player, int) -> int): (r: int)
    ensures !fixed ==> r == SumOf(reg.maxCardsSkills, s => getExtra(s, target, countType))
    ensures fixed ==> r == MaxFrom0(reg.maxCardsSkills, s => getFixed(s, target, countType))
    ensures fixed ==> (r >= 0
      && forall i :: 0 <= i < |reg.maxCardsSkills| ==> getFixed(reg.maxCardsSkills[i], target, countType) <= r)
  {
    CorrectionFold(reg.maxCardsSkills, fixed, s => getFixed(s, target, countType),
                   s => getExtra(s, target, countType), 0)
  }

  /** `correctAttackRange`: the same split as for max cards. */
  function CorrectAttackRange(reg: Registry, target: Player, includeWeapon: bool, fixed: bool,
                              getExtra: (Skill, Player, bool) -> int,
                              getFixed: (Skill, Player, bool) -> int): (r: int)
    ensures !fixed ==> r == SumOf(reg.attackRangeSkills, s => getExtra(s, target, includeWeapon))
    ensures fixed ==> r == MaxFrom0(reg.attackRangeSkills, s => getFixed(s, target, includeWeapon))
    ensures fixed ==> (r >= 0
      && forall i :: 0 <= i < |reg.attackRangeSkills| ==> getFixed(reg.attackRangeSkills[i], target, includeWeapon) <= r)
  {
    CorrectionFold(reg.attackRangeSkills, fixed, s => getFixed(s, target, includeWeapon),
                   s => getExtra(s, target, includeWeapon), 0)
  }

  /** Fixed values 3 and 5 give 5 (not 8); fixed values all below zero give 0. */
  lemma FixedIsMaximumNotSum(reg: Registry, target: Player, a: Skill, b: Skill,
                             getExtra: (Skill, Player, int) -> int, getFixed: (Skill, Player, int) -> int)
    requires reg.maxCardsSkills == [a, b]
    ensures getFixed(a, target, 0) == 3 && getFixed(b, target, 0) == 5 ==>
      CorrectMaxCards(reg, target, true, 0, getExtra, getFixed) == 5
    ensures getFixed(a, target, 0) < 0 && getFixed(b, target, 0) < 0 ==>
      CorrectMaxCards(reg, target, true, 0, getExtra, getFixed) == 0
  {
  }

  // ---------------------------------------------------- target modifier

  /** The three knobs of a target-modifier skill. */
  datatype ModType = Residue | DistanceLimit | ExtraTarget

  /** The pattern a target-modifier skill applies to. */
  function PatternOf(s: Skill): string
  {
    if s.kind.TargetModKind? then s.kind.pattern else ""
  }

  /** The sum of the answers of the skills `matches` accepts. */
  function MatchingSum(skills: seq<Skill>, matches: Skill -> bool, value: Skill -> int): int
  {
    if |skills| == 0 then 0
    else (if matches(skills[0]) then value(skills[0]) else 0) + MatchingSum(skills[1..], matches, value)
  }

  /** The position of the first accepted skill whose answer means "no limit". */
  function FirstNoLimit(skills: seq<Skill>, matches: Skill -> bool, value: Skill -> int): (k: Option<nat>)
    ensures k.None? <==> forall i :: 0 <= i < |skills| ==> !(matches(skills[i]) && value(skills[i]) >= NoLimitThreshold)
    ensures k.Some? ==> (k.value < |skills| && matches(skills[k.value]) && value(skills[k.value]) >= NoLimitThreshold
      && forall j :: 0 <= j < k.value ==> !(matches(skills[j]) && value(skills[j]) >= NoLimitThreshold))
  {
    if |skills| == 0 then None
    else if matches(skills[0]) && value(skills[0]) >= NoLimitThreshold then Some(0)
    else
      var k := FirstNoLimit(skills[1..], matches, value);
      assert forall i :: 1 <= i < |skills| ==> skills[i] == skills[1..][i - 1];
      if k.Some? then Some(k.value + 1) else None
  }

  /** The residue / distance-limit loop: accepted answers are added to `x`,
      but the first accepted answer of at least 998 is returned as it is. */
  function CappedFold(skills: seq<Skill>, matches: Skill -> bool, value: Skill -> int, x: int): (r: int)
    ensures FirstNoLimit(skills, matches, value).None? ==> r == x + MatchingSum(skills, matches, value)
    ensures FirstNoLimit(skills, matches, value).Some? ==>
      r == value(skills[FirstNoLimit(skills, matches, value).value])
  {
    if |skills| == 0 then x
    else if matches(skills[0]) then
      var v := value(skills[0]);
      if v >= NoLimitThreshold then v
      else CappedFold(skills[1..], matches, value, x + v)
    else CappedFold(skills[1..], matches, value, x)
  }

  /** The extra-target loop: accepted answers are added to `x`, always. */
  function MatchingSumFold(skills: seq<Skill>, matches: Skill -> bool, value: Skill -> int, x: int): (r: int)
    ensures r == x + MatchingSum(skills, matches, value)
  {
    if |skills| == 0 then x
    else MatchingSumFold(skills[1..], matches, value,
                         if matches(skills[0]) then x + value(skills[0]) else x)
  }

  /** `correctCardTarget`: only the target-modifier skills whose pattern
      matches `(from, card)` contribute. For residue and distance limit
      the first contributing answer of at least 998 is the result;
      otherwise the result is the sum of the contributing answers. Extra
      targets are always summed. */
  function CorrectCardTarget(reg: Registry, modType: ModType, from: Player, card: Card,
                             patternMatch: (string, Player, Card) -> bool,
                             residueNum: (Skill, Player, Card) -> int,
                             distanceLimit: (Skill, Player, Card) -> int,
                             extraTargetNum: (Skill, Player, Card) -> int): (r: int)
    ensures modType == ExtraTarget ==>
      r == MatchingSum(reg.targetModSkills, s => patternMatch(PatternOf(s), from, card),
                       s => extraTargetNum(s, from, card))
    ensures modType == Residue ==>
      var m, v := s => patternMatch(PatternOf(s), from, card), s => residueNum(s, from, card);
      var k := FirstNoLimit(reg.targetModSkills, m, v);
      (k.None? ==> r == MatchingSum(reg.targetModSkills, m, v))
      && (k.Some? ==> r == v(reg.targetModSkills[k.value]) && r >= NoLimitThreshold)
    ensures modType == DistanceLimit ==>
      var m, v := s => patternMatch(PatternOf(s), from, card), s => distanceLimit(s, from, card);
      var k := FirstNoLimit(reg.targetModSkills, m, v);
      (k.None? ==> r == MatchingSum(reg.targetModSkills, m, v))
      && (k.Some? ==> r == v(reg.targetModSkills[k.value]) && r >= NoLimitThreshold)
  {
    var m := s => patternMatch(PatternOf(s), from, card);
    match modType
    case Residue => CappedFold(reg.targetModSkills, m, s => residueNum(s, from, card), 0)
    case DistanceLimit => CappedFold(reg.targetModSkills, m, s => distanceLimit(s, from, card), 0)
    case ExtraTarget => MatchingSumFold(reg.targetModSkills, m, s => extraTargetNum(s, from, card), 0)
  }

  /** Once an accepted "no limit" answer is met, skills after it are never
      consulted: appending skills changes nothing. */
  lemma {:induction false} NoLimitIgnoresLaterSkills(a: seq<Skill>, b: seq<Skill>, matches: Skill -> bool,
                                                    value: Skill -> int, x: int)
    requires FirstNoLimit(a, matches, value).Some?
    ensures CappedFold(a + b, matches, value, x) == CappedFold(a, matches, value, x)
    decreases |a|
  {
    assert (a + b)[0] == a[0];
    if !(matches(a[0]) && value(a[0]) >= NoLimitThreshold) {
      assert (a + b)[1..] == a[1..] + b;
      NoLimitIgnoresLaterSkills(a[1..], b, matches, value,
                                if matches(a[0]) then x + value(a[0]) else x);
    }
  }

  /** Skills whose pattern does not match make no difference. */
  lemma {:induction false} UnmatchedSkillIgnored(a: seq<Skill>, s: Skill, b: seq<Skill>, matches: Skill -> bool,
                                                value: Skill -> int, x: int)
    requires !matches(s)
    ensures CappedFold(a + [s] + b, matches, value, x) == CappedFold(a + b, matches, value, x)
    decreases |a|
  {
    if |a| == 0 {
      assert a + [s] + b == [s] + b;
      assert ([s] + b)[1..] == b;
      assert a + b == b;
    } else {
      assert (a + [s] + b)[0] == a[0] && (a + b)[0] == a[0];
      assert (a + [s] + b)[1..] == a[1..] + [s] + b;
      assert (a + b)[1..] == a[1..] + b;
      if matches(a[0]) && value(a[0]) >= NoLimitThreshold {
      } else {
        UnmatchedSkillIgnored(a[1..], s, b, matches, value,
                              if matches(a[0]) then x + value(a[0]) else x);
      }
    }
  }

  /** A running total that climbs past 998 is not a "no limit" answer:
      answers 500, 600 and -200 add up to 900. */
  lemma RunningTotalNotCapped(a: Skill, b: Skill, c: Skill, matches: Skill -> bool, value: Skill -> int)
    requires matches(a) && matches(b) && matches(c)
    requires value(a) == 500 && value(b) == 600 && value(c) == -200
    ensures CappedFold([a, b, c], matches, value, 0) == 900
  {
    assert [a, b, c][1..] == [b, c];
    assert [b, c][1..] == [c];
    assert [c][1..] == [];
    calc {
      CappedFold([a, b, c], matches, value, 0);
      CappedFold([b, c], matches, value, 500);
      CappedFold([c], matches, value, 1100);
      CappedFold([], matches, value, 900);
    }
  }
}
