/** The values the engine passes around without looking inside: skills,
    players and cards. A skill is one tagged record whose `kind` says which
    capability it has, standing for the class a skill object belongs to. */
module Skills {
  import opened Wrappers

  /** The capability of a skill. Only target-modifier skills carry a
      pattern and only trigger skills a global flag; every kind the engine
      does not index (view-as, card-transform, ...) is `OtherKind`. */
  datatype SkillKind =
    | ProhibitKind
    | DistanceKind
    | MaxCardsKind
    | TargetModKind(pattern: string)
    | AttackRangeKind
    | TriggerKind(global: bool)
    | OtherKind

  datatype Skill = Skill(name: string, visible: bool, kind: SkillKind)

  /** The per-kind lists the engine keeps. */
  datatype KindList =
    ProhibitList | DistanceList | MaxCardsList | TargetModList | AttackRangeList | GlobalTriggerList

  /** The list a registered skill enters, decided in the order prohibit,
      distance, max-cards, target-modifier, attack-range, trigger; a
      trigger skill enters the global list only when it is global, and any
      other skill enters none. Being a function, this puts each skill in
      at most one list. */
  function ListOf(s: Skill): (l: Option<KindList>)
    ensures l == Some(ProhibitList) <==> s.kind.ProhibitKind?
    ensures l == Some(DistanceList) <==> s.kind.DistanceKind?
    ensures l == Some(MaxCardsList) <==> s.kind.MaxCardsKind?
    ensures l == Some(TargetModList) <==> s.kind.TargetModKind?
    ensures l == Some(AttackRangeList) <==> s.kind.AttackRangeKind?
    ensures l == Some(GlobalTriggerList) <==> s.kind == TriggerKind(true)
    ensures l.None? <==> s.kind.OtherKind? || s.kind == TriggerKind(false)
  {
    match s.kind
    case ProhibitKind => Some(ProhibitList)
    case DistanceKind => Some(DistanceList)
    case MaxCardsKind => Some(MaxCardsList)
    case TargetModKind(_) => Some(TargetModList)
    case AttackRangeKind => Some(AttackRangeList)
    case TriggerKind(global) => if global then Some(GlobalTriggerList) else None
    case OtherKind => None
  }

  /** A player, known to the engine only by its object name. */
  datatype Player = Player(name: string)

  /** A registered card: its object name and its engine-wide id. */
  datatype Card = Card(name: string, id: int)
}
