/** The shared enumerations of the game: card suits and colours, handling
    methods, genders, phases, the card-use reasons, the guanxing arrangement
    and the closed vocabulary of trigger events. Each enumeration whose
    numeric value matters is a datatype with a value function, and that
    function is shown injective by an inverse. */
module Enumeration {
  import opened Wrappers

  // ---------------------------------------------------------------- suits

  /** Suits and the two colour classes share one numbering: a concrete
      suit is its colour plus 1 or 2. */
  datatype CardSuit = NoSuit | Black | Red | Spade | Club | Heart | Diamond | Tbd {
    predicate IsConcrete() {
      Spade? || Club? || Heart? || Diamond?
    }
  }

  const BlackValue: int := 0x100
  const RedValue: int := 0x200

  function SuitValue(s: CardSuit): int
  {
    match s
    case NoSuit => 0x0
    case Black => BlackValue
    case Red => RedValue
    case Spade => BlackValue + 1
    case Club => BlackValue + 2
    case Heart => RedValue + 1
    case Diamond => RedValue + 2
    case Tbd => -1
  }

  /** The suit a stored number denotes, if any. */
  function SuitOfValue(v: int): (r: Option<CardSuit>)
    ensures r.Some? ==> SuitValue(r.value) == v
  {
    if v == 0x0 then Some(NoSuit)
    else if v == BlackValue then Some(Black)
    else if v == RedValue then Some(Red)
    else if v == BlackValue + 1 then Some(Spade)
    else if v == BlackValue + 2 then Some(Club)
    else if v == RedValue + 1 then Some(Heart)
    else if v == RedValue + 2 then Some(Diamond)
    else if v == -1 then Some(Tbd)
    else None
  }

  /** Every suit value decodes back to its suit, so distinct suits have
      distinct values. */
  lemma SuitValueRoundTrip(s: CardSuit)
    ensures SuitOfValue(SuitValue(s)) == Some(s)
  {
  }

  lemma SuitValueInjective(s: CardSuit, t: CardSuit)
    ensures SuitValue(s) == SuitValue(t) ==> s == t
  {
    SuitValueRoundTrip(s);
    SuitValueRoundTrip(t);
  }

  /** The colour class of a concrete suit: its value rounded down to a
      multiple of 0x100. */
  function SuitColour(s: CardSuit): (c: CardSuit)
    requires s.IsConcrete()
    ensures c == Black || c == Red
    ensures SuitValue(c) == (SuitValue(s) / 0x100) * 0x100
    ensures c == Black <==> (s == Spade || s == Club)
  {
    if s == Spade || s == Club then Black else Red
  }

  /** The two non-suits are neither a concrete suit nor a colour. */
  lemma NonSuitsAreDistinct(s: CardSuit)
    requires s.IsConcrete() || s == Black || s == Red
    ensures SuitValue(s) != SuitValue(NoSuit)
    ensures SuitValue(s) != SuitValue(Tbd)
  {
  }

  // ------------------------------------------------------ handling method

  /** How a card leaves a player's hands (the engine's `Card::Method*`,
      declared in the same order as `CardHandlingMethod`). */
  datatype CardHandlingMethod =
    MethodNone | MethodUse | MethodResponse | MethodDiscard | MethodRecast | MethodPindian

  // --------------------------------------------------------------- gender

  datatype GeneralGender = Sexless | Male | Female | Neuter

  // ---------------------------------------------------------------- phase

  datatype PlayerPhase =
    RoundStart | Start | Judge | Draw | Play | Discard | Finish | NotActive | PhaseNone

  const AllPhases: seq<PlayerPhase> :=
    [RoundStart, Start, Judge, Draw, Play, Discard, Finish, NotActive, PhaseNone]

  /** Declaration order of the phases; `AllPhases` lists them in that order. */
  function PhaseOrdinal(p: PlayerPhase): (r: nat)
    ensures r < |AllPhases| && AllPhases[r] == p
  {
    match p
    case RoundStart => 0
    case Start => 1
    case Judge => 2
    case Draw => 3
    case Play => 4
    case Discard => 5
    case Finish => 6
    case NotActive => 7
    case PhaseNone => 8
  }

  /** A turn walks the phases in this order; `PhaseNone` comes last. */
  lemma PhaseOrder()
    ensures PhaseOrdinal(RoundStart) < PhaseOrdinal(Start) < PhaseOrdinal(Judge)
      < PhaseOrdinal(Draw) < PhaseOrdinal(Play) < PhaseOrdinal(Discard)
      < PhaseOrdinal(Finish) < PhaseOrdinal(NotActive) < PhaseOrdinal(PhaseNone)
    ensures forall p :: PhaseOrdinal(p) <= PhaseOrdinal(PhaseNone)
  {
  }

  // ------------------------------------------------------------- guanxing

  datatype GuanxingType = GuanxingUpOnly | GuanxingBothSides | GuanxingDownOnly

  function GuanxingValue(g: GuanxingType): (v: int)
    ensures -1 <= v <= 1
  {
    match g
    case GuanxingUpOnly => 1
    case GuanxingBothSides => 0
    case GuanxingDownOnly => -1
  }

  function GuanxingOfValue(v: int): (r: Option<GuanxingType>)
    ensures r.Some? <==> -1 <= v <= 1
    ensures r.Some? ==> GuanxingValue(r.value) == v
  {
    if v == 1 then Some(GuanxingUpOnly)
    else if v == 0 then Some(GuanxingBothSides)
    else if v == -1 then Some(GuanxingDownOnly)
    else None
  }

  // ------------------------------------------------------ card-use reason

  datatype CardUseReason =
    CardUseReasonUnknown | CardUseReasonPlay | CardUseReasonResponse | CardUseReasonResponseUse

  function CardUseReasonValue(r: CardUseReason): (v: int)
    ensures 0 <= v < 0x100
  {
    match r
    case CardUseReasonUnknown => 0x00
    case CardUseReasonPlay => 0x01
    case CardUseReasonResponse => 0x02
    case CardUseReasonResponseUse => 0x12
  }

  /** A response-use is a response in its low four bits. */
  lemma ResponseUseIsResponse()
    ensures CardUseReasonValue(CardUseReasonResponseUse) % 0x10 == CardUseReasonValue(CardUseReasonResponse)
  {
  }

  // -------------------------------------------------------- trigger event

  /** The closed vocabulary of events a trigger skill can subscribe to, in
      declaration order; `NonTrigger` and `NumOfEvents` bracket the real ones. */
  datatype TriggerEvent =
    NonTrigger | GameStart | TurnStart | EventPhaseStart | EventPhaseProceeding | EventPhaseEnd |
    EventPhaseChanging | EventPhaseSkipping | ConfirmPlayerNum | DrawNCards | AfterDrawNCards | PreHpRecover |
    HpRecover | PreHpLost | HpChanged | MaxHpChanged | PostHpReduced | HpLost |
    EventLoseSkill | EventAcquireSkill | StartJudge | AskForRetrial | FinishRetrial | FinishJudge |
    PindianVerifying | Pindian | TurnedOver | ChainStateChanged | RemoveStateChanged | ConfirmDamage |
    Predamage | DamageForseen | DamageCaused | DamageInflicted | PreDamageDone | DamageDone |
    Damage | Damaged | DamageComplete | Dying | QuitDying | AskForPeaches |
    AskForPeachesDone | Death | BuryVictim | BeforeGameOverJudge | GameOverJudge | GameFinished |
    SlashEffected | SlashProceed | SlashHit | SlashMissed | JinkEffect | CardAsked |
    CardResponded | BeforeCardsMove | CardsMoveOneTime | PreCardUsed | CardUsed | TargetChoosing |
    TargetConfirming | TargetChosen | TargetConfirmed | CardEffect | CardEffected | CardEffectConfirmed |
    PostCardEffected | CardFinished | TrickCardCanceling | ChoiceMade | StageChange | FetchDrawPileCard |
    TurnBroken | GeneralShown | GeneralHidden | GeneralRemoved | DFDebut | NumOfEvents

  /** The last ordinal, that of `NumOfEvents`. */
  const NumOfEventsOrdinal: nat := 77

  /** Declaration order of the events. `NonTrigger` is the only event at 0
      and `NumOfEvents` the only one at the top, so every real event lies
      strictly between them; `EventOfOrdinal` is the inverse. */
  function EventOrdinal(e: TriggerEvent): (r: nat)
    ensures r <= NumOfEventsOrdinal
    ensures r == 0 <==> e == NonTrigger
    ensures r == NumOfEventsOrdinal <==> e == NumOfEvents
  {
    match e
    case NonTrigger => 0
    case GameStart => 1
    case TurnStart => 2
    case EventPhaseStart => 3
    case EventPhaseProceeding => 4
    case EventPhaseEnd => 5
    case EventPhaseChanging => 6
    case EventPhaseSkipping => 7
    case ConfirmPlayerNum => 8
    case DrawNCards => 9
    case AfterDrawNCards => 10
    case PreHpRecover => 11
    case HpRecover => 12
    case PreHpLost => 13
    case HpChanged => 14
    case MaxHpChanged => 15
    case PostHpReduced => 16
    case HpLost => 17
    case EventLoseSkill => 18
    case EventAcquireSkill => 19
    case StartJudge => 20
    case AskForRetrial => 21
    case FinishRetrial => 22
    case FinishJudge => 23
    case PindianVerifying => 24
    case Pindian => 25
    case TurnedOver => 26
    case ChainStateChanged => 27
    case RemoveStateChanged => 28
    case ConfirmDamage => 29
    case Predamage => 30
    case DamageForseen => 31
    case DamageCaused => 32
    case DamageInflicted => 33
    case PreDamageDone => 34
    case DamageDone => 35
    case Damage => 36
    case Damaged => 37
    case DamageComplete => 38
    case Dying => 39
    case QuitDying => 40
    case AskForPeaches => 41
    case AskForPeachesDone => 42
    case Death => 43
    case BuryVictim => 44
    case BeforeGameOverJudge => 45
    case GameOverJudge => 46
    case GameFinished => 47
    case SlashEffected => 48
    case SlashProceed => 49
    case SlashHit => 50
    case SlashMissed => 51
    case JinkEffect => 52
    case CardAsked => 53
    case CardResponded => 54
    case BeforeCardsMove => 55
    case CardsMoveOneTime => 56
    case PreCardUsed => 57
    case CardUsed => 58
    case TargetChoosing => 59
    case TargetConfirming => 60
    case TargetChosen => 61
    case TargetConfirmed => 62
    case CardEffect => 63
    case CardEffected => 64
    case CardEffectConfirmed => 65
    case PostCardEffected => 66
    case CardFinished => 67
    case TrickCardCanceling => 68
    case ChoiceMade => 69
    case StageChange => 70
    case FetchDrawPileCard => 71
    case TurnBroken => 72
    case GeneralShown => 73
    case GeneralHidden => 74
    case GeneralRemoved => 75
    case DFDebut => 76
    case NumOfEvents => 77
  }

  /** The event declared at ordinal `n`, if any, looked up by the tens
      digit and then the units digit. */
  function EventOfOrdinal(n: int): (r: Option<TriggerEvent>)
    ensures r.Some? <==> 0 <= n <= NumOfEventsOrdinal
  {
    if n < 0 || n > NumOfEventsOrdinal then None
    else
      var d := n % 10;
      match n / 10
      case 0 => EventsFrom0(d)
      case 1 => EventsFrom10(d)
      case 2 => EventsFrom20(d)
      case 3 => EventsFrom30(d)
      case 4 => EventsFrom40(d)
      case 5 => EventsFrom50(d)
      case 6 => EventsFrom60(d)
      case _ => EventsFrom70(d)
  }

  function EventsFrom0(d: int): (r: Option<TriggerEvent>)
    requires 0 <= d < 10
    ensures r.Some?
  {
    match d
    case 0 => Some(NonTrigger)
    case 1 => Some(GameStart)
    case 2 => Some(TurnStart)
    case 3 => Some(EventPhaseStart)
    case 4 => Some(EventPhaseProceeding)
    case 5 => Some(EventPhaseEnd)
    case 6 => Some(EventPhaseChanging)
    case 7 => Some(EventPhaseSkipping)
    case 8 => Some(ConfirmPlayerNum)
    case _ => Some(DrawNCards)
  }

  function EventsFrom10(d: int): (r: Option<TriggerEvent>)
    requires 0 <= d < 10
    ensures r.Some?
  {
    match d
    case 0 => Some(AfterDrawNCards)
    case 1 => Some(PreHpRecover)
    case 2 => Some(HpRecover)
    case 3 => Some(PreHpLost)
    case 4 => Some(HpChanged)
    case 5 => Some(MaxHpChanged)
    case 6 => Some(PostHpReduced)
    case 7 => Some(HpLost)
    case 8 => Some(EventLoseSkill)
    case _ => Some(EventAcquireSkill)
  }

  function EventsFrom20(d: int): (r: Option<TriggerEvent>)
    requires 0 <= d < 10
    ensures r.Some?
  {
    match d
    case 0 => Some(StartJudge)
    case 1 => Some(AskForRetrial)
    case 2 => Some(FinishRetrial)
    case 3 => Some(FinishJudge)
    case 4 => Some(PindianVerifying)
    case 5 => Some(Pindian)
    case 6 => Some(TurnedOver)
    case 7 => Some(ChainStateChanged)
    case 8 => Some(RemoveStateChanged)
    case _ => Some(ConfirmDamage)
  }

  function EventsFrom30(d: int): (r: Option<TriggerEvent>)
    requires 0 <= d < 10
    ensures r.Some?
  {
    match d
    case 0 => Some(Predamage)
    case 1 => Some(DamageForseen)
    case 2 => Some(DamageCaused)
    case 3 => Some(DamageInflicted)
    case 4 => Some(PreDamageDone)
    case 5 => Some(DamageDone)
    case 6 => Some(Damage)
    case 7 => Some(Damaged)
    case 8 => Some(DamageComplete)
    case _ => Some(Dying)
  }

  function EventsFrom40(d: int): (r: Option<TriggerEvent>)
    requires 0 <= d < 10
    ensures r.Some?
  {
    match d
    case 0 => Some(QuitDying)
    case 1 => Some(AskForPeaches)
    case 2 => Some(AskForPeachesDone)
    case 3 => Some(Death)
    case 4 => Some(BuryVictim)
    case 5 => Some(BeforeGameOverJudge)
    case 6 => Some(GameOverJudge)
    case 7 => Some(GameFinished)
    case 8 => Some(SlashEffected)
    case _ => Some(SlashProceed)
  }

  function EventsFrom50(d: int): (r: Option<TriggerEvent>)
    requires 0 <= d < 10
    ensures r.Some?
  {
    match d
    case 0 => Some(SlashHit)
    case 1 => Some(SlashMissed)
    case 2 => Some(JinkEffect)
    case 3 => Some(CardAsked)
    case 4 => Some(CardResponded)
    case 5 => Some(BeforeCardsMove)
    case 6 => Some(CardsMoveOneTime)
    case 7 => Some(PreCardUsed)
    case 8 => Some(CardUsed)
    case _ => Some(TargetChoosing)
  }

  function EventsFrom60(d: int): (r: Option<TriggerEvent>)
    requires 0 <= d < 10
    ensures r.Some?
  {
    match d
    case 0 => Some(TargetConfirming)
    case 1 => Some(TargetChosen)
    case 2 => Some(TargetConfirmed)
    case 3 => Some(CardEffect)
    case 4 => Some(CardEffected)
    case 5 => Some(CardEffectConfirmed)
    case 6 => Some(PostCardEffected)
    case 7 => Some(CardFinished)
    case 8 => Some(TrickCardCanceling)
    case _ => Some(ChoiceMade)
  }

  function EventsFrom70(d: int): (r: Option<TriggerEvent>)
    requires 0 <= d <= 7
    ensures r.Some?
  {
    match d
    case 0 => Some(StageChange)
    case 1 => Some(FetchDrawPileCard)
    case 2 => Some(TurnBroken)
    case 3 => Some(GeneralShown)
    case 4 => Some(GeneralHidden)
    case 5 => Some(GeneralRemoved)
    case 6 => Some(DFDebut)
    case _ => Some(NumOfEvents)
  }

  lemma DecodeFrom0()
    ensures EventOfOrdinal(0) == Some(NonTrigger)
    ensures EventOfOrdinal(1) == Some(GameStart)
    ensures EventOfOrdinal(2) == Some(TurnStart)
    ensures EventOfOrdinal(3) == Some(EventPhaseStart)
    ensures EventOfOrdinal(4) == Some(EventPhaseProceeding)
    ensures EventOfOrdinal(5) == Some(EventPhaseEnd)
    ensures EventOfOrdinal(6) == Some(EventPhaseChanging)
    ensures EventOfOrdinal(7) == Some(EventPhaseSkipping)
    ensures EventOfOrdinal(8) == Some(ConfirmPlayerNum)
    ensures EventOfOrdinal(9) == Some(DrawNCards)
  {
  }

  lemma DecodeFrom10()
    ensures EventOfOrdinal(10) == Some(AfterDrawNCards)
    ensures EventOfOrdinal(11) == Some(PreHpRecover)
    ensures EventOfOrdinal(12) == Some(HpRecover)
    ensures EventOfOrdinal(13) == Some(PreHpLost)
    ensures EventOfOrdinal(14) == Some(HpChanged)
    ensures EventOfOrdinal(15) == Some(MaxHpChanged)
    ensures EventOfOrdinal(16) == Some(PostHpReduced)
    ensures EventOfOrdinal(17) == Some(HpLost)
    ensures EventOfOrdinal(18) == Some(EventLoseSkill)
    ensures EventOfOrdinal(19) == Some(EventAcquireSkill)
  {
  }

  lemma DecodeFrom20()
    ensures EventOfOrdinal(20) == Some(StartJudge)
    ensures EventOfOrdinal(21) == Some(AskForRetrial)
    ensures EventOfOrdinal(22) == Some(FinishRetrial)
    ensures EventOfOrdinal(23) == Some(FinishJudge)
    ensures EventOfOrdinal(24) == Some(PindianVerifying)
    ensures EventOfOrdinal(25) == Some(Pindian)
    ensures EventOfOrdinal(26) == Some(TurnedOver)
    ensures EventOfOrdinal(27) == Some(ChainStateChanged)
    ensures EventOfOrdinal(28) == Some(RemoveStateChanged)
    ensures EventOfOrdinal(29) == Some(ConfirmDamage)
  {
  }

  lemma DecodeFrom30()
    ensures EventOfOrdinal(30) == Some(Predamage)
    ensures EventOfOrdinal(31) == Some(DamageForseen)
    ensures EventOfOrdinal(32) == Some(DamageCaused)
    ensures EventOfOrdinal(33) == Some(DamageInflicted)
    ensures EventOfOrdinal(34) == Some(PreDamageDone)
    ensures EventOfOrdinal(35) == Some(DamageDone)
    ensures EventOfOrdinal(36) == Some(Damage)
    ensures EventOfOrdinal(37) == Some(Damaged)
    ensures EventOfOrdinal(38) == Some(DamageComplete)
    ensures EventOfOrdinal(39) == Some(Dying)
  {
  }

  lemma DecodeFrom40()
    ensures EventOfOrdinal(40) == Some(QuitDying)
    ensures EventOfOrdinal(41) == Some(AskForPeaches)
    ensures EventOfOrdinal(42) == Some(AskForPeachesDone)
    ensures EventOfOrdinal(43) == Some(Death)
    ensures EventOfOrdinal(44) == Some(BuryVictim)
    ensures EventOfOrdinal(45) == Some(BeforeGameOverJudge)
    ensures EventOfOrdinal(46) == Some(GameOverJudge)
    ensures EventOfOrdinal(47) == Some(GameFinished)
    ensures EventOfOrdinal(48) == Some(SlashEffected)
    ensures EventOfOrdinal(49) == Some(SlashProceed)
  {
  }

  lemma DecodeFrom50()
    ensures EventOfOrdinal(50) == Some(SlashHit)
    ensures EventOfOrdinal(51) == Some(SlashMissed)
    ensures EventOfOrdinal(52) == Some(JinkEffect)
    ensures EventOfOrdinal(53) == Some(CardAsked)
    ensures EventOfOrdinal(54) == Some(CardResponded)
    ensures EventOfOrdinal(55) == Some(BeforeCardsMove)
    ensures EventOfOrdinal(56) == Some(CardsMoveOneTime)
    ensures EventOfOrdinal(57) == Some(PreCardUsed)
    ensures EventOfOrdinal(58) == Some(CardUsed)
    ensures EventOfOrdinal(59) == Some(TargetChoosing)
  {
  }

  lemma DecodeFrom60()
    ensures EventOfOrdinal(60) == Some(TargetConfirming)
    ensures EventOfOrdinal(61) == Some(TargetChosen)
    ensures EventOfOrdinal(62) == Some(TargetConfirmed)
    ensures EventOfOrdinal(63) == Some(CardEffect)
    ensures EventOfOrdinal(64) == Some(CardEffected)
    ensures EventOfOrdinal(65) == Some(CardEffectConfirmed)
    ensures EventOfOrdinal(66) == Some(PostCardEffected)
    ensures EventOfOrdinal(67) == Some(CardFinished)
    ensures EventOfOrdinal(68) == Some(TrickCardCanceling)
    ensures EventOfOrdinal(69) == Some(ChoiceMade)
  {
  }

  lemma DecodeFrom70()
    ensures EventOfOrdinal(70) == Some(StageChange)
    ensures EventOfOrdinal(71) == Some(FetchDrawPileCard)
    ensures EventOfOrdinal(72) == Some(TurnBroken)
    ensures EventOfOrdinal(73) == Some(GeneralShown)
    ensures EventOfOrdinal(74) == Some(GeneralHidden)
    ensures EventOfOrdinal(75) == Some(GeneralRemoved)
    ensures EventOfOrdinal(76) == Some(DFDebut)
    ensures EventOfOrdinal(77) == Some(NumOfEvents)
  {
  }

  /** Decoding an event's ordinal gives the event back, so the ordinal is
      injective. */
  lemma EventOrdinalRoundTrip(e: TriggerEvent)
    ensures EventOfOrdinal(EventOrdinal(e)) == Some(e)
  {
    DecodeFrom0();
    DecodeFrom10();
    DecodeFrom20();
    DecodeFrom30();
    DecodeFrom40();
    DecodeFrom50();
    DecodeFrom60();
    DecodeFrom70();
    match e
    case NonTrigger =>
    case GameStart =>
    case TurnStart =>
    case EventPhaseStart =>
    case EventPhaseProceeding =>
    case EventPhaseEnd =>
    case EventPhaseChanging =>
    case EventPhaseSkipping =>
    case ConfirmPlayerNum =>
    case DrawNCards =>
    case AfterDrawNCards =>
    case PreHpRecover =>
    case HpRecover =>
    case PreHpLost =>
    case HpChanged =>
    case MaxHpChanged =>
    case PostHpReduced =>
    case HpLost =>
    case EventLoseSkill =>
    case EventAcquireSkill =>
    case StartJudge =>
    case AskForRetrial =>
    case FinishRetrial =>
    case FinishJudge =>
    case PindianVerifying =>
    case Pindian =>
    case TurnedOver =>
    case ChainStateChanged =>
    case RemoveStateChanged =>
    case ConfirmDamage =>
    case Predamage =>
    case DamageForseen =>
    case DamageCaused =>
    case DamageInflicted =>
    case PreDamageDone =>
    case DamageDone =>
    case Damage =>
    case Damaged =>
    case DamageComplete =>
    case Dying =>
    case QuitDying =>
    case AskForPeaches =>
    case AskForPeachesDone =>
    case Death =>
    case BuryVictim =>
    case BeforeGameOverJudge =>
    case GameOverJudge =>
    case GameFinished =>
    case SlashEffected =>
    case SlashProceed =>
    case SlashHit =>
    case SlashMissed =>
    case JinkEffect =>
    case CardAsked =>
    case CardResponded =>
    case BeforeCardsMove =>
    case CardsMoveOneTime =>
    case PreCardUsed =>
    case CardUsed =>
    case TargetChoosing =>
    case TargetConfirming =>
    case TargetChosen =>
    case TargetConfirmed =>
    case CardEffect =>
    case CardEffected =>
    case CardEffectConfirmed =>
    case PostCardEffected =>
    case CardFinished =>
    case TrickCardCanceling =>
    case ChoiceMade =>
    case StageChange =>
    case FetchDrawPileCard =>
    case TurnBroken =>
    case GeneralShown =>
    case GeneralHidden =>
    case GeneralRemoved =>
    case DFDebut =>
    case NumOfEvents =>
  }

  lemma EventOrdinalInjective(e: TriggerEvent, f: TriggerEvent)
    ensures EventOrdinal(e) == EventOrdinal(f) ==> e == f
  {
    EventOrdinalRoundTrip(e);
    EventOrdinalRoundTrip(f);
  }
}
