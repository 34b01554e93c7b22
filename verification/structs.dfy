/** Why a card changed place: a numeric reason code from a fixed catalogue
    plus four text fields (the player causing the move, a target shown in
    the interface only, the skill and an extra event tag). */
module Structs {
  import opened Wrappers
  import opened Enumeration

  datatype CardMoveReason = CardMoveReason(
    reason: int,
    playerId: string,
    targetId: string,
    skillName: string,
    eventName: string)

  /** The default constructor: reason unknown, every text field empty. */
  function DefaultMoveReason(): (r: CardMoveReason)
    ensures r.reason == ReasonCode(ReasonUnknown)
    ensures r.playerId == [] && r.targetId == [] && r.skillName == [] && r.eventName == []
  {
    CardMoveReason(ReasonCode(ReasonUnknown), "", "", "", "")
  }

  /** The two-argument constructor sets the code and the player only. */
  function MoveReason2(moveReason: int, playerId: string): (r: CardMoveReason)
    ensures r.reason == moveReason && r.playerId == playerId
    ensures r.targetId == [] && r.skillName == [] && r.eventName == []
  {
    CardMoveReason(moveReason, playerId, "", "", "")
  }

  /** The four-argument constructor leaves only the target empty. */
  function MoveReason4(moveReason: int, playerId: string, skillName: string, eventName: string): (r: CardMoveReason)
    ensures r.reason == moveReason && r.playerId == playerId
    ensures r.skillName == skillName && r.eventName == eventName
    ensures r.targetId == []
  {
    CardMoveReason(moveReason, playerId, "", skillName, eventName)
  }

  /** The five-argument constructor sets every field. */
  function MoveReason5(moveReason: int, playerId: string, targetId: string, skillName: string, eventName: string): (r: CardMoveReason)
    ensures r.reason == moveReason && r.playerId == playerId && r.targetId == targetId
    ensures r.skillName == skillName && r.eventName == eventName
  {
    CardMoveReason(moveReason, playerId, targetId, skillName, eventName)
  }

  /** The shorter constructors are the longer ones with empty strings
      passed for the fields they do not take. */
  lemma ConstructorsAgree(code: int, player: string, skill: string, event: string)
    ensures MoveReason2(code, player) == MoveReason4(code, player, "", "")
    ensures MoveReason4(code, player, skill, event) == MoveReason5(code, player, "", skill, event)
    ensures DefaultMoveReason() == MoveReason2(ReasonCode(ReasonUnknown), "")
  {
  }

  /** `operator==`: the five fields compared one by one. */
  predicate SameMoveReason(a: CardMoveReason, b: CardMoveReason)
  {
    && a.reason == b.reason
    && a.playerId == b.playerId && a.targetId == b.targetId
    && a.skillName == b.skillName
    && a.eventName == b.eventName
  }

  /** Field-wise comparison is exactly structural equality, hence an
      equivalence relation. */
  lemma SameMoveReasonIsEquality(a: CardMoveReason, b: CardMoveReason)
    ensures SameMoveReason(a, b) <==> a == b
  {
  }

  lemma SameMoveReasonEquivalence(a: CardMoveReason, b: CardMoveReason, c: CardMoveReason)
    ensures SameMoveReason(a, a)
    ensures SameMoveReason(a, b) ==> SameMoveReason(b, a)
    ensures SameMoveReason(a, b) && SameMoveReason(b, c) ==> SameMoveReason(a, c)
  {
  }

  // ------------------------------------------------------ reason catalogue

  /** The named reason codes: ten basic reasons and their sub-reasons. */
  datatype MoveReasonCode =
    | ReasonUnknown | ReasonUse | ReasonResponse | ReasonDiscard | ReasonRecast
    | ReasonPindian | ReasonDraw | ReasonGotCard | ReasonShow | ReasonTransfer | ReasonPut
    | ReasonLetUse
    | ReasonRetrial
    | ReasonRuleDiscard | ReasonThrow | ReasonDismantle
    | ReasonGive | ReasonExtraction | ReasonGotBack | ReasonRecycle | ReasonRob | ReasonPreviewGive
    | ReasonTurnover | ReasonJudge | ReasonPreview | ReasonDemonstrate
    | ReasonSwap | ReasonOverride | ReasonExchangeFromPile
    | ReasonNaturalEnter | ReasonRemoveFromPile | ReasonJudgeDone | ReasonChangeEquip
  {
    predicate IsBasic() {
      ReasonUnknown? || ReasonUse? || ReasonResponse? || ReasonDiscard? || ReasonRecast?
      || ReasonPindian? || ReasonDraw? || ReasonGotCard? || ReasonShow? || ReasonTransfer? || ReasonPut?
    }
  }

  /** `S_MASK_BASIC_REASON`. */
  const MaskBasicReason: bv8 := 0x0F

  /** The catalogue's numeric code of each reason; every code fits a byte. */
  function ReasonCode(c: MoveReasonCode): (v: int)
    ensures 0 <= v < 0x100
  {
    match c
    case ReasonUnknown => 0x00
    case ReasonUse => 0x01
    case ReasonResponse => 0x02
    case ReasonDiscard => 0x03
    case ReasonRecast => 0x04
    case ReasonPindian => 0x05
    case ReasonDraw => 0x06
    case ReasonGotCard => 0x07
    case ReasonShow => 0x08
    case ReasonTransfer => 0x09
    case ReasonPut => 0x0A
    case ReasonLetUse => 0x11
    case ReasonRetrial => 0x12
    case ReasonRuleDiscard => 0x13
    case ReasonThrow => 0x23
    case ReasonDismantle => 0x33
    case ReasonGive => 0x17
    case ReasonExtraction => 0x27
    case ReasonGotBack => 0x37
    case ReasonRecycle => 0x47
    case ReasonRob => 0x57
    case ReasonPreviewGive => 0x67
    case ReasonTurnover => 0x18
    case ReasonJudge => 0x28
    case ReasonPreview => 0x38
    case ReasonDemonstrate => 0x48
    case ReasonSwap => 0x19
    case ReasonOverride => 0x29
    case ReasonExchangeFromPile => 0x39
    case ReasonNaturalEnter => 0x1A
    case ReasonRemoveFromPile => 0x2A
    case ReasonJudgeDone => 0x3A
    case ReasonChangeEquip => 0x4A
  }

  /** The basic reason a code belongs to, as the catalogue groups them
      (the sub-categories of use, response, discard, got-card, show,
      transfer and put). */
  function ParentReason(c: MoveReasonCode): (p: MoveReasonCode)
    ensures p.IsBasic()
    ensures c.IsBasic() ==> p == c
  {
    match c
    case ReasonLetUse => ReasonUse
    case ReasonRetrial => ReasonResponse
    case ReasonRuleDiscard | ReasonThrow | ReasonDismantle => ReasonDiscard
    case ReasonGive | ReasonExtraction | ReasonGotBack | ReasonRecycle | ReasonRob | ReasonPreviewGive => ReasonGotCard
    case ReasonTurnover | ReasonJudge | ReasonPreview | ReasonDemonstrate => ReasonShow
    case ReasonSwap | ReasonOverride | ReasonExchangeFromPile => ReasonTransfer
    case ReasonNaturalEnter | ReasonRemoveFromPile | ReasonJudgeDone | ReasonChangeEquip => ReasonPut
    case _ => c
  }

  /** On a byte, masking with `S_MASK_BASIC_REASON` keeps the remainder
      modulo 16. */
  lemma MaskIsRemainder(b: bv8)
    ensures (b & MaskBasicReason) as int == b as int % 0x10
  {
  }

  /** `code & S_MASK_BASIC_REASON` for a byte-sized code, which by
      `MaskIsRemainder` is its remainder modulo 16. */
  function BasicReasonOf(code: int): (b: int)
    requires 0 <= code < 0x100
    ensures 0 <= b <= 0x0F && b <= code
  {
    code % 0x10
  }

  /** For every byte-sized code `b`, `BasicReasonOf` is exactly the bitwise
      mask with `S_MASK_BASIC_REASON`. */
  lemma BasicReasonOfIsMask(b: bv8)
    ensures BasicReasonOf(b as int) == (b & MaskBasicReason) as int
  {
    MaskIsRemainder(b);
  }

  /** Masking any catalogued code yields the code of its parent basic
      reason; for example a throw (0x23) is a discard and a judge (0x28)
      is a show. */
  lemma MaskGivesParent(c: MoveReasonCode)
    ensures BasicReasonOf(ReasonCode(c)) == ReasonCode(ParentReason(c))
  {
  }

  /** Basic reasons occupy 0x00..0x0A, so masking them changes nothing. */
  lemma BasicReasonsAreFixedPoints(c: MoveReasonCode)
    requires c.IsBasic()
    ensures 0 <= ReasonCode(c) <= 0x0A
    ensures BasicReasonOf(ReasonCode(c)) == ReasonCode(c)
  {
  }

  /** The catalogue entry a number denotes, if any, looked up by the high
      four bits and then the low four bits. */
  function ReasonOfCode(v: int): (r: Option<MoveReasonCode>)
    ensures r.Some? ==> ReasonCode(r.value) == v
  {
    if v < 0 then None
    else
      var lo := v % 0x10;
      match v / 0x10
      case 0 => ReasonsFrom00(lo)
      case 1 => ReasonsFrom10(lo)
      case 2 => ReasonsFrom20(lo)
      case 3 => ReasonsFrom30(lo)
      case 4 => ReasonsFrom40(lo)
      case 5 => ReasonsFrom50(lo)
      case 6 => ReasonsFrom60(lo)
      case _ => None
  }

  function ReasonsFrom00(lo: int): (r: Option<MoveReasonCode>)
    ensures r.Some? ==> ReasonCode(r.value) == 0x00 + lo
  {
    match lo
    case 0x0 => Some(ReasonUnknown)
    case 0x1 => Some(ReasonUse)
    case 0x2 => Some(ReasonResponse)
    case 0x3 => Some(ReasonDiscard)
    case 0x4 => Some(ReasonRecast)
    case 0x5 => Some(ReasonPindian)
    case 0x6 => Some(ReasonDraw)
    case 0x7 => Some(ReasonGotCard)
    case 0x8 => Some(ReasonShow)
    case 0x9 => Some(ReasonTransfer)
    case 0xA => Some(ReasonPut)
    case _ => None
  }

  function ReasonsFrom10(lo: int): (r: Option<MoveReasonCode>)
    ensures r.Some? ==> ReasonCode(r.value) == 0x10 + lo
  {
    match lo
    case 0x1 => Some(ReasonLetUse)
    case 0x2 => Some(ReasonRetrial)
    case 0x3 => Some(ReasonRuleDiscard)
    case 0x7 => Some(ReasonGive)
    case 0x8 => Some(ReasonTurnover)
    case 0x9 => Some(ReasonSwap)
    case 0xA => Some(ReasonNaturalEnter)
    case _ => None
  }

  function ReasonsFrom20(lo: int): (r: Option<MoveReasonCode>)
    ensures r.Some? ==> ReasonCode(r.value) == 0x20 + lo
  {
    match lo
    case 0x3 => Some(ReasonThrow)
    case 0x7 => Some(ReasonExtraction)
    case 0x8 => Some(ReasonJudge)
    case 0x9 => Some(ReasonOverride)
    case 0xA => Some(ReasonRemoveFromPile)
    case _ => None
  }

  function ReasonsFrom30(lo: int): (r: Option<MoveReasonCode>)
    ensures r.Some? ==> ReasonCode(r.value) == 0x30 + lo
  {
    match lo
    case 0x3 => Some(ReasonDismantle)
    case 0x7 => Some(ReasonGotBack)
    case 0x8 => Some(ReasonPreview)
    case 0x9 => Some(ReasonExchangeFromPile)
    case 0xA => Some(ReasonJudgeDone)
    case _ => None
  }

  function ReasonsFrom40(lo: int): (r: Option<MoveReasonCode>)
    ensures r.Some? ==> ReasonCode(r.value) == 0x40 + lo
  {
    match lo
    case 0x7 => Some(ReasonRecycle)
    case 0x8 => Some(ReasonDemonstrate)
    case 0xA => Some(ReasonChangeEquip)
    case _ => None
  }

  function ReasonsFrom50(lo: int): (r: Option<MoveReasonCode>)
    ensures r.Some? ==> ReasonCode(r.value) == 0x50 + lo
  {
    match lo
    case 0x7 => Some(ReasonRob)
    case _ => None
  }

  function ReasonsFrom60(lo: int): (r: Option<MoveReasonCode>)
    ensures r.Some? ==> ReasonCode(r.value) == 0x60 + lo
  {
    match lo
    case 0x7 => Some(ReasonPreviewGive)
    case _ => None
  }

  /** Every code decodes back to its entry, so the catalogue's codes are
      pairwise distinct. */
  lemma ReasonCodeRoundTrip(c: MoveReasonCode)
    ensures ReasonOfCode(ReasonCode(c)) == Some(c)
  {
  }

  lemma ReasonCodesDistinct(c: MoveReasonCode, d: MoveReasonCode)
    ensures c != d ==> ReasonCode(c) != ReasonCode(d)
  {
    ReasonCodeRoundTrip(c);
    ReasonCodeRoundTrip(d);
  }
}
