/** The engine's string-keyed services: the handling-method names, the
    translation lookup, and the game modes with their player counts and
    role lists. */
module EngineText {
  import opened Wrappers
  import opened Strings
  import opened Enumeration

  // --------------------------------------------------- handling methods

  /** The name each handling method is spelled with in skill scripts. */
  function HandlingMethodName(m: CardHandlingMethod): string
  {
    match m
    case MethodUse => "use"
    case MethodResponse => "response"
    case MethodDiscard => "discard"
    case MethodRecast => "recast"
    case MethodPindian => "pindian"
    case MethodNone => "none"
  }

  /** `getCardHandlingMethod`. `None` stands for the failed assertion an
      unknown name triggers. */
  function HandlingMethodOf(name: string): (r: Option<CardHandlingMethod>)
    ensures r.Some? ==> HandlingMethodName(r.value) == name
    ensures forall m :: HandlingMethodName(m) == name ==> r == Some(m)
  {
    if name == "use" then Some(MethodUse)
    else if name == "response" then Some(MethodResponse)
    else if name == "discard" then Some(MethodDiscard)
    else if name == "recast" then Some(MethodRecast)
    else if name == "pindian" then Some(MethodPindian)
    else if name == "none" then Some(MethodNone)
    else None
  }

  /** What a build without assertions returns: unknown names give `MethodNone`. */
  function ReleaseHandlingMethod(name: string): (r: CardHandlingMethod)
    ensures (forall m :: HandlingMethodName(m) != name) ==> r == MethodNone
    ensures forall m :: HandlingMethodName(m) == name ==> r == m
  {
    HandlingMethodOf(name).GetOr(MethodNone)
  }

  lemma HandlingMethodRoundTrip(m: CardHandlingMethod)
    ensures HandlingMethodOf(HandlingMethodName(m)) == Some(m)
    ensures ReleaseHandlingMethod(HandlingMethodName(m)) == m
  {
  }

  lemma HandlingMethodNamesDistinct(m1: CardHandlingMethod, m2: CardHandlingMethod)
    ensures HandlingMethodName(m1) == HandlingMethodName(m2) ==> m1 == m2
  {
    HandlingMethodRoundTrip(m1);
    HandlingMethodRoundTrip(m2);
  }

  // -------------------------------------------------------- translation

  /** The separator between independently translated pieces. */
  const PieceSeparator: char := '\\'

  /** The two-argument `translate`: the translation of `key`, or `default`. */
  function TranslateOr(translations: map<string, string>, key: string, default: string): (r: string)
    ensures key in translations ==> r == translations[key]
    ensures key !in translations ==> r == default
  {
    if key in translations then translations[key] else default
  }

  /** `translate`: the text is cut at every backslash, each piece is
      replaced by its translation (or kept when it has none), and the
      results are concatenated without separators. */
  function Translate(translations: map<string, string>, text: string): string
  {
    Concat(TranslatePieces(translations, Split(text, PieceSeparator)))
  }

  /** Each piece replaced by its translation, or kept when it has none. */
  function TranslatePieces(translations: map<string, string>, pieces: seq<string>): (r: seq<string>)
    ensures |r| == |pieces|
    ensures forall i :: 0 <= i < |r| ==> r[i] == TranslateOr(translations, pieces[i], pieces[i])
  {
    seq(|pieces|, i requires 0 <= i < |pieces| => TranslateOr(translations, pieces[i], pieces[i]))
  }

  /** Text on either side of a backslash is translated independently; with
      `TranslateSingleKey` this determines `Translate` on every text. */
  lemma TranslateAppend(translations: map<string, string>, a: string, b: string)
    ensures Translate(translations, a + [PieceSeparator] + b)
      == Translate(translations, a) + Translate(translations, b)
  {
    var pa, pb := Split(a, PieceSeparator), Split(b, PieceSeparator);
    SplitAppend(a, b, PieceSeparator);
    assert TranslatePieces(translations, pa + pb)
      == TranslatePieces(translations, pa) + TranslatePieces(translations, pb);
    ConcatAppend(TranslatePieces(translations, pa), TranslatePieces(translations, pb));
  }

  /** A text without backslashes is translated as one key. */
  lemma TranslateSingleKey(translations: map<string, string>, key: string)
    requires PieceSeparator !in key
    ensures Translate(translations, key) == TranslateOr(translations, key, key)
  {
    var t := TranslateOr(translations, key, key);
    assert TranslatePieces(translations, [key]) == [t];
    assert Concat([t]) == t + Concat([]);
  }

  /** With no translations, translating only drops the backslashes. */
  lemma TranslateUntranslated(text: string)
    ensures Translate(map[], text) == RemoveChar(text, PieceSeparator)
  {
    var pieces := Split(text, PieceSeparator);
    var m: map<string, string> := map[];
    assert TranslatePieces(m, pieces) == pieces;
    ConcatSplit(text, PieceSeparator);
  }

  // -------------------------------------------------------------- modes

  /** The built-in game modes, one per table size. */
  const StandardModes: set<string> := {"02p", "03p", "04p", "05p", "06p", "07p", "08p", "09p", "10p"}

  /** The mode key of a table of `n` players. */
  function ModeKey(n: int): (r: string)
    requires 2 <= n <= 10
    ensures r in StandardModes
  {
    if n == 10 then "10p" else ['0', ('0' as int + n) as char, 'p']
  }

  /** What the engine knows about a scenario mode. */
  datatype Scenario = Scenario(playerCount: int, roles: string)

  predicate IsDigit(c: char) { '0' <= c <= '9' }

  /** The longest prefix made of digits. */
  function DigitRun(s: string): (r: string)
    ensures |r| <= |s| && r == s[..|r|]
    ensures forall i :: 0 <= i < |r| ==> IsDigit(r[i])
    ensures |r| < |s| ==> !IsDigit(s[|r|])
  {
    if |s| == 0 || !IsDigit(s[0]) then [] else [s[0]] + DigitRun(s[1..])
  }

  /** The first run of digits, as the pattern `(\d+)` finds it. */
  function FirstDigitRun(s: string): (r: Option<string>)
    ensures r.None? <==> forall i :: 0 <= i < |s| ==> !IsDigit(s[i])
    ensures r.Some? ==> |r.value| >= 1 && forall i :: 0 <= i < |r.value| ==> IsDigit(r.value[i])
  {
    if |s| == 0 then None
    else if IsDigit(s[0]) then Some(DigitRun(s))
    else
      var r := FirstDigitRun(s[1..]);
      assert forall i :: 1 <= i < |s| ==> s[i] == s[1..][i - 1];
      r
  }

  /** The run found starts at the first digit of `s` and is the whole
      (maximal) run of digits there. */
  lemma {:induction false} FirstDigitRunPosition(s: string)
    ensures FirstDigitRun(s).Some? ==>
      exists k :: 0 <= k < |s| && (forall j :: 0 <= j < k ==> !IsDigit(s[j]))
        && FirstDigitRun(s).value == DigitRun(s[k..])
    decreases |s|
  {
    if |s| > 0 {
      if IsDigit(s[0]) {
        assert s[0..] == s;
      } else if FirstDigitRun(s[1..]).Some? {
        FirstDigitRunPosition(s[1..]);
        var k :| 0 <= k < |s[1..]| && (forall j :: 0 <= j < k ==> !IsDigit(s[1..][j]))
          && FirstDigitRun(s[1..]).value == DigitRun(s[1..][k..]);
        assert forall j :: 0 <= j < k ==> s[j + 1] == s[1..][j];
        assert s[1..][k..] == s[k + 1..];
        assert forall j :: 0 <= j < k + 1 ==> !IsDigit(s[j]);
        assert FirstDigitRun(s).value == DigitRun(s[k + 1..]);
      }
    }
  }

  /** The decimal value of a digit string. */
  function DecimalValue(ds: string): nat
  {
    if |ds| == 0 then 0
    else DecimalValue(ds[..|ds| - 1]) * 10 + (if IsDigit(ds[|ds| - 1]) then ds[|ds| - 1] as int - '0' as int else 0)
  }

  /** The number in a built-in mode's key is its table size. */
  lemma StandardModeCount(mode: string)
    requires mode in StandardModes
    ensures FirstDigitRun(mode).Some?
    ensures var n := DecimalValue(FirstDigitRun(mode).value); 2 <= n <= 10 && ModeKey(n) == mode
  {
    var ds := mode[..2];
    assert mode == ds + "p";
    assert DigitRun(mode[2..]) == [];
    assert DigitRun(mode[1..]) == [mode[1]];
    assert DigitRun(mode) == ds;
    assert DecimalValue(ds[..1]) == ds[0] as int - '0' as int;
  }

  /** `getPlayerCount`: a built-in mode's count is the number in its key; a
      scenario mode asks the scenario, and `None` stands for the failed
      assertion when there is none. */
  function PlayerCount(mode: string, scenario: Option<Scenario>): (r: Option<int>)
    ensures mode in StandardModes ==> r.Some? && 2 <= r.value <= 10 && ModeKey(r.value) == mode
    ensures mode !in StandardModes ==> (r.Some? <==> scenario.Some?)
    ensures mode !in StandardModes && scenario.Some? ==> r == Some(scenario.value.playerCount)
  {
    if mode in StandardModes then
      StandardModeCount(mode);
      match FirstDigitRun(mode)
      case Some(ds) => Some(DecimalValue(ds))
      case None => Some(-1)
    else if scenario.Some? then Some(scenario.value.playerCount)
    else None
  }

  /** The role string of each table size: a lord, the rest renegades. */
  const RoleTable: seq<string> :=
    ["", "", "ZN", "ZNN", "ZNNN", "ZNNNN", "ZNNNNN", "ZNNNNNN", "ZNNNNNNN", "ZNNNNNNNN", "ZNNNNNNNNN"]

  function Repeat<T>(x: T, n: nat): (r: seq<T>)
    ensures |r| == n && forall i :: 0 <= i < n ==> r[i] == x
  {
    if n == 0 then [] else [x] + Repeat(x, n - 1)
  }

  lemma RoleTableShape(n: int)
    requires 2 <= n <= 10
    ensures RoleTable[n] == ['Z'] + Repeat('N', n - 1)
  {
  }

  /** `getRoles`: a built-in mode's role string comes from the table; a
      scenario mode's from the scenario. `None` when the player count
      itself fails. */
  function Roles(mode: string, scenario: Option<Scenario>): (r: Option<string>)
    ensures r.Some? <==> PlayerCount(mode, scenario).Some?
    ensures mode in StandardModes ==> r == Some(RoleTable[PlayerCount(mode, scenario).value])
    ensures mode !in StandardModes && scenario.Some? ==> r == Some(scenario.value.roles)
  {
    var n := PlayerCount(mode, scenario);
    if n.None? then None
    else if mode in StandardModes then Some(RoleTable[n.value])
    else if scenario.Some? then Some(scenario.value.roles)
    else Some("")
  }

  /** The role name of one role character; unknown characters give "". */
  function RoleName(c: char): string
  {
    match c
    case 'Z' => "lord"
    case 'C' => "loyalist"
    case 'N' => "renegade"
    case 'F' => "rebel"
    case _ => ""
  }

  /** The role characters up to the first NUL, where reading stops. */
  function UpToNul(s: string): (r: string)
    ensures |r| <= |s| && r == s[..|r|]
    ensures '\0' !in r
    ensures '\0' !in s ==> r == s
  {
    if |s| == 0 || s[0] == '\0' then [] else [s[0]] + UpToNul(s[1..])
  }

  /** One role name per role character. */
  function RoleNames(roles: string): (r: seq<string>)
    ensures |r| == |UpToNul(roles)|
    ensures forall i :: 0 <= i < |r| ==> r[i] == RoleName(roles[i])
  {
    var cs := UpToNul(roles);
    seq(|cs|, i requires 0 <= i < |cs| => RoleName(cs[i]))
  }

  /** `getRoleList`. */
  function RoleList(mode: string, scenario: Option<Scenario>): (r: Option<seq<string>>)
    ensures r.Some? <==> Roles(mode, scenario).Some?
    ensures r.Some? ==> r.value == RoleNames(Roles(mode, scenario).value)
  {
    match Roles(mode, scenario)
    case Some(roles) => Some(RoleNames(roles))
    case None => None
  }

  /** A built-in mode for `n` players has `n` roles: one lord and `n - 1`
      renegades. */
  lemma StandardModeRoles(n: int, scenario: Option<Scenario>)
    requires 2 <= n <= 10
    ensures RoleList(ModeKey(n), scenario) == Some(["lord"] + Repeat("renegade", n - 1))
  {
    var mode := ModeKey(n);
    var k := PlayerCount(mode, scenario).value;
    assert ModeKey(k) == mode;
    assert k == n;
    RoleTableShape(n);
    var roles := ['Z'] + Repeat('N', n - 1);
    assert UpToNul(roles) == roles;
    var names := RoleNames(roles);
    assert names == ["lord"] + Repeat("renegade", n - 1);
  }
}
