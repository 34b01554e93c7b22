# QSanguosha for Hegemony: engine registry, generals and move reasons in Dafny

This project models the core of the QSanguosha-For-Hegemony card game
engine:

- the content registry that `QSgsEngine` builds as packages load. It
  holds cards numbered with engine-wide ids, skills by name and in
  per-kind lists (prohibit, distance, max-cards, target-mod, attack-range,
  global trigger), named card patterns, related-skill pairs, generals and
  the lord list;
- the registry's lookups: skills, related and main skills, patterns,
  generals, hidden generals, cards, the general count, the card-handling
  method names, translation, the player count and role list of a mode;
- the correction folds that sum or cap per-skill answers: prohibition,
  distance, max cards, card-target modifiers and attack range;
- `General`: parsing the lord mark, gender, the head and deputy maximum
  hp, skill ownership, the skill list, companions;
- `CardMoveReason`: its constructors, its equality, and the move-reason
  codes with their basic-reason mask;
- the game's enumerations: card suits, handling methods, genders, phases,
  guanxing arrangements, card-use reasons and the trigger events.

Everything is an immutable datatype, and every operation is a pure
function returning a new value. The one exception is the general count,
which is a method with a loop. Answers the engine obtains by calling a
skill's virtual method become function-typed parameters, for example a
distance skill's `getCorrect` or a target-mod skill's pattern match. The
correction folds are shown equal to independent reference definitions
(`SumOf`, `MaxFrom0`, `MatchingSum`, `FirstNoLimit`). The encodings of
the enumerations and move-reason codes are shown injective by
partial inverses.

Modules: `Wrappers` (Option), `Strings` (character removal, split, join),
`Enumeration`, `Structs` (move reasons), `Skills` (the skill, player and
card records the engine relies on), `Generals`, `Engine` (the registry),
`Corrections` and `EngineText` (handling-method names, translation,
modes and roles).

Two behaviours of the code that are easy to misread:

- **Named card patterns from different packages.** `addPackage` merges a
  package's patterns with `QHash::unite` (src/corelib/core/engine.cpp:241),
  and a later `value()` lookup returns the most recent insertion. So when
  two packages declare the same pattern name, the later package wins, and
  `Engine.RecordPackage` overrides the map with `reg.patterns + pkg.patterns`.
- **Duplicate skill names.** `addSkills` (src/corelib/core/engine.cpp:183-186)
  overwrites the name map with the later skill and still appends both
  skills to their kind list. `Engine.DuplicateNameKeepsBoth` states this.

`addPackage` asks `isGeneralHidden` about a general just after filing it,
so the answer depends only on the general's own hidden flag and the
configuration lists. `Engine.AddGeneral` tests that verdict directly
(`Engine.HiddenByConfig`), and `Engine.AddGeneralLord` shows it is the
answer `Engine.IsGeneralHidden` gives on the registry with the general filed.

## Model

| member | source | states |
|---|---|---|
| Strings.RemoveChar | src/corelib/core/general.cpp:40-49 | removing a character (the lord mark) leaves no occurrence of it, keeps every other character's count, is the identity when the character is absent, and on a one-character string drops exactly that character; with `RemoveCharAppend` this fixes the order of what is kept |
| Strings.RemoveCharIdempotent | src/corelib/core/general.cpp:40-49 | removing the same character twice is the same as once |
| Strings.RemoveCharAppend | src/corelib/core/general.cpp:40-49 | removing a character from a concatenation removes it from each part, keeping the parts in order |
| Strings.JoinSplit | src/corelib/core/engine.cpp:325-332 | splitting text on the separator and joining the pieces back gives the original text; empty pieces are kept |
| Strings.ConcatSplit | src/corelib/core/engine.cpp:325-332 | concatenating the pieces of a split without separators equals removing every separator |
| Strings.Split | src/corelib/core/engine.cpp:327 | splitting gives at least one piece, no piece holds the separator, and text without the separator is a single piece |
| Strings.SplitAppend | src/corelib/core/engine.cpp:327 | splitting two texts joined by a separator gives the pieces of the first followed by those of the second |
| Strings.ConcatAppend | src/corelib/core/engine.cpp:325-332 | concatenating two lists of pieces is the concatenation of each |
| Enumeration.SuitOfValue | corelib/enumeration.h:5-14 | a decoded suit value encodes back to the same integer |
| Enumeration.SuitValue | corelib/enumeration.h:5-14 | the declared integer of each suit; `SuitOfValue` and `SuitValueInjective` show it is a faithful encoding |
| Enumeration.SuitValueRoundTrip | corelib/enumeration.h:5-14 | every suit decodes from its integer value |
| Enumeration.SuitValueInjective | corelib/enumeration.h:5-14 | distinct suits have distinct values |
| Enumeration.SuitColour | corelib/enumeration.h:5-14 | a concrete suit's colour is its value with the low byte cleared; it is black exactly for spade and club, otherwise red |
| Enumeration.NonSuitsAreDistinct | corelib/enumeration.h:5-14 | no suit or colour shares the value of NoSuit or of the to-be-decided suit |
| Enumeration.PhaseOrdinal | corelib/enumeration.h:46-49 | each phase's ordinal is its position in the declared phase order |
| Enumeration.PhaseOrder | corelib/enumeration.h:46-49 | the phases run from RoundStart through Finish and NotActive in declared order, with PhaseNone last |
| Enumeration.GuanxingOfValue | corelib/enumeration.h:70-73 | exactly the values -1, 0 and 1 decode to an arrangement, and each decodes to the arrangement with that value |
| Enumeration.GuanxingValue | corelib/enumeration.h:70-73 | each arrangement's value lies in -1 to 1 |
| Enumeration.ResponseUseIsResponse | corelib/enumeration.h:91-97 | the response-use reason carries the response reason in its low nibble |
| Enumeration.CardUseReasonValue | corelib/enumeration.h:91-97 | each card-use reason's value fits in one byte |
| Enumeration.EventOrdinal | corelib/enumeration.h:99-199 | NonTrigger is ordinal 0, NumOfEvents is the last ordinal (77), and no other event takes either |
| Enumeration.EventOfOrdinal | corelib/enumeration.h:99-199 | exactly the ordinals 0 to 77 decode to an event |
| Enumeration.EventOrdinalRoundTrip | corelib/enumeration.h:99-199 | every trigger event decodes from its ordinal |
| Enumeration.EventOrdinalInjective | corelib/enumeration.h:99-199 | distinct events have distinct ordinals |
| Structs.DefaultMoveReason | gamelogiclib/src/structs.h:121-124 | the default move reason has the unknown code and empty player, target, skill and event names |
| Structs.MoveReason2 | gamelogiclib/src/structs.h:125-129 | the two-argument constructor sets the code and player and leaves the rest empty |
| Structs.MoveReason4 | gamelogiclib/src/structs.h:131-137 | the four-argument constructor sets code, player, skill and event and leaves the target empty |
| Structs.MoveReason5 | gamelogiclib/src/structs.h:139-146 | the five-argument constructor sets all five fields |
| Structs.ConstructorsAgree | gamelogiclib/src/structs.h:121-146 | each shorter constructor equals the longer one with empty strings for the omitted fields |
| Structs.SameMoveReason | gamelogiclib/src/structs.h:151-157 | compares the five fields; `SameMoveReasonIsEquality` shows it is equality of reasons |
| Structs.SameMoveReasonIsEquality | gamelogiclib/src/structs.h:151-157 | the field-by-field comparison holds exactly when the two reasons are equal |
| Structs.SameMoveReasonEquivalence | gamelogiclib/src/structs.h:151-157 | the comparison is reflexive, symmetric and transitive |
| Structs.ReasonCode | gamelogiclib/src/structs.h:159-207 | every move-reason code fits in one byte |
| Structs.ParentReason | gamelogiclib/src/structs.h:159-207 | every code's parent is a basic reason, and a basic reason is its own parent |
| Structs.MaskIsRemainder | gamelogiclib/src/structs.h:209 | masking a byte with the basic-reason mask keeps its low nibble |
| Structs.BasicReasonOf | gamelogiclib/src/structs.h:209 | the basic reason of a code is at most 0x0F and never above the code; `BasicReasonOfIsMask` shows it is the code masked with 0x0F |
| Structs.BasicReasonOfIsMask | gamelogiclib/src/structs.h:209 | for every byte-sized code, the basic reason is the code masked bitwise with the basic-reason mask |
| Structs.MaskGivesParent | gamelogiclib/src/structs.h:159-209 | masking a code yields the code of the reason it refines |
| Structs.BasicReasonsAreFixedPoints | gamelogiclib/src/structs.h:159-169 | the basic reasons lie in 0x00 to 0x0A and are unchanged by the mask |
| Structs.ReasonOfCode | gamelogiclib/src/structs.h:159-207 | a decoded code encodes back to the same integer |
| Structs.ReasonCodeRoundTrip | gamelogiclib/src/structs.h:159-207 | every move-reason code decodes from its integer |
| Structs.ReasonCodesDistinct | gamelogiclib/src/structs.h:159-207 | distinct move reasons have distinct codes |
| Skills.ListOf | src/corelib/core/engine.cpp:188-202 | a skill goes to the kind list of its own kind, global triggers to the global-trigger list, and every other skill to no list |
| Generals.ParseLordName | src/corelib/core/general.cpp:40-49 | a name is a lord's exactly when it ends with the lord mark; the parsed name is then the name with every mark removed, in order, and strictly shorter; otherwise it is the name unchanged |
| Generals.NewGeneral | src/corelib/core/general.cpp:32-50 | a new general records its package, kingdom, double max hp, gender, hidden and never-shown flags and parsed lord name, with no skills or companions and both max-hp adjustments 0 |
| Generals.NewGeneralWithDefaults | gamelogiclib/src/general.h:45-46 | the default constructor arguments give a male, shown general with double max hp 4 |
| Generals.SetGender | src/corelib/core/general.cpp:77-80 | setting the gender changes that field and nothing else |
| Generals.IsMale | src/corelib/core/general.cpp:62-65 | the gender test for male; `GenderOfNewGeneral` and `GendersExclusive` state its answers |
| Generals.IsFemale | src/corelib/core/general.cpp:67-70 | the gender test for female; `GenderOfNewGeneral` and `GendersExclusive` state its answers |
| Generals.IsNeuter | src/corelib/core/general.cpp:72-75 | the gender test for neuter; `GenderOfNewGeneral` and `GendersExclusive` state its answers |
| Generals.GenderOfNewGeneral | src/corelib/core/general.cpp:62-75 | a new general is male exactly when constructed male, female otherwise, and never neuter |
| Generals.GendersExclusive | src/corelib/core/general.cpp:62-75 | no general answers yes to two of isMale, isFemale and isNeuter |
| Generals.SetHeadMaxHpAdjustedValue | src/corelib/core/general.cpp:334-337 | after the head adjustment is set, the head max hp is double max hp plus that value and the deputy max hp is unchanged |
| Generals.SetDeputyMaxHpAdjustedValue | src/corelib/core/general.cpp:339-342 | after the deputy adjustment is set, the deputy max hp is double max hp plus that value and the head max hp is unchanged |
| Generals.MaxHpHead | src/corelib/core/general.cpp:102-105 | double max hp plus the head adjustment; `SetHeadMaxHpAdjustedValue` and `MaxHpOfNewGeneral` state its values |
| Generals.MaxHpDeputy | src/corelib/core/general.cpp:107-110 | double max hp plus the deputy adjustment; `SetDeputyMaxHpAdjustedValue` and `MaxHpOfNewGeneral` state its values |
| Generals.MaxHpOfNewGeneral | src/corelib/core/general.cpp:102-110 | a new general's head and deputy max hp both equal its double max hp, and a setter called with its default argument (-1) lowers that position by one half point |
| Generals.NewGeneralValid | src/corelib/core/general.cpp:32-50 | a new general satisfies the skill-name invariants |
| Generals.AppendIfAbsent | src/corelib/core/general.cpp:112-126 | appending to the ordered skill-name list adds the name only when it is absent and keeps the list free of duplicates |
| Generals.AddSkillObject | src/corelib/core/general.cpp:112-118 | adding an owned skill puts its name in the skill set and, if new, at the end of the name list; the skill-name invariants are kept |
| Generals.AddSkillObjectIdempotent | src/corelib/core/general.cpp:112-118 | adding the same owned skill twice is the same as once |
| Generals.AddSkillName | src/corelib/core/general.cpp:120-126 | adding an extra skill name appends it to the extra names and name list when absent and changes nothing when present; no field other than the extra names and the name list ever changes |
| Generals.AddSkillNameIdempotent | src/corelib/core/general.cpp:120-126 | adding the same extra skill name twice is the same as once |
| Generals.ExtraSkillSet | gamelogiclib/src/general.h:78-81 | the extra-skill set holds exactly the extra skill names |
| Generals.ExtraSkillSetUpdates | src/corelib/core/general.cpp:112-126 | adding a name grows the extra-skill set by that name; adding an owned skill leaves it unchanged |
| Generals.HasSkill | src/corelib/core/general.cpp:128-131 | a general has a skill exactly when the name is owned or extra, which for a well-formed general is exactly when it is in the name list |
| Generals.AddedSkillIsHeld | src/corelib/core/general.cpp:112-131 | a skill just added, either way, is held, and the answer for any other name is unchanged |
| Generals.SkillsOfNames | src/corelib/core/general.cpp:133-144 | the filtered skill list holds only kept skills, each named in the list, and every named skill that passes the filter; with `SkillsOfNamesAppend` the order follows the name list |
| Generals.SkillsOfNamesKeepsAll | src/corelib/core/general.cpp:133-144 | when every named skill passes the filter, the list is exactly the named skills in order |
| Generals.SkillsOfNamesAppend | src/corelib/core/general.cpp:133-144 | one more name adds its skill at the end of the filtered list exactly when the skill passes the filter |
| Generals.GetSkillList | src/corelib/core/general.cpp:133-144 | without place relation, every named skill is listed in name-list order; with it, exactly the named skills that do not relate to the other place; every listed skill is one of the general's |
| Generals.GetSkillListAfterAdd | src/corelib/core/general.cpp:112-144 | after an owned skill is added, the place-filtered skill list gains that skill at its end exactly when it does not relate to the other place |
| Generals.AddCompanion | src/corelib/core/general.cpp:319-322 | adding a companion appends the name and changes nothing else |
| Generals.IsCompanionWith | src/corelib/core/general.cpp:324-332 | generals of different kingdoms are never companions; otherwise they are exactly when either lists the other or either is a lord of the kingdom |
| Generals.CompanionSymmetric | src/corelib/core/general.cpp:324-332 | the companion relation between two registered generals is symmetric |
| Engine.GetSkill | src/corelib/core/engine.cpp:183-186 | a skill is found exactly when its name was registered, and it is the skill filed under that name |
| Engine.LastNamed | src/corelib/core/engine.cpp:183-186 | a skill found for a name carries that name |
| Engine.LastNamedMeaning | src/corelib/core/engine.cpp:183-186 | nothing is found exactly when no entry carries the name; otherwise the skill found is an entry with that name and no later entry has it |
| Engine.AddSkill | src/corelib/core/engine.cpp:178-203 | a null entry changes nothing; a skill is filed under its name, overwriting any earlier one, and appended to its kind list; nothing else changes |
| Engine.AddSkills | src/corelib/core/engine.cpp:176-204 | each kind list grows by the package's skills of that kind in order; each name maps to the last skill of that name; names the package lacks keep their old skill |
| Engine.AddSkillsValid | src/corelib/core/engine.cpp:176-204 | adding skills keeps every registry invariant |
| Engine.AddSkillsAppend | src/corelib/core/engine.cpp:176-204 | adding two runs of skills one after the other is adding their concatenation |
| Engine.AddSkillsNameFrame | src/corelib/core/engine.cpp:176-204 | the name map after adding skills depends only on the name map before |
| Engine.SkillsForListAppend | src/corelib/core/engine.cpp:188-202 | the skills a kind list receives from two runs are those of the first run followed by those of the second |
| Engine.SkillsForListKind | src/corelib/core/engine.cpp:188-202 | every skill filed into a kind list belongs to that list |
| Engine.EachSkillInAtMostOneList | src/corelib/core/engine.cpp:188-202 | the kind lists together receive no more skills than the non-null entries of the package |
| Engine.DuplicateNameKeepsBoth | src/corelib/core/engine.cpp:183-190 | two prohibit skills with one name leave the later one filed under the name and both in the prohibit list |
| Engine.RelatedValues | src/corelib/core/engine.cpp:377-384 | the related names of a key are exactly the values paired with that key |
| Engine.RelatedValuesAppend | src/corelib/core/engine.cpp:377-384 | a pair declared later with the key puts its value in front of the earlier values |
| Engine.GetRelatedSkills | src/corelib/core/engine.cpp:377-384 | there is one entry per related name, in the order of `RelatedValues` (most recently declared first); entry i is found exactly when that name is a registered skill, and is then the skill filed under it; in a valid registry each found skill is related to the key |
| Engine.OwnerFrom | src/corelib/core/engine.cpp:389-393 | walking the keys from position i, finds a key that relates the name, and no key passed over before it relates the name; finds nothing exactly when no key from position i on relates it |
| Engine.LookupAll | src/corelib/core/engine.cpp:380-381 | looks every name up in order, one entry per name, each the registered skill of that name if any |
| Engine.FirstOwner | src/corelib/core/engine.cpp:389-393 | finds the first key, in key order, that lists the name among its related values, and finds nothing exactly when no pair relates the name |
| Engine.FirstOwnerFollowsKeyOrder | src/corelib/core/engine.cpp:389-393 | the key that is met first decides, not the first pair that mentions the name: with pairs (A, x), (B, n), (A, n) the owner of n is A |
| Engine.GetMainSkill | src/corelib/core/engine.cpp:386-395 | an unknown name has no main skill; a visible skill or a related-skill key is its own main skill; a hidden non-key skill resolves to the skill of the first key, in key order, that relates it, and to itself when no key does |
| Engine.GetPattern | src/corelib/core/engine.cpp:339-349 | a named pattern is returned unchanged; an unknown name compiles to an expression pattern over the name, is cached under it, and joins the engine's owned patterns |
| Engine.GetPatternMemoises | src/corelib/core/engine.cpp:339-349 | a second lookup of the same name returns the same pattern and leaves the registry unchanged |
| Engine.GetGeneral | src/corelib/core/engine.cpp:397-403 | a general is found exactly when its name is in the general hash, and it is the general filed there |
| Engine.IsGeneralHidden | src/corelib/core/engine.cpp:474-482 | an unknown general is not hidden; a shown general is hidden exactly when the extra-hidden list names it; a hidden one exactly when the removed-hidden list does not |
| Engine.HiddenListsNeverConflict | src/corelib/core/engine.cpp:474-482 | a general named in both configuration lists is hidden exactly when its own flag is clear |
| Engine.BannedCount | src/corelib/core/engine.cpp:405-417 | counts the generals of banned packages: none when no package is banned, all when every one is |
| Engine.BannedCountStep | src/corelib/core/engine.cpp:410-416 | extending the scanned prefix by one general adds one to the banned count exactly when that general's package is banned |
| Engine.CountUnbanned | src/corelib/core/engine.cpp:410-416 | the loop counts exactly the generals whose package is not banned |
| Engine.GetGeneralCount | src/corelib/core/engine.cpp:405-417 | with banned packages included the count is every general; otherwise it is every general minus those in banned packages |
| Engine.GetCard | src/corelib/core/engine.cpp:498-524 | the unknown id gives no card; an id within the card list gives the card at that position, whose id in a valid registry is the id asked for; any other id is an invalid lookup, where the source fails an assertion |
| Engine.GetCardCount | src/corelib/core/engine.cpp:844-847 | exactly the ids below the card count find a card |
| Engine.GrantRelated | src/corelib/core/engine.cpp:292-295 | granting related skills adds exactly their names to a general's extra skills, keeps its owned skills, and changes no other field |
| Engine.AbsorbRelated | src/corelib/core/engine.cpp:289-296 | walking the extra skills adds exactly the related grants of the names that do not start with '#' to the extra-skill set, keeps the owned skills, and changes no field but the extra names and the name list |
| Engine.GrantRelatedValid | src/corelib/core/engine.cpp:292-295 | granting related skills to a general that keeps its skill-name invariants keeps them |
| Engine.AbsorbRelatedValid | src/corelib/core/engine.cpp:289-296 | walking the extra skills keeps a general's skill-name invariants |
| Engine.GrantedByRelation | src/corelib/core/engine.cpp:292-294 | in a valid registry a name is granted by a key exactly when the pair is declared and the name is a registered skill |
| Engine.RelatedGrantsMeaning | src/corelib/core/engine.cpp:289-296 | a name is among the grants of a walk exactly when some walked name not starting with '#' relates it and it is a registered skill |
| Engine.AddGeneral | src/corelib/core/engine.cpp:288-300 | the appended general is the given one after absorbing the related skills of its extra names, looked up in the registry with its skills added; it is filed under its name in the general hash; the lord list grows by its name exactly when it is a lord the configuration does not hide; packages, cards, patterns, related pairs and engine patterns are untouched |
| Engine.AddGeneralGrants | src/corelib/core/engine.cpp:288-296 | the filed general differs from the given one only in its skill names, and its extra-skill set is the given one plus the related grants |
| Engine.AddGeneralSkills | src/corelib/core/engine.cpp:288-290 | the skill map after adding a general is the one `addSkills` leaves, and each kind list grows by exactly the general's skills of that kind |
| Engine.AddGeneralLord | src/corelib/core/engine.cpp:297-299 | the lord list grows by the general's name exactly when it is a lord that `isGeneralHidden` does not hide in the resulting registry |
| Engine.OwnedSkillsResolve | src/corelib/core/engine.cpp:288-290 | when a general's skill objects are its owned skills, every owned skill name is registered once the general is added |
| Engine.AddGeneralValid | src/corelib/core/engine.cpp:288-300 | adding a well-formed general keeps every registry invariant |
| Engine.AsEntries | src/corelib/core/engine.cpp:290 | a general's skills are registered as non-null entries in order |
| Engine.AddGenerals | src/corelib/core/engine.cpp:288-300 | the general list grows by exactly one entry per general, keeping the earlier ones as a prefix; packages, cards, patterns, related pairs and engine patterns are untouched |
| Engine.ShownLordsMeaning | src/corelib/core/engine.cpp:297-299 | a name is among the shown lords exactly when some general of that name is a lord the configuration does not hide |
| Engine.AddGeneralsLords | src/corelib/core/engine.cpp:286-300 | the lord list grows by exactly the shown lords of the generals, in order |
| Engine.AddGeneralsSkills | src/corelib/core/engine.cpp:286-300 | the skill map is what adding all the generals' skills leaves, and each kind list grows by exactly their skills of that kind |
| Engine.AddGeneralsShape | src/corelib/core/engine.cpp:286-300 | the general added for the i-th entry differs from the given general only in its skill names and has at least its extra skills |
| Engine.FileAllFiles | src/corelib/core/engine.cpp:298 | filing a run of generals files every name, and a general that no later one shares its name with is the one filed |
| Engine.FileAllKeeps | src/corelib/core/engine.cpp:298 | filing a run that does not use a name leaves that name's entry as it was |
| Engine.AddGeneralsFiling | src/corelib/core/engine.cpp:286-300 | the general hash is the old one with the added generals filed in order |
| Engine.AddGeneralsFiled | src/corelib/core/engine.cpp:286-300 | every added general's name is in the general hash |
| Engine.AddGeneralsFiledLast | src/corelib/core/engine.cpp:286-300 | a general that no later one in the run shares its name with is the one the hash files under its name |
| Engine.AddGeneralsValid | src/corelib/core/engine.cpp:288-300 | adding well-formed generals keeps every registry invariant |
| Engine.NumberCards | src/corelib/core/engine.cpp:244-248 | a package's cards get consecutive ids starting at the current card count |
| Engine.RecordPackage | src/corelib/core/engine.cpp:238-248 | recording a package appends it, numbers and appends its cards, merges its patterns with later ones winning, and appends its related pairs; the generals, general hash, skills, kind lists, lord list and engine patterns are unchanged |
| Engine.RecordPackageValid | src/corelib/core/engine.cpp:233-248 | recording an unregistered package keeps every registry invariant |
| Engine.AddPackage | src/corelib/core/engine.cpp:231-305 | an already registered package changes nothing; otherwise the package is appended, its cards numbered and appended, its patterns and related pairs merged, one general added per package general, and it becomes registered; engine patterns are untouched |
| Engine.AddPackageSkills | src/corelib/core/engine.cpp:284-290 | a new package leaves the skill map as adding its own skills and then its generals' skills does |
| Engine.AddPackageKinds | src/corelib/core/engine.cpp:284-290 | a new package grows each kind list by exactly its skills and its generals' skills of that kind, in order |
| Engine.AddPackageLords | src/corelib/core/engine.cpp:286-300 | a new package grows the lord list by exactly its shown lords, in order |
| Engine.AddPackageShape | src/corelib/core/engine.cpp:286-300 | each general of a new package is added differing from the declared one only in its skill names, with at least its extra skills |
| Engine.AddPackageFiled | src/corelib/core/engine.cpp:286-300 | every general of a new package is filed in the general hash |
| Engine.AddPackageIdempotent | src/corelib/core/engine.cpp:233-236 | adding the same package twice is the same as adding it once |
| Engine.AddPackageValid | src/corelib/core/engine.cpp:231-305 | adding a package of well-formed generals keeps every registry invariant |
| Corrections.SumOfAppend | src/corelib/core/engine.cpp:1013-1021 | the reference sum over two lists is the sum of their sums |
| Corrections.MaxFrom0 | src/corelib/core/engine.cpp:1023-1038 | the reference maximum is non-negative, bounds every answer, and is 0 or one of the answers |
| Corrections.SumFold | src/corelib/core/engine.cpp:1013-1021 | the accumulating loop equals the start value plus the reference sum |
| Corrections.CorrectionFold | src/corelib/core/engine.cpp:1023-1038 | in fixed mode the loop keeps the larger of the running value and each fixed answer; otherwise it adds every extra answer |
| Corrections.FirstWhere | src/corelib/core/engine.cpp:1003-1011 | finds the first skill satisfying the test, and finds none exactly when no skill does |
| Corrections.IsProhibited | src/corelib/core/engine.cpp:1003-1011 | returns the first prohibit skill that forbids the use, and none exactly when no prohibit skill does |
| Corrections.CorrectDistance | src/corelib/core/engine.cpp:1013-1021 | the distance correction is the sum of every distance skill's correction |
| Corrections.DistanceScenario | src/corelib/core/engine.cpp:1013-1021 | corrections of +1 and -2 combine to -1 |
| Corrections.DistanceAdditive | src/corelib/core/engine.cpp:1013-1021 | registering one more distance skill adds exactly its correction |
| Corrections.CorrectMaxCards | src/corelib/core/engine.cpp:1023-1038 | without fixed mode the result is the sum of extra answers; in fixed mode it is the largest fixed answer, never below 0 |
| Corrections.CorrectAttackRange | src/corelib/core/engine.cpp:1075-1090 | without fixed mode the result is the sum of extra answers; in fixed mode it is the largest fixed answer, never below 0 |
| Corrections.FixedIsMaximumNotSum | src/corelib/core/engine.cpp:1023-1038 | fixed answers 3 and 5 give 5, not 8; all-negative fixed answers give 0 |
| Corrections.FirstNoLimit | src/corelib/core/engine.cpp:1044-1061 | finds the first matching skill whose value reaches 998, and finds none exactly when no matching skill's value does |
| Corrections.CappedFold | src/corelib/core/engine.cpp:1044-1061 | without a value of 998 or more the result is the sum of the matching values; otherwise it is the first such value |
| Corrections.MatchingSumFold | src/corelib/core/engine.cpp:1062-1068 | the extra-target loop adds exactly the values of the matching skills |
| Corrections.CorrectCardTarget | src/corelib/core/engine.cpp:1040-1072 | extra targets sum over matching skills; residue and distance limit sum likewise but return the first matching value of 998 or more |
| Corrections.NoLimitIgnoresLaterSkills | src/corelib/core/engine.cpp:1044-1061 | once a matching skill reaches 998, skills registered after it do not affect the result |
| Corrections.UnmatchedSkillIgnored | src/corelib/core/engine.cpp:1044-1061 | a skill whose pattern does not match the card does not affect the result |
| Corrections.RunningTotalNotCapped | src/corelib/core/engine.cpp:1044-1052 | values 500, 600 and -200 give 900: the 998 test applies to each value, not to the running total |
| EngineText.HandlingMethodOf | src/corelib/core/engine.cpp:357-375 | a name decodes to a handling method exactly when it is that method's name |
| EngineText.ReleaseHandlingMethod | src/corelib/core/engine.cpp:357-375 | an unknown name falls back to no handling method; a known name gives its method |
| EngineText.HandlingMethodRoundTrip | src/corelib/core/engine.cpp:357-375 | every handling method decodes from its name |
| EngineText.HandlingMethodNamesDistinct | src/corelib/core/engine.cpp:357-375 | distinct handling methods have distinct names |
| EngineText.HandlingMethodName | src/corelib/core/engine.cpp:357-375 | the name of each handling method; `HandlingMethodOf` and `HandlingMethodNamesDistinct` state it is decodable |
| EngineText.TranslateOr | src/corelib/core/engine.cpp:334-337 | a key with a translation gives the translation; any other key gives the default |
| EngineText.Translate | src/corelib/core/engine.cpp:325-332 | translates each separator-delimited piece; `TranslateSingleKey`, `TranslateUntranslated` and `TranslateAppend` state its results |
| EngineText.TranslatePieces | src/corelib/core/engine.cpp:327-331 | one translation per piece, each the piece's translation or the piece itself |
| EngineText.TranslateAppend | src/corelib/core/engine.cpp:325-332 | translating two texts joined by a separator is translating each and concatenating |
| EngineText.TranslateSingleKey | src/corelib/core/engine.cpp:325-332 | text without the separator is translated as a single key, falling back to itself |
| EngineText.TranslateUntranslated | src/corelib/core/engine.cpp:325-332 | with no translations, translating text only removes the separators |
| EngineText.ModeKey | src/corelib/core/engine.cpp:106-114 | each player count from 2 to 10 names one of the standard modes |
| EngineText.DigitRun | src/corelib/core/engine.cpp:779-783 | the leading run of digits is a prefix made of digits that stops before the first non-digit |
| EngineText.FirstDigitRun | src/corelib/core/engine.cpp:779-783 | a digit run is found exactly when the text holds a digit, and it is non-empty and all digits |
| EngineText.FirstDigitRunPosition | src/corelib/core/engine.cpp:779-783 | a found run is the maximal digit run starting at a position before which the text holds no digit |
| EngineText.StandardModeCount | src/corelib/core/engine.cpp:777-792 | the digits of a standard mode name give a count from 2 to 10 whose mode key is that name |
| EngineText.PlayerCount | src/corelib/core/engine.cpp:777-792 | a standard mode gives the count written in its name; any other mode gives a count exactly when its scenario exists, namely the scenario's count |
| EngineText.RoleTableShape | src/corelib/core/engine.cpp:799-812 | the role string for n players is one lord followed by n - 1 renegades |
| EngineText.Roles | src/corelib/core/engine.cpp:794-823 | a standard mode's roles come from the table at its player count; another mode's roles are its scenario's, if any |
| EngineText.UpToNul | src/corelib/core/engine.cpp:829-830 | reading stops at the first NUL, and the whole string is read when there is none |
| EngineText.RoleName | src/corelib/core/engine.cpp:831-836 | the role name of a role letter; `RoleNames` and `StandardModeRoles` state its use |
| EngineText.RoleNames | src/corelib/core/engine.cpp:825-842 | there is one role name per character read, each the name of its role letter |
| EngineText.RoleList | src/corelib/core/engine.cpp:825-842 | the role list exists exactly when the roles do, and names each role letter in order |
| EngineText.StandardModeRoles | src/corelib/core/engine.cpp:794-842 | a standard n-player mode's role list is "lord" followed by n - 1 "renegade" |

## Left out

- Lua scripting, configuration files, the UI, sound and the translation
  tables' sources are not modelled. The translation map and the hidden-general
  configuration lists are parameters.
- Randomness (`getRandomGenerals`, `getRandomCards` and the shuffles) is
  left out.
- Qt reflection and meta-objects (`metaObjects`, class names, `cloneCard`
  and `cloneSkill`) are left out.
- Convert pairs and `getSetupString` are left out, and so are the engine
  functions outside the registry and the correction folds.
- Trigger dispatch and the double-valued trigger priorities are left out.
  `Enumeration` models only the trigger-event enumeration.
- The `ExpPattern` grammar is left out. Its `match` is a parameter of
  `Corrections.CorrectCardTarget`, and `Engine.GetPattern` records only the
  expression text.
- Every per-skill answer is a function-typed parameter: `getCorrect`,
  `getExtra`, `getFixed`, the residue, distance-limit and extra-target
  numbers, `isProhibited`, and `Skill::relateToPlace` in `Generals.GetSkillList`.
- `MaxCardsSkill`'s count type is an integer parameter.
- `getSkill(name)` is commented out at src/corelib/core/engine.cpp:958, so
  its body is not part of this model. `Engine.GetSkill` is a lookup in the
  map that `addSkills` fills.
- Engine.AbsorbRelated: skips a related name that is not a registered
  skill. `getRelatedSkills` returns null for it, and `addPackage`
  then dereferences that null, which is undefined behaviour.
- Engine.GetCard, EngineText.PlayerCount: engine.h is not part of this
  model, and src/corelib/core/engine.cpp spells some members two ways. The
  two spellings are taken to be the same container in each case:
  - `getCard` reads `m_cards` (engine.cpp:517-522), while `addPackage` fills
    `cards` (engine.cpp:246-247) and `getCardCount` returns `cards.length()`
    (engine.cpp:846).
  - `getPlayerCount` tests `m_modes` (engine.cpp:779), while the constructor
    fills `modes` (engine.cpp:106-114) and `getRoles` tests `modes`
    (engine.cpp:798).
  - The correction folds in `Corrections` read `m_prohibitSkills`,
    `m_distanceSkills`, `m_maxcardsSkills`, `m_targetmodSkills` and
    `m_attackrangeSkills` (engine.cpp:1005-1079), while `addSkills` fills
    `prohibit_skills`, `distance_skills`, `maxcards_skills`,
    `targetmod_skills` and `attackrange_skills` (engine.cpp:188-197).
- Engine.GetCard: the unknown-card id is taken as -1, since card.h is not
  part of this model.
- Corrections.CorrectCardTarget: `ModType` has exactly the three values
  the function tests, so its fall-through branch, which returns 0, is not
  modelled. `TargetModSkill` in gamelogiclib/src/skill.h:298-310 declares no
  `ModType`, and its members are `pattern()`, `residueNum`, `distanceLimit`
  and `extraTargetNum`, not the `getPattern()`, `getResidueNum`,
  `getDistanceLimit` and `getExtraTargetNum` that
  src/corelib/core/engine.cpp:1040-1072 calls. So the three `ModType`
  values and the per-skill answers are taken from the calls in
  `correctCardTarget` itself.
- QSet and QHash iteration orders are modelled as insertion order. This
  affects the order of a general's extra skills and the order in which
  `getMainSkill` visits the related-skill keys. `related_skills.keys()`
  lists a key once for each value stored under it, so the key order is
  modelled as the declaration order of the pairs, one key per pair.
- Integer width: the engine's `int` is 32 bits and the model's integers are
  unbounded, so overflow is not modelled in the correction sums
  (src/corelib/core/engine.cpp:1013-1090), in double max hp plus an
  adjustment (src/corelib/core/general.cpp:102-110) or in card ids
  (src/corelib/core/engine.cpp:245).
- `getModeName` and the translated mode names are left out. Only the mode
  keys "02p" to "10p" are modelled.
- EngineText.PlayerCount: does not model `QString::toInt` overflow on an
  absurdly long digit run.
- Generals.GetSkillList: requires every skill name to be registered. The
  source asserts that each lookup succeeds.
- Generals.IsCompanionWith: requires the other general to exist. The source
  asserts that it does.
- Assertion failures in `getPlayerCount` and `getRoles` (a non-standard
  mode without a scenario) are modelled as `None`.
