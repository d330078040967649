/**
 * `src/app/matches/create/page-client.tsx`: the form for a new match
 * activity. The form's state (`participants`, `fee`, `matchFormat`,
 * `skillPreference`) is the fields of a `CreateMatchForm`; the header
 * follows the page's `mode`.
 */
module CreateMatchPage {
  import opened Strings
  import opened JsValues

  /** The header's texts and classes. */
  datatype ModeConfig = ModeConfig(title: string, subtitle: string, headerClass: string, badgeClass: string)

  const SparringConfig := ModeConfig("Sparring", "Tantangan", "bg-secondary text-white", "bg-secondary text-white")
  const RankedConfig := ModeConfig("Turnamen", "Kompetisi", "bg-pastel-yellow text-black", "bg-black text-white")
  const CasualConfig := ModeConfig("Main Bareng", "Main Bareng", "bg-primary text-black", "bg-black text-white")

  /** `modeConfig`: the mode is uppercased, then SPARRING and RANKED have their own header. */
  function ModeConfigOf(mode: string): (config: ModeConfig)
    ensures config == SparringConfig <==> ToUpper(mode) == "SPARRING"
    ensures config == RankedConfig <==> ToUpper(mode) == "RANKED"
    ensures config == CasualConfig <==> ToUpper(mode) != "SPARRING" && ToUpper(mode) != "RANKED"
  {
    var normalized := ToUpper(mode);
    if normalized == "SPARRING" then SparringConfig
    else if normalized == "RANKED" then RankedConfig
    else CasualConfig
  }

  /** The header does not depend on the mode's case. */
  lemma ModeIgnoresCase(mode: string)
    ensures ModeConfigOf(ToLower(mode)) == ModeConfigOf(mode)
    ensures ModeConfigOf(ToUpper(mode)) == ModeConfigOf(mode)
  {
    UpperOfLower(mode);
    ToUpperIdempotent(mode);
  }

  /** Concrete modes: lower-case names work, and an unknown mode is a casual game. */
  lemma ModeExamples()
    ensures ModeConfigOf("sparring").title == "Sparring"
    ensures ModeConfigOf("Ranked").title == "Turnamen"
    ensures ModeConfigOf("CASUAL").title == "Main Bareng" && ModeConfigOf("").title == "Main Bareng"
  {
    assert ToUpper("sparring") == "SPARRING";
    assert ToUpper("Ranked") == "RANKED";
    assert ToUpper("CASUAL") == "CASUAL";
  }

  datatype MatchFormat = Single | Double | Mixed

  datatype SkillPreference = All | Beginner | Intermediate | Advanced

  /** The label of a format, on the card and on its button. */
  function FormatLabel(fmt: MatchFormat): (text: string)
    ensures text == "1 vs 1" <==> fmt == Single
    ensures text == "2 vs 2" <==> fmt == Double
    ensures text == "Campuran" <==> fmt == Mixed
  {
    match fmt
    case Single => "1 vs 1"
    case Double => "2 vs 2"
    case Mixed => "Campuran"
  }

  const MinParticipants := 2
  const MaxParticipants := 16

  /** `Math.min(prev + 1, 16)`. */
  function Incremented(p: int): (r: int)
    ensures 2 <= p <= 16 ==> 2 <= r <= 16
    ensures p < MaxParticipants ==> r == p + 1
    ensures p >= MaxParticipants ==> r == MaxParticipants
  {
    if p + 1 < MaxParticipants then p + 1 else MaxParticipants
  }

  /** `Math.max(prev - 1, 2)`. */
  function Decremented(p: int): (r: int)
    ensures 2 <= p <= 16 ==> 2 <= r <= 16
    ensures p > MinParticipants ==> r == p - 1
    ensures p <= MinParticipants ==> r == MinParticipants
  {
    if p - 1 > MinParticipants then p - 1 else MinParticipants
  }

  /** A tap on the counter's plus (`true`) or minus (`false`) button. */
  function CountAfter(p: int, taps: seq<bool>): int
    decreases |taps|
  {
    if taps == [] then p
    else CountAfter(if taps[0] then Incremented(p) else Decremented(p), taps[1..])
  }

  /** From the initial 4, any sequence of taps keeps the count within [2, 16]. */
  lemma {:induction false} CountStaysInRange(p: int, taps: seq<bool>)
    requires MinParticipants <= p <= MaxParticipants
    ensures MinParticipants <= CountAfter(p, taps) <= MaxParticipants
    decreases |taps|
  {
    if taps != [] {
      CountStaysInRange(if taps[0] then Incremented(p) else Decremented(p), taps[1..]);
    }
  }

  /** Below the cap, a plus then a minus gives the count back. */
  lemma UndoIncrement(p: int)
    requires MinParticipants <= p < MaxParticipants
    ensures Decremented(Incremented(p)) == p
  {
  }

  /** `Number(value || 0)`: the fee an input's text gives; empty text is 0. */
  function FeeOf(value: string): (fee: Number)
    ensures value == "" ==> fee == Finite(0.0)
    ensures fee == StringToNumber(value)
  {
    if value == "" then Finite(0.0) else StringToNumber(value)
  }

  class CreateMatchForm {
    var participants: int
    var fee: Number
    var matchFormat: MatchFormat
    var skillPreference: SkillPreference

    /** The count the counter shows lies within [2, 16]. */
    predicate Valid()
      reads this
    {
      MinParticipants <= participants <= MaxParticipants
    }

    constructor ()
      ensures Valid()
      ensures participants == 4 && fee == Finite(0.0) && matchFormat == Double && skillPreference == All
    {
      participants := 4;
      fee := Finite(0.0);
      matchFormat := Double;
      skillPreference := All;
    }

    /** `incrementParticipants`. */
    method IncrementParticipants()
      requires Valid()
      modifies this
      ensures Valid() && participants == Incremented(old(participants))
      ensures fee == old(fee) && matchFormat == old(matchFormat) && skillPreference == old(skillPreference)
    {
      participants := Incremented(participants);
    }

    /** `decrementParticipants`. */
    method DecrementParticipants()
      requires Valid()
      modifies this
      ensures Valid() && participants == Decremented(old(participants))
      ensures fee == old(fee) && matchFormat == old(matchFormat) && skillPreference == old(skillPreference)
    {
      participants := Decremented(participants);
    }

    /** The fee input's `onChange`. */
    method SetFee(value: string)
      modifies this
      ensures fee == FeeOf(value)
      ensures participants == old(participants) && matchFormat == old(matchFormat)
      ensures skillPreference == old(skillPreference)
    {
      fee := FeeOf(value);
    }

    /** A fmt button's `onClick`; the card then shows that fmt's text. */
    method SetMatchFormat(fmt: MatchFormat) returns (text: string)
      modifies this
      ensures matchFormat == fmt && text == FormatLabel(fmt)
      ensures participants == old(participants) && fee == old(fee) && skillPreference == old(skillPreference)
    {
      matchFormat := fmt;
      text := FormatLabel(matchFormat);
    }

    /** A level button's `onClick`. */
    method SetSkillPreference(level: SkillPreference)
      modifies this
      ensures skillPreference == level
      ensures participants == old(participants) && fee == old(fee) && matchFormat == old(matchFormat)
    {
      skillPreference := level;
    }
  }
}
