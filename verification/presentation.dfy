/**
 The popup's presentation arithmetic (extension/popup.js): the width of the
 dependency bar, the risk class of the bubble, the threshold for the
 confirmation modal, and the session duration shown in it.
 */
module Presentation {
  import opened Text
  import opened Scoring

  /* ---------- Bar, risk class and modal ---------- */

  /** `Math.min(score * 10, 100)`: the bar width in percent. */
  function Percent(score: int): (p: int)
    ensures p <= 100
    ensures p == 100 <==> score >= MaxScore
    ensures score >= 0 ==> p >= 0
  {
    Min(score * 10, 100)
  }

  /** Below the cap the bar width is ten times the score, so it determines
      the score. */
  lemma PercentRecoversScore(score: int)
    requires score <= MaxScore
    ensures Percent(score) % 10 == 0 && Percent(score) / 10 == score
  {
  }

  /** A higher score never gives a narrower bar. */
  lemma PercentMonotone(a: int, b: int)
    requires a <= b
    ensures Percent(a) <= Percent(b)
  {
  }

  /** The class added to the answer bubble. */
  datatype Risk = NoRisk | MediumRisk | HighRisk

  /** `score >= 7` is high risk, `score > 4` medium, anything lower none. */
  function RiskOf(score: int): (r: Risk)
    ensures r == HighRisk <==> score >= 7
    ensures r == MediumRisk <==> 5 <= score <= 6
    ensures r == NoRisk <==> score <= 4
  {
    if score >= 7 then HighRisk
    else if score > 4 then MediumRisk
    else NoRisk
  }

  /** Whether the confirmation modal is shown before the result. */
  predicate ShowsModal(score: int)
  {
    score >= 7
  }

  /** The modal appears exactly for high-risk scores, and the risk classes
      line up with the message bands: high risk is the two strongest bands,
      medium the middle one, no risk the two weakest. */
  lemma RiskMatchesBands(score: int)
    ensures ShowsModal(score) <==> RiskOf(score) == HighRisk
    ensures RiskOf(score) == HighRisk <==> BandOf(score) == Reliance || BandOf(score) == Independent
    ensures RiskOf(score) == MediumRisk <==> BandOf(score) == Leaning
    ensures RiskOf(score) == NoRisk <==> BandOf(score) == Quiet || BandOf(score) == Revisited
  {
  }

  /** The server's regret flag and the modal disagree on one score: 6
      regrets but gets only the medium class and no modal. */
  lemma RegretWithoutModal(score: int)
    ensures Regret(score) && !ShowsModal(score) <==> score == 6
    ensures ShowsModal(score) ==> Regret(score)
  {
  }

  /* ---------- formatDuration ---------- */

  /** A duration split into whole hours, minutes and seconds. */
  datatype Clock = Clock(hrs: nat, mins: nat, secs: nat)

  /** The fields `formatDuration` computes from a positive duration in
      milliseconds, dropping the sub-second part. */
  function ClockOf(ms: int): (c: Clock)
    requires ms > 0
    ensures c.mins < 60 && c.secs < 60
    ensures c.hrs * 3600 + c.mins * 60 + c.secs == ms / 1000
  {
    var s := ms / 1000;
    Clock(s / 3600, (s % 3600) / 60, s % 60)
  }

  /** One field of the text: a numeral and its unit letter, as in "12m". */
  function Field(n: nat, unit: char): string
  {
    ShowNat(n) + [unit]
  }

  /** The fields shown: hours only when there are any, minutes only when
      there are hours or minutes, and always seconds. */
  function FieldsOf(c: Clock): (fields: seq<string>)
    ensures 1 <= |fields| <= 3
    ensures fields[|fields| - 1] == Field(c.secs, 's')
    ensures |fields| == (if c.hrs > 0 then 3 else if c.mins > 0 then 2 else 1)
  {
    if c.hrs > 0 then [Field(c.hrs, 'h'), Field(c.mins, 'm'), Field(c.secs, 's')]
    else if c.mins > 0 then [Field(c.mins, 'm'), Field(c.secs, 's')]
    else [Field(c.secs, 's')]
  }

  /** `formatDuration(ms)`: "0s" for a duration that is not positive;
      otherwise the shown fields separated by single spaces. */
  function FormatDuration(ms: int): (text: string)
    ensures ms <= 0 ==> text == "0s"
    ensures ms > 0 ==> SplitOn(text, ' ') == FieldsOf(ClockOf(ms))
  {
    if ms <= 0 then "0s"
    else
      var fields := FieldsOf(ClockOf(ms));
      FieldsHaveNoSpace(ClockOf(ms));
      SplitOnJoin(fields, ' ');
      Join(fields, ' ')
  }

  /** A numeral followed by a unit letter has no space in it. */
  lemma FieldHasNoSpace(n: nat, unit: char)
    requires unit != ' '
    ensures ' ' !in Field(n, unit)
  {
    var f := Field(n, unit);
    forall i | 0 <= i < |f| ensures f[i] != ' ' {
      if i < |ShowNat(n)| {
        assert IsDigit(ShowNat(n)[i]);
      }
    }
  }

  lemma FieldsHaveNoSpace(c: Clock)
    ensures forall k :: 0 <= k < |FieldsOf(c)| ==> ' ' !in FieldsOf(c)[k]
  {
    FieldHasNoSpace(c.hrs, 'h');
    FieldHasNoSpace(c.mins, 'm');
    FieldHasNoSpace(c.secs, 's');
  }

  /* ---------- Reading a duration back ---------- */

  datatype Option<T> = None | Some(value: T)

  /** The number in a field such as "12m", given its unit letter. */
  function ReadField(part: string, unit: char): (n: Option<nat>)
    ensures n.Some? ==> |part| >= 2 && part[|part| - 1] == unit
  {
    if |part| >= 2 && part[|part| - 1] == unit && AllDigits(part[..|part| - 1])
    then Some(ReadDigits(part[..|part| - 1]))
    else None
  }

  /** The number of whole seconds a duration text stands for, or None when
      it is not of one of the formatter's three shapes. */
  function ParseDuration(text: string): Option<nat>
  {
    var parts := SplitOn(text, ' ');
    if |parts| == 1 then
      ReadField(parts[0], 's')
    else if |parts| == 2 then
      match (ReadField(parts[0], 'm'), ReadField(parts[1], 's'))
      case (Some(m), Some(s)) => Some(m * 60 + s)
      case _ => None
    else if |parts| == 3 then
      match (ReadField(parts[0], 'h'), ReadField(parts[1], 'm'), ReadField(parts[2], 's'))
      case (Some(h), Some(m), Some(s)) => Some(h * 3600 + m * 60 + s)
      case _ => None
    else None
  }

  lemma ReadFieldShowNat(n: nat, unit: char)
    ensures ReadField(Field(n, unit), unit) == Some(n)
  {
    var part := Field(n, unit);
    assert part[..|part| - 1] == ShowNat(n);
    ReadShowNat(n);
  }

  /** The formatted text stands for exactly the whole seconds of the
      duration: the fields lose nothing but the milliseconds. */
  lemma ParseFormatDuration(ms: int)
    ensures ParseDuration(FormatDuration(ms)) == Some(if ms <= 0 then 0 else ms / 1000)
  {
    if ms <= 0 {
      ReadFieldShowNat(0, 's');
      assert Field(0, 's') == "0s";
      SplitOnWithout("0s", ' ');
    } else {
      var c := ClockOf(ms);
      ReadFieldShowNat(c.hrs, 'h');
      ReadFieldShowNat(c.mins, 'm');
      ReadFieldShowNat(c.secs, 's');
    }
  }
}
