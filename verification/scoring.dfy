/**
 The dependency score and the advisory message, shared by both copies. Both
 score with the same precedence: learner mode first, then the two-prompt
 grace period, then the topic count plus a bonus for conceptual questions,
 capped at 10. Both map the score to one of five message bands; the texts
 differ in one character.
 */
module Scoring {

  /** Highest score. */
  const MaxScore: int := 10

  /** Prompts per session that are never scored. */
  const GracePrompts: int := 2

  /** Extra score for a conceptual question. */
  const ConceptualBonus: int := 2

  /** Score from which the server reports `regret`. */
  const RegretThreshold: int := 6

  function Min(a: int, b: int): int
  {
    if a <= b then a else b
  }

  /** The dependency score of one prompt, given the learner flag and the
      prompt total after this prompt was counted, and this prompt's topic
      count after it was incremented. */
  function DependencyScore(learner: bool, totalPrompts: int, count: int, conceptual: bool): (score: int)
    ensures score <= MaxScore
    ensures count >= 0 ==> score >= 0
    ensures learner ==> score == 0
    ensures totalPrompts <= GracePrompts ==> score == 0
    ensures !learner && totalPrompts > GracePrompts ==>
      var raw := count + (if conceptual then ConceptualBonus else 0);
      (raw >= MaxScore ==> score == MaxScore) && (raw <= MaxScore ==> score == raw)
  {
    var dependency :=
      if learner then 0
      else if totalPrompts <= GracePrompts then 0
      else count + (if conceptual then ConceptualBonus else 0);
    Min(dependency, MaxScore)
  }

  /** A positive score means neither learner mode nor the grace period
      applied, and a positive count or the bonus contributed. */
  lemma PositiveScoreMeansCounted(learner: bool, totalPrompts: int, count: int, conceptual: bool)
    requires DependencyScore(learner, totalPrompts, count, conceptual) > 0
    ensures !learner && totalPrompts > GracePrompts
    ensures count > 0 || conceptual
  {
  }

  /** More uses of a topic never lower its score. */
  lemma ScoreMonotoneInCount(learner: bool, totalPrompts: int, c1: int, c2: int, conceptual: bool)
    requires c1 <= c2
    ensures DependencyScore(learner, totalPrompts, c1, conceptual) <= DependencyScore(learner, totalPrompts, c2, conceptual)
  {
  }

  /** The conceptual bonus never lowers a score, and raises an uncapped one
      by exactly two. */
  lemma ConceptualBonusEffect(learner: bool, totalPrompts: int, count: int)
    ensures DependencyScore(learner, totalPrompts, count, false) <= DependencyScore(learner, totalPrompts, count, true)
    ensures !learner && totalPrompts > GracePrompts && count + ConceptualBonus <= MaxScore ==>
      DependencyScore(learner, totalPrompts, count, true) == DependencyScore(learner, totalPrompts, count, false) + ConceptualBonus
  {
  }

  /** What a scoring step reads off a prompt: its topic, whether it carries
      a learning signal, and whether it is conceptual. */
  datatype Cues = Cues(topic: string, learning: bool, conceptual: bool)

  /** Some cue of the run carries a learning signal. */
  predicate AnyLearning(cs: seq<Cues>)
  {
    exists i :: 0 <= i < |cs| && cs[i].learning
  }

  /** A run has a learning cue exactly when its prefix has one or its last
      cue is one. */
  lemma AnyLearningLast(cs: seq<Cues>)
    requires |cs| > 0
    ensures AnyLearning(cs) <==> AnyLearning(cs[..|cs| - 1]) || cs[|cs| - 1].learning
  {
    var n := |cs| - 1;
    var before := cs[..n];
    if AnyLearning(cs) {
      var i :| 0 <= i < |cs| && cs[i].learning;
      if i < n {
        assert before[i] == cs[i];
      }
    }
    if AnyLearning(before) {
      var i :| 0 <= i < n && before[i].learning;
      assert cs[i] == before[i];
    }
  }

  /** `dependency >= 6`. */
  predicate Regret(score: int)
  {
    score >= RegretThreshold
  }

  /* ---------- Message bands ---------- */

  /** The five advisory bands, from no message to the strongest. */
  datatype Band = Quiet | Revisited | Leaning | Reliance | Independent

  function Rank(b: Band): nat
  {
    match b
    case Quiet => 0
    case Revisited => 1
    case Leaning => 2
    case Reliance => 3
    case Independent => 4
  }

  /** The band of a score: at most 2, 3-4, 5-6, 7-8, 9 and above. */
  function BandOf(score: int): (b: Band)
    ensures b == Quiet <==> score <= 2
    ensures b == Independent <==> score >= 9
  {
    if score <= 2 then Quiet
    else if score <= 4 then Revisited
    else if score <= 6 then Leaning
    else if score <= 8 then Reliance
    else Independent
  }

  /** A higher score is never in a lower band. */
  lemma BandMonotone(a: int, b: int)
    requires a <= b
    ensures Rank(BandOf(a)) <= Rank(BandOf(b))
  {
  }

  /** The regret flag does not sit on a band boundary: a score of 5 is in
      the same band as 6 but only 6 regrets; from the Reliance band on every
      score regrets, and no Quiet or Revisited score does. */
  lemma RegretAgainstBands(score: int)
    ensures Rank(BandOf(score)) >= Rank(Reliance) ==> Regret(score)
    ensures Regret(score) ==> Rank(BandOf(score)) >= Rank(Leaning)
    ensures BandOf(5) == BandOf(6) && !Regret(5) && Regret(6)
  {
  }

  /** The Revisited text after its apostrophe, the same in both copies. */
  const RevisitedTail: string := "ve revisited this a few times. Try writing your own approach first \U{1F642}"
  const LeaningText: string := "You may be leaning on AI here. A short pause to think independently could help."
  const RelianceText: string := "This reliance pattern often reduces confidence during exams or interviews."
  const IndependentText: string := "High dependency detected. Attempt this independently before continuing."

  /** Server text of each band; its Revisited text has a typographic
      apostrophe. */
  function ServerText(b: Band): string
  {
    match b
    case Quiet => ""
    case Revisited => "You" + ['\U{2019}'] + RevisitedTail
    case Leaning => LeaningText
    case Reliance => RelianceText
    case Independent => IndependentText
  }

  /** Client text of each band: the server's, with an ASCII apostrophe in
      the Revisited text. */
  function ClientText(b: Band): string
  {
    match b
    case Revisited => "You" + ['\''] + RevisitedTail
    case _ => ServerText(b)
  }

  /** `getHumanMessage` of the server copy. */
  function ServerMessage(score: int): (msg: string)
    ensures msg == "" <==> score <= 2
  {
    ServerText(BandOf(score))
  }

  /** `getHumanMessage` of the client copy. */
  function ClientMessage(score: int): (msg: string)
    ensures msg == "" <==> score <= 2
  {
    ClientText(BandOf(score))
  }

  /** Each copy gives each band its own text, so the message tells the band:
      two scores get the same message exactly when they are in one band. */
  lemma MessageTellsBand(a: int, b: int)
    ensures ServerMessage(a) == ServerMessage(b) <==> BandOf(a) == BandOf(b)
    ensures ClientMessage(a) == ClientMessage(b) <==> BandOf(a) == BandOf(b)
  {
    var ta := ServerText(BandOf(a));
    var tb := ServerText(BandOf(b));
    if BandOf(a) != BandOf(b) {
      DistinctTexts(BandOf(a), BandOf(b));
    }
  }

  /** Different bands have different texts, in either copy: the texts
      have different lengths. */
  lemma DistinctTexts(x: Band, y: Band)
    requires x != y
    ensures ServerText(x) != ServerText(y)
    ensures ClientText(x) != ClientText(y)
  {
    TextLengths();
  }

  /** The length of each text, identical in both copies. */
  lemma TextLengths()
    ensures |ServerText(Quiet)| == 0 && |ServerText(Revisited)| == 72 && |ServerText(Leaning)| == 79
    ensures |ServerText(Reliance)| == 74 && |ServerText(Independent)| == 71
    ensures |ClientText(Revisited)| == 72
  {
  }

  /** The two copies give the same message in every band but Revisited,
      where the apostrophe differs. */
  lemma MessagesAgreeButRevisited(score: int)
    ensures ServerMessage(score) == ClientMessage(score) <==> BandOf(score) != Revisited
  {
    if BandOf(score) == Revisited {
      assert ServerMessage(score)[3] != ClientMessage(score)[3];
    }
  }
}
