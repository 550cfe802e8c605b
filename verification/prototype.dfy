/**
 The server copy as written keeps its topic statistics in a plain object
 literal and tests an entry with `topicStats[topic]`. A plain object
 inherits properties from its prototype, so for the two inherited names
 that survive topic normalisation (lower case, word characters only) the
 test finds an entry that is not there: no entry is created, the usage
 counter of the inherited value becomes NaN, and so does the score. This
 module models that behaviour beside the intended one (module Server).
 */
module Prototype {
  import opened Scoring
  import Topic
  import Server

  /** A JavaScript number as far as the step needs one. */
  datatype Num = Int(n: int) | NaN

  /** The reply the server sends, with a score that may be NaN. */
  datatype RawReply = RawReply(answer: string, dependency: Num, regret: bool, message: string)

  /** Names every plain object inherits and that are their own lower-case,
      word-character spelling: `Object.prototype.constructor` and
      `Object.prototype.__proto__`. */
  predicate Inherited(topic: string)
  {
    topic == "constructor" || topic == "__proto__"
  }

  /** `dep >= 6` on a number: false for NaN. */
  predicate RawRegret(d: Num)
  {
    d.Int? && Regret(d.n)
  }

  /** `getHumanMessage(dep)`: every comparison with NaN is false, so NaN
      falls through to the last text. The message is empty exactly for an
      integer score up to 2; NaN is never quiet. */
  function RawMessage(d: Num): (msg: string)
    ensures d.Int? ==> msg == ServerMessage(d.n)
    ensures d.NaN? ==> msg == ServerText(Independent)
    ensures msg == "" <==> d.Int? && d.n <= 2
  {
    match d
    case Int(n) => ServerMessage(n)
    case NaN => IndependentText
  }

  /** NaN reads as the strongest band: its message is the message of an
      integer score exactly when that score is at least 9. */
  lemma NaNReadsAsStrongest(n: int)
    ensures RawMessage(NaN) == RawMessage(Int(n)) <==> n >= 9
  {
    MessageTellsBand(n, 9);
  }

  /** The score and state part of `getResponse` as written, for a prompt
      with the given cues. When the topic is an inherited name with no own
      entry, `stats` is the inherited value: nothing is stored, `usage++`
      gives NaN and so does every score outside learner mode and the grace
      period. Otherwise the step is the intended one. */
  function StepAsWritten(s: Server.Session, c: Cues, answer: string): (out: (Server.Session, RawReply))
    ensures c.topic in s.topicStats || !Inherited(c.topic) ==>
      var (s', d) := Server.Advance(s, c);
      out == (s', RawReply(answer, Int(d), Regret(d), ServerMessage(d)))
    ensures c.topic !in s.topicStats && Inherited(c.topic) ==>
      && out.0.topicStats == s.topicStats
      && out.0.totalPrompts == s.totalPrompts + 1
      && (out.0.isLearnerMode <==> s.isLearnerMode || c.learning)
  {
    if c.topic !in s.topicStats && Inherited(c.topic) then
      var learner := s.isLearnerMode || c.learning;
      var total := s.totalPrompts + 1;
      var d := if learner || total <= GracePrompts then Int(0) else NaN;
      (Server.Session(s.topicStats, learner, total), RawReply(answer, d, RawRegret(d), RawMessage(d)))
    else
      var (s', d) := Server.Advance(s, c);
      (s', RawReply(answer, Int(d), Regret(d), ServerMessage(d)))
  }

  /** `getResponse(prompt)` as written, with the model's answer given. */
  function RespondAsWritten(s: Server.Session, prompt: string, answer: string): (out: (Server.Session, RawReply))
    ensures out == StepAsWritten(s, Server.CuesOf(prompt), answer)
    ensures Topic.ServerTopic(prompt) in s.topicStats || !Inherited(Topic.ServerTopic(prompt)) ==>
      var (s', r) := Server.Respond(s, prompt, answer);
      out == (s', RawReply(answer, Int(r.dependency), r.regret, r.message))
  {
    StepAsWritten(s, Server.CuesOf(prompt), answer)
  }

  /** `resetTopic(topic)` as written: an inherited name counts as present,
      so the call reports success while deleting nothing. */
  function ResetTopicAsWritten(s: Server.Session, topic: string): (out: (bool, Server.Session))
    ensures !Inherited(topic) ==> out == Server.ResetTopic(s, topic)
    ensures Inherited(topic) && topic !in s.topicStats ==> out == (true, s)
  {
    if topic == "" then (false, s)
    else if topic in s.topicStats then (true, s.(topicStats := s.topicStats - {topic}))
    else if Inherited(topic) then (true, s)
    else (false, s)
  }

  /* ---------- The discrepancy ---------- */

  /** As written, an inherited topic past the grace period, outside learner
      mode, is never counted and always gets the strongest message with no
      regret flag, however often it is asked. */
  lemma InheritedTopicAsWritten(s: Server.Session, c: Cues, answer: string)
    requires Inherited(c.topic) && c.topic !in s.topicStats
    requires !s.isLearnerMode && !c.learning && s.totalPrompts >= GracePrompts
    ensures StepAsWritten(s, c, answer).1 == RawReply(answer, NaN, false, IndependentText)
    ensures c.topic !in StepAsWritten(s, c, answer).0.topicStats
  {
  }

  /** Intended: the same prompt is counted as the topic's first use and
      scores 1, or 3 when conceptual, which never regrets and never reaches
      the strongest message. */
  lemma InheritedTopicIntended(s: Server.Session, c: Cues)
    requires c.topic !in s.topicStats
    requires !s.isLearnerMode && !c.learning && s.totalPrompts >= GracePrompts
    ensures Server.Advance(s, c).1 == (if c.conceptual then 3 else 1)
    ensures Server.Advance(s, c).0.topicStats[c.topic].usage == 1
    ensures !Regret(Server.Advance(s, c).1)
    ensures BandOf(Server.Advance(s, c).1) != Independent
  {
  }

  lemma ConstructorTopic()
    ensures Topic.ServerTopic("constructor") == "constructor"
  {
    if Topic.IsStopWord("constructor") {
      Topic.StopWordsAreShort("constructor");
    }
    Topic.SingleKeywordTopic("constructor");
  }

  lemma ConstructorPlain()
    ensures !Server.IsConceptual("constructor") && !Server.HasLearningSignal("constructor")
  {
    Server.PlainWithout("constructor");
  }

  /** "constructor" is a one-keyword prompt with no cue words. */
  lemma ConstructorCues()
    ensures Server.CuesOf("constructor") == Cues("constructor", false, false)
  {
    ConstructorTopic();
    ConstructorPlain();
  }

  /** The counterexample: the prompt "constructor" as the third prompt of a
      fresh session gets the strongest message as written, where the
      intended step gives a score of 1 and no message. */
  lemma ConstructorPrompt(answer: string)
    ensures var s := Server.Session(map[], false, 2);
      && RespondAsWritten(s, "constructor", answer).1 == RawReply(answer, NaN, false, IndependentText)
      && Server.Respond(s, "constructor", answer).1 == Server.Reply(answer, 1, false, "")
  {
    var s := Server.Session(map[], false, 2);
    ConstructorCues();
    InheritedTopicAsWritten(s, Server.CuesOf("constructor"), answer);
    InheritedTopicIntended(s, Server.CuesOf("constructor"));
  }

  /** As written, resetting "constructor" reports success on any state
      without an own entry for it; the intended reset reports failure. */
  lemma ConstructorReset(s: Server.Session)
    requires "constructor" !in s.topicStats
    ensures ResetTopicAsWritten(s, "constructor") == (true, s)
    ensures Server.ResetTopic(s, "constructor") == (false, s)
  {
  }
}
