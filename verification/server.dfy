/**
 The server copy of the heuristic (backend/services/regretLogic.js): one
 process-wide session holding per-topic statistics, the sticky learner flag
 and the prompt total; one step per `getResponse` call; and the two resets.
 The language-model answer is an opaque string the step passes through.
 */
module Server {
  import opened Text
  import opened Topic
  import opened Scoring

  /** Words that make a prompt conceptual, matched as raw substrings. */
  const ConceptualWords: seq<string> := ["why", "how", "explain", "derive", "reason", "prove", "difference"]

  /** Phrases that switch learner mode on, matched as raw substrings. */
  const LearningSignals: seq<string> :=
    ["i am new", "beginner", "learning", "first time", "trying to learn", "learner", "new to", "new at"]

  /** `contains(conceptualWords, prompt)`. */
  predicate IsConceptual(prompt: string)
  {
    ContainsAny(Lower(prompt), ConceptualWords)
  }

  /** `contains(learningSignals, prompt)`. */
  predicate HasLearningSignal(prompt: string)
  {
    ContainsAny(Lower(prompt), LearningSignals)
  }

  /** Both tests ignore case: a prompt and its lower case agree on them. */
  lemma CuesIgnoreCase(prompt: string)
    ensures IsConceptual(Lower(prompt)) <==> IsConceptual(prompt)
    ensures HasLearningSignal(Lower(prompt)) <==> HasLearningSignal(prompt)
  {
    LowerIdempotent(prompt);
  }

  /** A shouted "WHY" anywhere in a prompt makes it conceptual: the list is
      written in small letters and the prompt is lower-cased first. */
  lemma ShoutedWhyIsConceptual(a: string, b: string)
    ensures IsConceptual(a + "WHY" + b)
  {
    LowerWhy();
    ListedWordFound("why", ConceptualWords);
    CuesIgnoreCase("WHY");
    CuesInContext(a, "WHY", b);
  }

  /** Both tests look for substrings: a prompt that passes one still passes
      it with any text around it. */
  lemma CuesInContext(a: string, prompt: string, b: string)
    ensures IsConceptual(prompt) ==> IsConceptual(a + prompt + b)
    ensures HasLearningSignal(prompt) ==> HasLearningSignal(a + prompt + b)
  {
    if IsConceptual(prompt) {
      ContainsAnyWithin(a, prompt, b, ConceptualWords);
    }
    if HasLearningSignal(prompt) {
      ContainsAnyWithin(a, prompt, b, LearningSignals);
    }
  }

  /** One entry of `topicStats`: the number of prompts counted under the
      topic and the score the last of them received. */
  datatype TopicStat = TopicStat(usage: nat, dependency: int)

  /** The process-wide state. */
  datatype Session = Session(topicStats: map<string, TopicStat>, isLearnerMode: bool, totalPrompts: nat)

  /** The body `getResponse` resolves to. */
  datatype Reply = Reply(answer: string, dependency: int, regret: bool, message: string)

  /** The state at process start. */
  const Start: Session := Session(map[], false, 0)

  /** The usage of a topic, 0 when it has no entry. */
  function UsageOf(s: Session, topic: string): nat
  {
    if topic in s.topicStats then s.topicStats[topic].usage else 0
  }

  function CuesOf(prompt: string): Cues
  {
    Cues(ServerTopic(prompt), HasLearningSignal(prompt), IsConceptual(prompt))
  }

  /** The state update and score for a prompt with the given cues. Only the
      cue's topic entry, the learner flag and the total change. */
  function Advance(s: Session, c: Cues): (out: (Session, int))
    ensures out.0.topicStats.Keys == s.topicStats.Keys + {c.topic}
    ensures forall t :: t in s.topicStats && t != c.topic ==> out.0.topicStats[t] == s.topicStats[t]
    ensures out.0.topicStats[c.topic] == TopicStat(UsageOf(s, c.topic) + 1, out.1)
    ensures out.0.totalPrompts == s.totalPrompts + 1
    ensures out.0.isLearnerMode <==> s.isLearnerMode || c.learning
    ensures 0 <= out.1 <= MaxScore
    ensures out.1 == DependencyScore(out.0.isLearnerMode, out.0.totalPrompts, UsageOf(s, c.topic) + 1, c.conceptual)
  {
    var learner := s.isLearnerMode || c.learning;
    var stats := if c.topic in s.topicStats then s.topicStats[c.topic] else TopicStat(0, 0);
    var usage := stats.usage + 1;
    var total := s.totalPrompts + 1;
    var dependency := DependencyScore(learner, total, usage, c.conceptual);
    (Session(s.topicStats[c.topic := TopicStat(usage, dependency)], learner, total), dependency)
  }

  /** The scoring and state part of `getResponse`: the new state and the
      score. Only the prompt's topic entry, the learner flag and the total
      change. */
  function Step(s: Session, prompt: string): (out: (Session, int))
    ensures var topic := ServerTopic(prompt);
      && out.0.topicStats.Keys == s.topicStats.Keys + {topic}
      && (forall t :: t in s.topicStats && t != topic ==> out.0.topicStats[t] == s.topicStats[t])
      && out.0.topicStats[topic] == TopicStat(UsageOf(s, topic) + 1, out.1)
    ensures out.0.totalPrompts == s.totalPrompts + 1
    ensures out.0.isLearnerMode <==> s.isLearnerMode || HasLearningSignal(prompt)
    ensures 0 <= out.1 <= MaxScore
    ensures out.1 == DependencyScore(out.0.isLearnerMode, out.0.totalPrompts,
                                     UsageOf(s, ServerTopic(prompt)) + 1, IsConceptual(prompt))
  {
    Advance(s, CuesOf(prompt))
  }

  /** `getResponse(prompt)` with the model's answer given: the new state and
      the reply, whose flag and message are read off the score. */
  function Respond(s: Session, prompt: string, answer: string): (out: (Session, Reply))
    ensures out.0 == Step(s, prompt).0
    ensures out.1.dependency == Step(s, prompt).1
    ensures out.1.answer == answer
    ensures 0 <= out.1.dependency <= MaxScore
    ensures out.1.regret <==> out.1.dependency >= RegretThreshold
    ensures out.1.message == ServerText(BandOf(out.1.dependency))
    ensures out.1.message == "" <==> out.1.dependency <= 2
    ensures s.isLearnerMode || HasLearningSignal(prompt) || s.totalPrompts < GracePrompts ==>
      out.1 == Reply(answer, 0, false, "")
  {
    var (s', dependency) := Step(s, prompt);
    (s', Reply(answer, dependency, Regret(dependency), ServerMessage(dependency)))
  }

  /** `resetTopic(topic)`: false, and no change, for an empty or unknown
      topic; otherwise true with that one entry removed. */
  function ResetTopic(s: Session, topic: string): (out: (bool, Session))
    ensures out.0 <==> topic != "" && topic in s.topicStats
    ensures !out.0 ==> out.1 == s
    ensures out.0 ==> out.1.topicStats.Keys == s.topicStats.Keys - {topic}
    ensures forall t :: t in out.1.topicStats ==> out.1.topicStats[t] == s.topicStats[t]
    ensures out.1.isLearnerMode == s.isLearnerMode && out.1.totalPrompts == s.totalPrompts
  {
    if topic == "" then (false, s)
    else if topic in s.topicStats then (true, s.(topicStats := s.topicStats - {topic}))
    else (false, s)
  }

  /** `resetSession()`: always true; clears the learner flag and the total
      and keeps every topic entry. */
  function ResetSession(s: Session): (out: (bool, Session))
    ensures out.0
    ensures !out.1.isLearnerMode && out.1.totalPrompts == 0
    ensures out.1.topicStats == s.topicStats
  {
    (true, s.(isLearnerMode := false, totalPrompts := 0))
  }

  /* ---------- Single-call properties ---------- */

  /** After a topic is reset, its next prompt counts as its first use.
      (Stated for the prompt's cues; an extracted topic is never empty.) */
  lemma ResetTopicThenPrompt(s: Session, c: Cues)
    requires c.topic != "" && c.topic in s.topicStats
    ensures var (ok, s') := ResetTopic(s, c.topic);
      ok && Advance(s', c).0.topicStats[c.topic].usage == 1
  {
  }

  /** Resetting a topic twice: the second reset reports it not found. */
  lemma ResetTopicTwice(s: Session, topic: string)
    ensures !ResetTopic(ResetTopic(s, topic).1, topic).0
  {
  }

  /** A reset topic counts from one again, but a reset session does not
      clear usage: once the grace period is over, the score reflects every
      use of the topic since its entry was created. */
  lemma ResetSessionKeepsUsage(s: Session, c: Cues)
    ensures Advance(ResetSession(s).1, c).0.topicStats[c.topic].usage == UsageOf(s, c.topic) + 1
  {
  }

  /* ---------- Runs of prompts ---------- */

  /** The cues of each prompt, in order. */
  function CuesOfAll(prompts: seq<string>): (cs: seq<Cues>)
    ensures |cs| == |prompts|
    ensures forall i :: 0 <= i < |prompts| ==> cs[i] == CuesOf(prompts[i])
  {
    seq(|prompts|, i requires 0 <= i < |prompts| => CuesOf(prompts[i]))
  }

  /** The state after prompts with the given cues, in order. */
  function Replay(s: Session, cs: seq<Cues>): Session
    decreases |cs|
  {
    if |cs| == 0 then s
    else Advance(Replay(s, cs[..|cs| - 1]), cs[|cs| - 1]).0
  }

  /** The scores of prompts with the given cues, in order. */
  function ReplayScores(s: Session, cs: seq<Cues>): (scores: seq<int>)
    ensures |scores| == |cs|
    decreases |cs|
  {
    if |cs| == 0 then []
    else
      var before := cs[..|cs| - 1];
      ReplayScores(s, before) + [Advance(Replay(s, before), cs[|cs| - 1]).1]
  }

  /** The number of cues naming `topic`. */
  function TopicCount(cs: seq<Cues>, topic: string): nat
    decreases |cs|
  {
    if |cs| == 0 then 0
    else TopicCount(cs[..|cs| - 1], topic) + (if cs[|cs| - 1].topic == topic then 1 else 0)
  }

  /** Prompt `j` is scored in the state the earlier prompts left. */
  lemma {:induction false} ReplayScoresAt(s: Session, cs: seq<Cues>, j: int)
    requires 0 <= j < |cs|
    ensures ReplayScores(s, cs)[j] == Advance(Replay(s, cs[..j]), cs[j]).1
    decreases |cs|
  {
    var n := |cs| - 1;
    var before := cs[..n];
    if j < n {
      assert before[..j] == cs[..j];
      ReplayScoresAt(s, before, j);
    } else {
      assert before == cs[..j];
    }
  }

  /** Every prompt adds exactly one to the total. */
  lemma {:induction false} ReplayCountsPrompts(s: Session, cs: seq<Cues>)
    ensures Replay(s, cs).totalPrompts == s.totalPrompts + |cs|
    decreases |cs|
  {
    if |cs| > 0 {
      ReplayCountsPrompts(s, cs[..|cs| - 1]);
    }
  }

  /** A topic's usage grows by exactly the number of its prompts. */
  lemma {:induction false} ReplayUsage(s: Session, cs: seq<Cues>, topic: string)
    ensures UsageOf(Replay(s, cs), topic) == UsageOf(s, topic) + TopicCount(cs, topic)
    decreases |cs|
  {
    if |cs| > 0 {
      ReplayUsage(s, cs[..|cs| - 1], topic);
    }
  }

  /** A topic has an entry after a run exactly when it had one before or
      some prompt of the run had it as its topic. */
  lemma {:induction false} ReplayKeys(s: Session, cs: seq<Cues>, topic: string)
    ensures topic in Replay(s, cs).topicStats <==>
      topic in s.topicStats || exists i :: 0 <= i < |cs| && cs[i].topic == topic
    decreases |cs|
  {
    if |cs| > 0 {
      var n := |cs| - 1;
      var before := cs[..n];
      ReplayKeys(s, before, topic);
      if exists i :: 0 <= i < |cs| && cs[i].topic == topic {
        var i :| 0 <= i < |cs| && cs[i].topic == topic;
        if i < n {
          assert before[i] == cs[i];
        }
      }
      if exists i :: 0 <= i < n && before[i].topic == topic {
        var i :| 0 <= i < n && before[i].topic == topic;
        assert cs[i] == before[i];
      }
    }
  }

  /** Learner mode latches: it is on after a run exactly when it was on
      before or some prompt of the run carried a learning signal. */
  lemma {:induction false} ReplayLatch(s: Session, cs: seq<Cues>)
    ensures Replay(s, cs).isLearnerMode <==>
      s.isLearnerMode || exists i :: 0 <= i < |cs| && cs[i].learning
    decreases |cs|
  {
    if |cs| > 0 {
      ReplayLatch(s, cs[..|cs| - 1]);
      AnyLearningLast(cs);
    }
  }

  /** The state after the prompts, in order. */
  function Run(s: Session, prompts: seq<string>): Session
  {
    Replay(s, CuesOfAll(prompts))
  }

  /** The scores the prompts receive, in order. */
  function Scores(s: Session, prompts: seq<string>): (scores: seq<int>)
    ensures |scores| == |prompts|
  {
    ReplayScores(s, CuesOfAll(prompts))
  }

  /** The number of prompts whose topic is `topic`. */
  function Occurrences(prompts: seq<string>, topic: string): nat
  {
    TopicCount(CuesOfAll(prompts), topic)
  }

  /** Prompt `j` is scored in the state the earlier prompts left. */
  lemma ScoresAt(s: Session, prompts: seq<string>, j: int)
    requires 0 <= j < |prompts|
    ensures Scores(s, prompts)[j] == Step(Run(s, prompts[..j]), prompts[j]).1
  {
    ReplayScoresAt(s, CuesOfAll(prompts), j);
    assert CuesOfAll(prompts)[..j] == CuesOfAll(prompts[..j]);
  }

  /** Every prompt adds exactly one to the total. */
  lemma RunCountsPrompts(s: Session, prompts: seq<string>)
    ensures Run(s, prompts).totalPrompts == s.totalPrompts + |prompts|
  {
    ReplayCountsPrompts(s, CuesOfAll(prompts));
  }

  /** A topic's usage grows by exactly the number of prompts with that
      topic; it has an entry afterwards exactly when it had one before or
      some prompt had it as its topic. */
  lemma RunUsage(s: Session, prompts: seq<string>, topic: string)
    ensures UsageOf(Run(s, prompts), topic) == UsageOf(s, topic) + Occurrences(prompts, topic)
    ensures topic in Run(s, prompts).topicStats <==>
      topic in s.topicStats || exists i :: 0 <= i < |prompts| && ServerTopic(prompts[i]) == topic
  {
    var cs := CuesOfAll(prompts);
    ReplayUsage(s, cs, topic);
    ReplayKeys(s, cs, topic);
    if exists i :: 0 <= i < |prompts| && ServerTopic(prompts[i]) == topic {
      var i :| 0 <= i < |prompts| && ServerTopic(prompts[i]) == topic;
      assert cs[i].topic == topic;
    }
  }

  /** Learner mode after a run: on exactly when it was on before or some
      prompt carried a learning signal. */
  lemma RunLatch(s: Session, prompts: seq<string>)
    ensures Run(s, prompts).isLearnerMode <==>
      s.isLearnerMode || exists i :: 0 <= i < |prompts| && HasLearningSignal(prompts[i])
  {
    var cs := CuesOfAll(prompts);
    ReplayLatch(s, cs);
    if exists i :: 0 <= i < |prompts| && HasLearningSignal(prompts[i]) {
      var i :| 0 <= i < |prompts| && HasLearningSignal(prompts[i]);
      assert cs[i].learning;
    }
  }

  /** Once a prompt carries a learning signal, it and every later prompt of
      the run score 0, however the usage grows. */
  lemma LearnerSilencesRest(s: Session, prompts: seq<string>, i: int)
    requires 0 <= i < |prompts| && HasLearningSignal(prompts[i])
    ensures forall j :: i <= j < |prompts| ==> Scores(s, prompts)[j] == 0
  {
    forall j | i <= j < |prompts| ensures Scores(s, prompts)[j] == 0 {
      ScoresAt(s, prompts, j);
      if j > i {
        RunLatch(s, prompts[..j]);
        assert prompts[..j][i] == prompts[i];
      }
    }
  }

  /** The first two prompts of a session score 0, whatever their topics. */
  lemma GracePeriod(s: Session, prompts: seq<string>)
    requires s.totalPrompts == 0
    ensures forall j :: 0 <= j < |prompts| && j < GracePrompts ==> Scores(s, prompts)[j] == 0
  {
    forall j | 0 <= j < |prompts| && j < GracePrompts ensures Scores(s, prompts)[j] == 0 {
      ScoresAt(s, prompts, j);
      RunCountsPrompts(s, prompts[..j]);
    }
  }

  /** After a session reset the first two prompts score 0, even if learner
      mode had latched before. */
  lemma GraceAfterReset(s: Session, prompts: seq<string>)
    ensures forall j :: 0 <= j < |prompts| && j < GracePrompts ==> Scores(ResetSession(s).1, prompts)[j] == 0
  {
    GracePeriod(ResetSession(s).1, prompts);
  }

  /** Every score of a run lies in 0..10. */
  lemma ScoresBounded(s: Session, prompts: seq<string>)
    ensures forall j :: 0 <= j < |prompts| ==> 0 <= Scores(s, prompts)[j] <= MaxScore
  {
    forall j | 0 <= j < |prompts| ensures 0 <= Scores(s, prompts)[j] <= MaxScore {
      ScoresAt(s, prompts, j);
    }
  }

  /* ---------- A worked trace ---------- */

  /** A prompt without capitals and without the letters e, w and h is
      neither conceptual nor a learning signal: every listed word has one
      of them. */
  lemma PlainWithout(p: string)
    requires forall i :: 0 <= i < |p| ==> LowerFixesChar(p[i])
    requires 'e' !in p && 'w' !in p && 'h' !in p
    ensures !IsConceptual(p) && !HasLearningSignal(p)
  {
    LowerFixes(p);
    forall k | 0 <= k < |ConceptualWords| ensures !Contains(p, ConceptualWords[k]) {
      if k == 0 { MissingChar(p, "why", 0); }
      else if k == 1 { MissingChar(p, "how", 0); }
      else if k == 2 { MissingChar(p, "explain", 0); }
      else if k == 3 { MissingChar(p, "derive", 1); }
      else if k == 4 { MissingChar(p, "reason", 1); }
      else if k == 5 { MissingChar(p, "prove", 4); }
      else { MissingChar(p, "difference", 4); }
    }
    forall k | 0 <= k < |LearningSignals| ensures !Contains(p, LearningSignals[k]) {
      if k == 0 { MissingChar(p, "i am new", 6); }
      else if k == 1 { MissingChar(p, "beginner", 1); }
      else if k == 2 { MissingChar(p, "learning", 1); }
      else if k == 3 { MissingChar(p, "first time", 9); }
      else if k == 4 { MissingChar(p, "trying to learn", 11); }
      else if k == 5 { MissingChar(p, "learner", 1); }
      else if k == 6 { MissingChar(p, "new to", 1); }
      else { MissingChar(p, "new at", 1); }
    }
  }

  /** "galaxy" is neither conceptual nor a learning signal. */
  lemma GalaxyPlain()
    ensures !IsConceptual("galaxy") && !HasLearningSignal("galaxy")
  {
    PlainWithout("galaxy");
  }

  /** Asking the same plain question three times in a fresh session: the
      first two prompts are in the grace period, the third scores the
      topic's usage, 3. */
  lemma ThreeRepeats(p: string)
    requires !HasLearningSignal(p) && !IsConceptual(p)
    ensures Scores(Start, [p, p, p]) == [0, 0, 3]
  {
    ThreeRepeatedCues(CuesOf(p));
    CuesOfThree(p);
  }

  lemma CuesOfThree(p: string)
    ensures CuesOfAll([p, p, p]) == [CuesOf(p), CuesOf(p), CuesOf(p)]
  {
    var ps := [p, p, p];
    var cs := CuesOfAll(ps);
    assert ps[0] == p && ps[1] == p && ps[2] == p;
    ThreeAlike(cs, CuesOf(p));
  }

  /** Three equal cues form the run of three. */
  lemma ThreeAlike(cs: seq<Cues>, c: Cues)
    requires |cs| == 3 && cs[0] == c && cs[1] == c && cs[2] == c
    ensures cs == [c, c, c]
  {
  }

  lemma ThreeRepeatedCues(c: Cues)
    requires !c.learning && !c.conceptual
    ensures ReplayScores(Start, [c, c, c]) == [0, 0, 3]
  {
    var s1 := Advance(Start, c).0;
    var s2 := Advance(s1, c).0;
    assert [c, c, c][..2] == [c, c] && [c, c][..1] == [c] && [c][..0] == [];
    assert Replay(Start, [c]) == s1;
    assert Replay(Start, [c, c]) == s2;
    assert ReplayScores(Start, [c]) == [0];
    assert ReplayScores(Start, [c, c]) == [0, 0];
    assert UsageOf(s2, c.topic) == 2 && s2.totalPrompts == 2;
  }

  /** The trace "galaxy", "galaxy", "galaxy" scores 0, 0, 3. */
  lemma GalaxyThreeTimes()
    ensures Scores(Start, ["galaxy", "galaxy", "galaxy"]) == [0, 0, 3]
  {
    GalaxyPlain();
    ThreeRepeats("galaxy");
  }
}
