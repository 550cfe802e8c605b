/**
 The client fallback copy of the heuristic (extension/popup.js): the same
 scoring over a persisted topic-count map, with a merge step that folds
 older keys related to the prompt's topic into it before counting, the
 "try myself" reset, and the choice between the backend's score and the
 local one.
 */
module Client {
  import opened Text
  import opened Topic
  import opened Scoring
  import opened Tally

  /** The client's conceptual words: the server's list without "difference". */
  const ConceptualWords: seq<string> := ["why", "how", "explain", "derive", "reason", "prove"]

  /** The client's learning signals: the server's list without "i am new". */
  const LearningSignals: seq<string> :=
    ["beginner", "learner", "new to", "new at", "learning", "first time", "trying to learn"]

  /** `isConceptual(text)`. */
  predicate IsConceptual(text: string)
  {
    ContainsAny(Lower(text), ConceptualWords)
  }

  /** The learning-signal test of `computeDependency`. */
  predicate HasLearningSignal(prompt: string)
  {
    ContainsAny(Lower(prompt), LearningSignals)
  }

  /** Both tests ignore case: a prompt and its lower case agree on them. */
  lemma CuesIgnoreCase(prompt: string)
    ensures IsConceptual(Lower(prompt)) <==> IsConceptual(prompt)
    ensures HasLearningSignal(Lower(prompt)) <==> HasLearningSignal(prompt)
  {
    LowerIdempotent(prompt);
  }

  /** Both tests look for substrings: a prompt that passes one still passes
      it with any text around it. */
  lemma CuesInContext(a: string, prompt: string, b: string)
    ensures IsConceptual(prompt) ==> IsConceptual(a + prompt + b)
    ensures HasLearningSignal(prompt) ==> HasLearningSignal(a + prompt + b)
  {
    if IsConceptual(prompt) {
      ContainsAnyWithin(a, prompt, b, ConceptualWords);
    }
    if HasLearningSignal(prompt) {
      ContainsAnyWithin(a, prompt, b, LearningSignals);
    }
  }

  /** The popup's state: the stored topic map, and two counters that start
      afresh whenever the popup opens. */
  datatype ClientState = ClientState(topicMap: map<string, int>, isLearnerMode: bool, totalPrompts: nat)

  /** The state when the popup opens over a stored map. */
  function Open(stored: map<string, int>): ClientState
  {
    ClientState(stored, false, 0)
  }

  /* ---------- The legacy-key merge ---------- */

  /** The merge test for another stored key `e`: it contains the topic, is
      contained in it, or has it as an `_`-separated component. */
  predicate Absorbs(key: string, e: string)
  {
    e != key && (Contains(e, key) || Contains(key, e) || key in SplitOn(e, '_'))
  }

  /** The component test adds nothing: a component of `e` occurs in `e`. */
  lemma ComponentClauseRedundant(key: string, e: string)
    ensures Absorbs(key, e) <==> e != key && (Contains(e, key) || Contains(key, e))
  {
    var parts := SplitOn(e, '_');
    if key in parts {
      SplitPartsContained(e, '_');
      var k :| 0 <= k < |parts| && parts[k] == key;
    }
  }

  /** The stored keys the merge removes. */
  function Absorbed(m: map<string, int>, key: string): set<string>
  {
    set e | e in m && Absorbs(key, e)
  }

  /** The merge as a reference definition: when the topic's count is absent
      or 0 and some other key is absorbed, the absorbed keys are removed and
      their counts added to the topic's; otherwise nothing changes. */
  ghost function Merged(m: map<string, int>, key: string): (r: map<string, int>)
    ensures Get(m, key) != 0 ==> r == m
    ensures forall e :: e in r && e != key ==> e in m && r[e] == m[e]
    ensures forall e :: e in m && e != key ==> (e in r <==> Get(m, key) != 0 || !Absorbs(key, e))
    ensures Get(m, key) == 0 ==> Get(r, key) == TotalOf(m, Absorbed(m, key))
    ensures key in m ==> key in r
    ensures Total(r) == Total(m)
    ensures AllAtLeast(m, 0) ==> AllAtLeast(r, 0)
  {
    var gone := Absorbed(m, key);
    if Get(m, key) != 0 then m
    else if gone == {} then
      assert forall e :: e in m && Absorbs(key, e) ==> e in gone;
      assert m.Keys * gone == {};
      m
    else
      var r := (m - gone)[key := Get(m, key) + TotalOf(m, gone)];
      TotalRemoveKeys(m, gone);
      TotalUpdate(m - gone, key, Get(m, key) + TotalOf(m, gone));
      SumOverNonNegativeIf(m, gone);
      r
  }

  /** The absorbed counts sum to at least 0 when no count is negative. */
  lemma SumOverNonNegativeIf(m: map<string, int>, gone: set<string>)
    ensures AllAtLeast(m, 0) ==> TotalOf(m, gone) >= 0
  {
    if AllAtLeast(m, 0) {
      SumOverNonNegative(m, m.Keys * gone);
    }
  }

  /** The merge loop of `computeDependency`: scan the stored keys, collect
      the absorbed ones and their counts, then delete them and credit their
      counts to the topic. */
  method MergeLegacyKeys(m: map<string, int>, key: string) returns (r: map<string, int>)
    ensures r == Merged(m, key)
    ensures Total(r) == Total(m)
  {
    if Get(m, key) != 0 {
      return m;
    }
    var merged := 0;
    var toDelete: set<string> := {};
    var rest := m.Keys;
    while rest != {}
      invariant rest <= m.Keys
      invariant forall e :: e in toDelete <==> e in m && e !in rest && Absorbs(key, e)
      invariant merged == TotalOf(m, toDelete)
      decreases rest
    {
      var e :| e in rest;
      if Absorbs(key, e) {
        TotalOfAdd(m, toDelete, e);
        merged := merged + m[e];
        toDelete := toDelete + {e};
      }
      rest := rest - {e};
    }
    assert toDelete == Absorbed(m, key);
    if toDelete != {} {
      r := (m - toDelete)[key := Get(m, key) + merged];
    } else {
      r := m;
    }
  }

  /* ---------- One prompt ---------- */

  function CuesOf(prompt: string): Cues
  {
    Cues(ClientTopic(prompt), HasLearningSignal(prompt), IsConceptual(prompt))
  }

  /** The state update and score of `computeDependency` for a prompt with
      the given cues: merge, count the use, then score. */
  ghost function Advance(st: ClientState, c: Cues): (out: (ClientState, int))
    ensures out.0.totalPrompts == st.totalPrompts + 1
    ensures out.0.isLearnerMode <==> st.isLearnerMode || c.learning
    ensures c.topic in out.0.topicMap && out.0.topicMap[c.topic] == Get(Merged(st.topicMap, c.topic), c.topic) + 1
    ensures forall e :: e in out.0.topicMap && e != c.topic ==> e in st.topicMap && out.0.topicMap[e] == st.topicMap[e]
    ensures forall e :: e in st.topicMap && e != c.topic ==>
      (e in out.0.topicMap <==> Get(st.topicMap, c.topic) != 0 || !Absorbs(c.topic, e))
    ensures Total(out.0.topicMap) == Total(st.topicMap) + 1
    ensures out.1 == DependencyScore(out.0.isLearnerMode, out.0.totalPrompts, out.0.topicMap[c.topic], c.conceptual)
    ensures AllAtLeast(st.topicMap, 0) ==> AllAtLeast(out.0.topicMap, 0) && 0 <= out.1 <= MaxScore
  {
    var m := Merged(st.topicMap, c.topic);
    var count := Get(m, c.topic) + 1;
    var learner := st.isLearnerMode || c.learning;
    var total := st.totalPrompts + 1;
    TotalUpdate(m, c.topic, count);
    (ClientState(m[c.topic := count], learner, total), DependencyScore(learner, total, count, c.conceptual))
  }

  /** The work of `computeDependency` for a prompt with the given cues. */
  method CountUse(st: ClientState, c: Cues) returns (st': ClientState, score: int)
    ensures (st', score) == Advance(st, c)
  {
    var learner := st.isLearnerMode || c.learning;
    var m := MergeLegacyKeys(st.topicMap, c.topic);
    var count := Get(m, c.topic) + 1;
    m := m[c.topic := count];
    var total := st.totalPrompts + 1;
    var raw := if learner then 0
               else if total <= GracePrompts then 0
               else count + (if c.conceptual then ConceptualBonus else 0);
    score := Min(raw, MaxScore);
    st' := ClientState(m, learner, total);
  }

  /** `computeDependency(prompt)`: the new state and the score. The stored
      counts grow by exactly one in total; the score follows the shared
      precedence over the topic's merged, incremented count. */
  method ComputeDependency(st: ClientState, prompt: string) returns (st': ClientState, score: int)
    ensures (st', score) == Advance(st, CuesOf(prompt))
    ensures st'.totalPrompts == st.totalPrompts + 1
    ensures st'.isLearnerMode <==> st.isLearnerMode || HasLearningSignal(prompt)
    ensures Total(st'.topicMap) == Total(st.topicMap) + 1
    ensures AllAtLeast(st.topicMap, 0) ==> 0 <= score <= MaxScore
    ensures st'.isLearnerMode || st'.totalPrompts <= GracePrompts ==> score == 0
  {
    st', score := CountUse(st, CuesOf(prompt));
  }

  /* ---------- "I'll try myself" ---------- */

  /** `if (map[topic]) delete map[topic]`: the entry goes when its count is
      non-zero; a zero entry stays. */
  function Forget(m: map<string, int>, topic: string): (r: map<string, int>)
    ensures Get(r, topic) == 0
    ensures forall t :: t != topic ==> (t in r <==> t in m) && (t in r ==> r[t] == m[t])
    ensures topic in r ==> topic in m && m[topic] == 0
    ensures Total(r) == Total(m) - Get(m, topic)
  {
    if Get(m, topic) != 0 then
      TotalRemoveKeys(m, {topic});
      assert m.Keys * {topic} == {topic};
      SumOverRemove(m, {topic}, topic);
      assert {topic} - {topic} == {};
      m - {topic}
    else
      m
  }

  /** The client part of the "try myself" path: the prompt's topic entry is
      deleted when its count is non-zero, learner mode is cleared and the
      prompt count restarts. */
  function TryMyself(st: ClientState, prompt: string): (st': ClientState)
    ensures !st'.isLearnerMode && st'.totalPrompts == 0
    ensures Get(st'.topicMap, ClientTopic(prompt)) == 0
    ensures forall t :: t != ClientTopic(prompt) ==>
      (t in st'.topicMap <==> t in st.topicMap) && (t in st'.topicMap ==> st'.topicMap[t] == st.topicMap[t])
    ensures Total(st'.topicMap) == Total(st.topicMap) - Get(st.topicMap, ClientTopic(prompt))
  {
    ClientState(Forget(st.topicMap, ClientTopic(prompt)), false, 0)
  }

  /* ---------- Choosing the score ---------- */

  /** What the background relay hands back: nothing (an error or no
      response), or the backend's answer and score. */
  datatype BackendReply = NoResponse | Response(answer: string, dependency: int)

  /** The callback of `sendPrompt`: the backend's score when it is non-zero,
      otherwise the local one, which also updates the local state. */
  method HandleReply(st: ClientState, prompt: string, reply: BackendReply)
    returns (st': ClientState, score: int, answer: string)
    ensures reply.Response? && reply.dependency != 0 ==> st' == st && score == reply.dependency
    ensures !(reply.Response? && reply.dependency != 0) ==> (st', score) == Advance(st, CuesOf(prompt))
    ensures reply.NoResponse? ==> answer == "Simulated response for: " + prompt
    ensures reply.Response? ==> answer == (if reply.answer != "" then reply.answer else "No reply")
  {
    match reply {
      case NoResponse =>
        st', score := ComputeDependency(st, prompt);
        answer := "Simulated response for: " + prompt;
      case Response(text, dependency) =>
        answer := if text != "" then text else "No reply";
        if dependency != 0 {
          st', score := st, dependency;
        } else {
          st', score := ComputeDependency(st, prompt);
        }
    }
  }

  /* ---------- Which prompts are plain ---------- */

  /** A prompt without capitals and without the letters e, w and h is
      neither conceptual nor a learning signal. */
  lemma PlainWithout(p: string)
    requires forall i :: 0 <= i < |p| ==> LowerFixesChar(p[i])
    requires 'e' !in p && 'w' !in p && 'h' !in p
    ensures !IsConceptual(p) && !HasLearningSignal(p)
  {
    LowerFixes(p);
    forall k | 0 <= k < |ConceptualWords| ensures !Contains(p, ConceptualWords[k]) {
      if k == 0 { MissingChar(p, "why", 0); }
      else if k == 1 { MissingChar(p, "how", 0); }
      else if k == 2 { MissingChar(p, "explain", 0); }
      else if k == 3 { MissingChar(p, "derive", 1); }
      else if k == 4 { MissingChar(p, "reason", 1); }
      else { MissingChar(p, "prove", 4); }
    }
    forall k | 0 <= k < |LearningSignals| ensures !Contains(p, LearningSignals[k]) {
      if k == 0 { MissingChar(p, "beginner", 1); }
      else if k == 1 { MissingChar(p, "learner", 1); }
      else if k == 2 { MissingChar(p, "new to", 1); }
      else if k == 3 { MissingChar(p, "new at", 1); }
      else if k == 4 { MissingChar(p, "learning", 1); }
      else if k == 5 { MissingChar(p, "first time", 9); }
      else { MissingChar(p, "trying to learn", 11); }
    }
  }

  /** A prompt without capitals and without w, h, x, v, a and p is not
      conceptual for the client. */
  lemma NotConceptualWithout(p: string)
    requires forall i :: 0 <= i < |p| ==> LowerFixesChar(p[i])
    requires 'w' !in p && 'h' !in p && 'x' !in p && 'v' !in p && 'a' !in p && 'p' !in p
    ensures !IsConceptual(p)
  {
    LowerFixes(p);
    forall k | 0 <= k < |ConceptualWords| ensures !Contains(p, ConceptualWords[k]) {
      if k == 0 { MissingChar(p, "why", 0); }
      else if k == 1 { MissingChar(p, "how", 0); }
      else if k == 2 { MissingChar(p, "explain", 1); }
      else if k == 3 { MissingChar(p, "derive", 4); }
      else if k == 4 { MissingChar(p, "reason", 2); }
      else { MissingChar(p, "prove", 0); }
    }
  }

  /** A prompt without capitals and without b, l, t and f carries no
      learning signal for the client. */
  lemma NoSignalWithout(p: string)
    requires forall i :: 0 <= i < |p| ==> LowerFixesChar(p[i])
    requires 'b' !in p && 'l' !in p && 't' !in p && 'f' !in p
    ensures !HasLearningSignal(p)
  {
    LowerFixes(p);
    forall k | 0 <= k < |LearningSignals| ensures !Contains(p, LearningSignals[k]) {
      if k == 0 { MissingChar(p, "beginner", 0); }
      else if k == 1 { MissingChar(p, "learner", 0); }
      else if k == 2 { MissingChar(p, "new to", 4); }
      else if k == 3 { MissingChar(p, "new at", 5); }
      else if k == 4 { MissingChar(p, "learning", 0); }
      else if k == 5 { MissingChar(p, "first time", 0); }
      else { MissingChar(p, "trying to learn", 0); }
    }
  }

  /* ---------- Merge properties ---------- */

  /** Merging twice is merging once: what is left absorbs nothing more. */
  lemma MergeIdempotent(m: map<string, int>, key: string)
    ensures Merged(Merged(m, key), key) == Merged(m, key)
  {
    var r := Merged(m, key);
    if Get(r, key) == 0 {
      forall e | e in r ensures !Absorbs(key, e) {
        if e != key {
          assert e in m;
        }
      }
      assert Absorbed(r, key) == {};
    }
  }

  /** A stored key that contains the topic, or lies inside it, is folded in
      when the topic has no count yet: it disappears, and with no negative
      counts the topic ends up with at least its count. */
  lemma MergeFoldsRelatedKey(m: map<string, int>, key: string, e: string)
    requires e in m && e != key && (Contains(e, key) || Contains(key, e))
    requires Get(m, key) == 0 && AllAtLeast(m, 0)
    ensures e !in Merged(m, key)
    ensures Get(Merged(m, key), key) >= m[e]
  {
    var gone := Absorbed(m, key);
    assert e in gone;
    TotalOfAdd(m, gone - {e}, e);
    assert gone - {e} + {e} == gone;
    SumOverNonNegativeIf(m, gone - {e});
  }

  /* ---------- Runs of prompts ---------- */

  /** The state after prompts with the given cues, in order. */
  ghost function Replay(st: ClientState, cs: seq<Cues>): ClientState
    decreases |cs|
  {
    if |cs| == 0 then st
    else Advance(Replay(st, cs[..|cs| - 1]), cs[|cs| - 1]).0
  }

  /** The local scores of prompts with the given cues, in order. */
  ghost function ReplayScores(st: ClientState, cs: seq<Cues>): (scores: seq<int>)
    ensures |scores| == |cs|
    decreases |cs|
  {
    if |cs| == 0 then []
    else
      var before := cs[..|cs| - 1];
      ReplayScores(st, before) + [Advance(Replay(st, before), cs[|cs| - 1]).1]
  }

  /** Prompt `j` is scored in the state the earlier prompts left. */
  lemma {:induction false} ReplayScoresAt(st: ClientState, cs: seq<Cues>, j: int)
    requires 0 <= j < |cs|
    ensures ReplayScores(st, cs)[j] == Advance(Replay(st, cs[..j]), cs[j]).1
    decreases |cs|
  {
    var n := |cs| - 1;
    var before := cs[..n];
    if j < n {
      assert before[..j] == cs[..j];
      ReplayScoresAt(st, before, j);
    } else {
      assert before == cs[..j];
    }
  }

  /** Over a run the stored counts grow by exactly the number of prompts,
      the prompt total likewise, and no count turns negative. */
  lemma {:induction false} ReplayCountsUses(st: ClientState, cs: seq<Cues>)
    ensures Total(Replay(st, cs).topicMap) == Total(st.topicMap) + |cs|
    ensures Replay(st, cs).totalPrompts == st.totalPrompts + |cs|
    ensures AllAtLeast(st.topicMap, 0) ==> AllAtLeast(Replay(st, cs).topicMap, 0)
    decreases |cs|
  {
    if |cs| > 0 {
      ReplayCountsUses(st, cs[..|cs| - 1]);
    }
  }

  /** Learner mode latches for as long as the popup stays open. */
  lemma {:induction false} ReplayLatch(st: ClientState, cs: seq<Cues>)
    ensures Replay(st, cs).isLearnerMode <==>
      st.isLearnerMode || exists i :: 0 <= i < |cs| && cs[i].learning
    decreases |cs|
  {
    if |cs| > 0 {
      ReplayLatch(st, cs[..|cs| - 1]);
      AnyLearningLast(cs);
    }
  }

  /** Once a prompt carries a learning signal, it and every later local
      score of the run is 0. */
  lemma LearnerSilencesRest(st: ClientState, cs: seq<Cues>, i: int)
    requires 0 <= i < |cs| && cs[i].learning
    ensures forall j :: i <= j < |cs| ==> ReplayScores(st, cs)[j] == 0
  {
    forall j | i <= j < |cs| ensures ReplayScores(st, cs)[j] == 0 {
      ReplayScoresAt(st, cs, j);
      if j > i {
        ReplayLatch(st, cs[..j]);
        assert cs[..j][i] == cs[i];
      }
    }
  }

  /** The first two local scores after the prompt count restarts are 0. */
  lemma GracePeriod(st: ClientState, cs: seq<Cues>)
    requires st.totalPrompts == 0
    ensures forall j :: 0 <= j < |cs| && j < GracePrompts ==> ReplayScores(st, cs)[j] == 0
  {
    forall j | 0 <= j < |cs| && j < GracePrompts ensures ReplayScores(st, cs)[j] == 0 {
      ReplayScoresAt(st, cs, j);
      ReplayCountsUses(st, cs[..j]);
    }
  }

  /** Each time the popup opens, its first two local scores are 0, whatever
      the stored map holds. */
  lemma GraceOnOpen(stored: map<string, int>, cs: seq<Cues>)
    ensures forall j :: 0 <= j < |cs| && j < GracePrompts ==> ReplayScores(Open(stored), cs)[j] == 0
  {
    GracePeriod(Open(stored), cs);
  }

  /** After "try myself" the next two local scores are 0, whatever had
      latched before. */
  lemma GraceAfterTryMyself(st: ClientState, prompt: string, cs: seq<Cues>)
    ensures forall j :: 0 <= j < |cs| && j < GracePrompts ==> ReplayScores(TryMyself(st, prompt), cs)[j] == 0
  {
    GracePeriod(TryMyself(st, prompt), cs);
  }

  /** With no negative stored count, every local score lies in 0..10. */
  lemma ScoresBounded(st: ClientState, cs: seq<Cues>)
    requires AllAtLeast(st.topicMap, 0)
    ensures forall j :: 0 <= j < |cs| ==> 0 <= ReplayScores(st, cs)[j] <= MaxScore
  {
    forall j | 0 <= j < |cs| ensures 0 <= ReplayScores(st, cs)[j] <= MaxScore {
      ReplayScoresAt(st, cs, j);
      ReplayCountsUses(st, cs[..j]);
    }
  }
}
