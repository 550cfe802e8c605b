/**
 How the two copies relate. They share the stop words, the scoring
 precedence and the message bands; they differ in how they split a prompt,
 in one conceptual word, in one learning signal and in one apostrophe. The
 popup also talks to the server: it takes the server's score unless that
 score is 0, and its "try myself" path resets the server's topic and
 session.
 */
module CrossCopy {
  import opened Text
  import opened Topic
  import opened Scoring
  import opened Tally
  import Server
  import Client

  /* ---------- Where extraction differs ---------- */

  /** Lower-case letters joined by a tab: both copies' normalisation keeps
      the text as it is. */
  predicate TabJoined(a: string, b: string)
  {
    && (forall i :: 0 <= i < |a| ==> 'a' <= a[i] <= 'z')
    && (forall i :: 0 <= i < |b| ==> 'a' <= b[i] <= 'z')
  }

  /** The server, splitting at plain spaces only, keeps a tab-joined text
      as one token; being longer than any stop word, it is its own topic. */
  lemma ServerTabTopic(a: string, b: string)
    requires TabJoined(a, b) && |a| + |b| >= 9
    ensures ServerTopic(a + ['\t'] + b) == a + ['\t'] + b
  {
    var p := a + ['\t'] + b;
    NormalizeFixes(p);
    assert forall i :: 0 <= i < |p| ==> p[i] != ' ';
    SplitOnWithout(p, ' ');
    assert ServerTokens(p) == [p];
    if IsStopWord(p) {
      StopWordsAreShort(p);
    }
    assert [p][1..] == [];
    assert Keywords([p]) == [p];
    assert SortByLength([p]) == [p];
  }

  /** The client splits a tab-joined text at the tab. */
  lemma ClientTabTokens(a: string, b: string)
    requires TabJoined(a, b) && |b| > 0
    ensures ClientTokens(a + ['\t'] + b) == [a, b]
  {
    var p := a + ['\t'] + b;
    NormalizeFixes(p);
    SplitOnSpaceRunsWithout(b);
    SplitOnSpaceRunsCons(a, '\t', b);
  }

  /** Of two tab-joined keywords the client takes the longer one. */
  lemma ClientTabTopic(a: string, b: string)
    requires TabJoined(a, b) && IsKeyword(a) && IsKeyword(b) && |a| < |b|
    ensures ClientTopic(a + ['\t'] + b) == b
  {
    ClientTabTokens(a, b);
    assert [a, b][1..] == [b] && [b][1..] == [];
    assert Keywords([a, b]) == [a, b];
    assert SortByLength([b]) == [b];
    assert SortByLength([a, b]) == InsertByLength(a, [b]);
  }

  /** Two lower-case keywords joined by a tab ("dark\tmatter"): the server
      makes the whole text the topic, the client the longer word. */
  lemma TabSeparatedTopics(a: string, b: string)
    requires TabJoined(a, b) && IsKeyword(a) && IsKeyword(b) && |a| < |b| && |a| + |b| >= 9
    ensures ServerTopic(a + ['\t'] + b) == a + ['\t'] + b
    ensures ClientTopic(a + ['\t'] + b) == b
  {
    ServerTabTopic(a, b);
    ClientTabTopic(a, b);
  }

  /** A listed word written in characters lower-casing leaves alone is
      conceptual for the server. */
  lemma ServerListedIsConceptual(w: string)
    requires forall i :: 0 <= i < |w| ==> LowerFixesChar(w[i])
    requires w in Server.ConceptualWords
    ensures Server.IsConceptual(w)
  {
    ListedWordFound(w, Server.ConceptualWords);
  }

  /** A listed phrase written in characters lower-casing leaves alone is a
      learning signal for the server. */
  lemma ServerListedIsSignal(w: string)
    requires forall i :: 0 <= i < |w| ==> LowerFixesChar(w[i])
    requires w in Server.LearningSignals
    ensures Server.HasLearningSignal(w)
  {
    ListedWordFound(w, Server.LearningSignals);
  }

  /** "difference" is conceptual for the server only. */
  lemma DifferenceConceptualOnServerOnly()
    ensures Server.IsConceptual("difference")
    ensures !Client.IsConceptual("difference")
  {
    DifferenceOnServer();
    DifferenceNotOnClient();
  }

  lemma DifferenceOnServer()
    ensures Server.IsConceptual("difference")
  {
    ServerListedIsConceptual("difference");
  }

  lemma DifferenceNotOnClient()
    ensures !Client.IsConceptual("difference")
  {
    Client.NotConceptualWithout("difference");
  }

  /** "i am new" is a learning signal for the server only. */
  lemma IAmNewSignalOnServerOnly()
    ensures Server.HasLearningSignal("i am new")
    ensures !Client.HasLearningSignal("i am new")
  {
    IAmNewOnServer();
    IAmNewNotOnClient();
  }

  lemma IAmNewOnServer()
    ensures Server.HasLearningSignal("i am new")
  {
    ServerListedIsSignal("i am new");
  }

  lemma IAmNewNotOnClient()
    ensures !Client.HasLearningSignal("i am new")
  {
    Client.NoSignalWithout("i am new");
  }

  /** Both copies score with the same precedence: the same learner flag,
      prompt total, count (after the popup's merge of related keys) and
      cues give the same score. */
  lemma SameCuesSameScore(s: Server.Session, st: Client.ClientState, c: Cues)
    requires s.isLearnerMode == st.isLearnerMode && s.totalPrompts == st.totalPrompts
    requires Server.UsageOf(s, c.topic) == Get(Client.Merged(st.topicMap, c.topic), c.topic)
    ensures Server.Advance(s, c).1 == Client.Advance(st, c).1
  {
  }

  /* ---------- The score the popup shows ---------- */

  /** A score of 0 from the server is replaced by the popup's own: when the
      server is in learner mode but the popup is not, past its grace period,
      the popup shows a positive score for the prompt the server silenced. */
  lemma ServerZeroOverridden(s: Server.Session, st: Client.ClientState, prompt: string, answer: string)
    requires s.isLearnerMode
    requires !st.isLearnerMode && st.totalPrompts >= GracePrompts && AllAtLeast(st.topicMap, 0)
    requires !Client.HasLearningSignal(prompt)
    ensures Server.Respond(s, prompt, answer).1.dependency == 0
    ensures Client.Advance(st, Client.CuesOf(prompt)).1 >= 1
  {
    var c := Client.CuesOf(prompt);
    var m := Client.Merged(st.topicMap, c.topic);
    if Get(st.topicMap, c.topic) == 0 {
      Client.SumOverNonNegativeIf(st.topicMap, Client.Absorbed(st.topicMap, c.topic));
    }
    assert Get(m, c.topic) >= 0;
  }

  /* ---------- "I'll try myself" on both sides ---------- */

  /** The server side of "try myself": reset the topic the popup extracted
      (`ClientTopic` of the prompt), then the session. */
  function ServerTryMyself(s: Server.Session, topic: string): (s': Server.Session)
    ensures !s'.isLearnerMode && s'.totalPrompts == 0
    ensures topic != "" ==> topic !in s'.topicStats
    ensures forall t :: t != topic ==> (t in s'.topicStats <==> t in s.topicStats)
    ensures forall t :: t in s'.topicStats ==> t in s.topicStats && s'.topicStats[t] == s.topicStats[t]
  {
    Server.ResetSession(Server.ResetTopic(s, topic).1).1
  }

  /** For a prompt whose only whitespace is the plain space, "try myself"
      clears the prompt's topic on both sides, and both sides start a new
      grace period. */
  lemma TryMyselfInStep(s: Server.Session, st: Client.ClientState, prompt: string)
    requires OnlyPlainSpaces(prompt)
    ensures Server.UsageOf(ServerTryMyself(s, ClientTopic(prompt)), ServerTopic(prompt)) == 0
    ensures Get(Client.TryMyself(st, prompt).topicMap, ServerTopic(prompt)) == 0
    ensures ServerTryMyself(s, ClientTopic(prompt)).totalPrompts == 0 && Client.TryMyself(st, prompt).totalPrompts == 0
  {
    TopicsAgreeOnPlainSpaces(prompt);
  }

  /** For a tab-separated prompt the popup resets a topic the server never
      counted: the server's own entry for the prompt survives. */
  lemma TryMyselfMissesTabTopic(s: Server.Session, a: string, b: string)
    requires TabJoined(a, b) && IsKeyword(a) && IsKeyword(b) && |a| < |b| && |a| + |b| >= 9
    requires a + ['\t'] + b in s.topicStats
    ensures a + ['\t'] + b in ServerTryMyself(s, ClientTopic(a + ['\t'] + b)).topicStats
  {
    TabSeparatedTopics(a, b);
    assert b != a + ['\t'] + b;
  }
}
