/**
 Topic extraction: the single keyword a prompt is counted under. Both copies
 lower-case the prompt, strip punctuation, split it into tokens, keep the
 tokens longer than two characters that are not stop words, and pick the
 longest survivor after a stable sort by descending length, falling back to
 "general" when nothing survives. They differ only in how they split.
 */
module Topic {
  import opened Text

  /** The fallback topic. */
  const General: string := "general"

  /** `stopWords.has(w)`, the stop-word set shared by both copies, one
      disjunct per line of the original list. */
  predicate IsStopWord(w: string)
  {
    || w in {"what", "why", "how", "when", "where", "who", "which", "whom", "whose"}
    || w in {"is", "are", "am", "was", "were", "be", "been", "being"}
    || w in {"the", "a", "an", "and", "or", "but", "in", "on", "at", "to", "for", "of", "with", "by"}
    || w in {"that", "this", "these", "those", "there", "here", "it", "its", "they", "them", "their"}
    || w in {"can", "could", "will", "would", "should", "may", "might", "must", "do", "does", "did"}
    || w in {"have", "has", "had", "need", "make", "know", "think", "want", "like", "give", "find"}
    || w in {"from", "up", "about", "into", "through", "during", "including", "use", "as", "per", "so", "then"}
    || w in {"such", "if", "then", "some", "any", "all", "each", "every", "both", "few", "more", "most", "other"}
    || w in {"just", "only", "very", "too", "much", "many", "well", "also", "not", "no", "yes"}
  }

  /** A token that survives the filter. */
  predicate IsKeyword(w: string)
  {
    |w| > 2 && !IsStopWord(w)
  }

  /** `tokens.filter(w => w.length > 2 && !stopWords.has(w))`: the surviving
      tokens in their original order. */
  function Keywords(tokens: seq<string>): (ks: seq<string>)
    ensures forall k :: 0 <= k < |ks| ==> IsKeyword(ks[k])
    ensures forall w :: w in ks <==> w in tokens && IsKeyword(w)
    ensures |ks| <= |tokens|
  {
    if |tokens| == 0 then []
    else (if IsKeyword(tokens[0]) then [tokens[0]] else []) + Keywords(tokens[1..])
  }

  /** No keyword survives exactly when every token is short or a stop word. */
  lemma NoKeywordsIff(tokens: seq<string>)
    ensures |Keywords(tokens)| == 0 <==> forall k :: 0 <= k < |tokens| ==> !IsKeyword(tokens[k])
  {
    var ks := Keywords(tokens);
    if |ks| > 0 {
      assert ks[0] in ks;
    }
    if k :| 0 <= k < |tokens| && IsKeyword(tokens[k]) {
      assert tokens[k] in tokens;
    }
  }

  /** Empty tokens never survive, so dropping them first changes nothing. */
  lemma {:induction false} KeywordsIgnoreEmpty(tokens: seq<string>)
    ensures Keywords(DropEmpty(tokens)) == Keywords(tokens)
  {
    if |tokens| > 0 {
      KeywordsIgnoreEmpty(tokens[1..]);
      if tokens[0] != "" {
        assert ([tokens[0]] + DropEmpty(tokens[1..]))[1..] == DropEmpty(tokens[1..]);
      }
    }
  }

  /** The filter keeps the surviving tokens in order and with their
      repetitions: filtering a concatenation concatenates the filtered
      halves. */
  lemma {:induction false} KeywordsAppend(a: seq<string>, b: seq<string>)
    ensures Keywords(a + b) == Keywords(a) + Keywords(b)
  {
    if |a| == 0 {
      assert a + b == b;
    } else {
      var t := a + b;
      assert t[0] == a[0] && t[1..] == a[1..] + b;
      calc {
        Keywords(t);
        (if IsKeyword(a[0]) then [a[0]] else []) + Keywords(a[1..] + b);
        { KeywordsAppend(a[1..], b); }
        (if IsKeyword(a[0]) then [a[0]] else []) + (Keywords(a[1..]) + Keywords(b));
        ((if IsKeyword(a[0]) then [a[0]] else []) + Keywords(a[1..])) + Keywords(b);
        Keywords(a) + Keywords(b);
      }
    }
  }

  /* ---------- The stable length sort ---------- */

  /** Each word is at least as long as the one after it. */
  predicate DescendingByLength(ws: seq<string>)
  {
    forall i :: 0 < i < |ws| ==> |ws[i - 1]| >= |ws[i]|
  }

  /** Insert `w` in front of the first word that is not longer than it, so
      that `w` precedes the words of equal length (it came first). */
  function InsertByLength(w: string, ws: seq<string>): (r: seq<string>)
    ensures multiset(r) == multiset(ws) + multiset{w}
    ensures |r| == |ws| + 1
    ensures r[0] == w || (|ws| > 0 && r[0] == ws[0])
    ensures DescendingByLength(ws) ==> DescendingByLength(r)
  {
    if |ws| == 0 || |ws[0]| <= |w| then [w] + ws
    else
      assert ws == [ws[0]] + ws[1..];
      [ws[0]] + InsertByLength(w, ws[1..])
  }

  /** `keywords.sort((a, b) => b.length - a.length)`, a stable sort: longer
      words first, equal lengths in their original order. */
  function SortByLength(ws: seq<string>): (r: seq<string>)
    ensures multiset(r) == multiset(ws)
    ensures DescendingByLength(r)
    ensures |r| == |ws|
  {
    if |ws| == 0 then []
    else
      assert ws == [ws[0]] + ws[1..];
      InsertByLength(ws[0], SortByLength(ws[1..]))
  }

  /** `ws[i]` is the first word of maximal length. */
  predicate IsFirstLongest(ws: seq<string>, i: int)
  {
    && 0 <= i < |ws|
    && (forall j :: 0 <= j < |ws| ==> |ws[j]| <= |ws[i]|)
    && (forall j :: 0 <= j < i ==> |ws[j]| < |ws[i]|)
  }

  /** The head of the stable sort is the first word of maximal length. */
  lemma {:induction false} SortHeadIsFirstLongest(ws: seq<string>)
    requires |ws| > 0
    ensures exists i :: IsFirstLongest(ws, i) && SortByLength(ws)[0] == ws[i]
  {
    if |ws| == 1 {
      assert IsFirstLongest(ws, 0);
    } else {
      var tail := ws[1..];
      SortHeadIsFirstLongest(tail);
      var i' :| IsFirstLongest(tail, i') && SortByLength(tail)[0] == tail[i'];
      var sorted := SortByLength(tail);
      if |sorted[0]| <= |ws[0]| {
        assert SortByLength(ws)[0] == ws[0];
        forall j | 0 <= j < |ws| ensures |ws[j]| <= |ws[0]| {
          if j > 0 {
            assert ws[j] == tail[j - 1];
          }
        }
        assert IsFirstLongest(ws, 0);
      } else {
        assert SortByLength(ws)[0] == sorted[0];
        forall j | 0 <= j < |ws| ensures |ws[j]| <= |ws[i' + 1]| {
          if j > 0 {
            assert ws[j] == tail[j - 1];
          }
        }
        forall j | 0 <= j < i' + 1 ensures |ws[j]| < |ws[i' + 1]| {
          if j > 0 {
            assert ws[j] == tail[j - 1];
          }
        }
        assert IsFirstLongest(ws, i' + 1);
      }
    }
  }

  /* ---------- Extraction ---------- */

  /** The topic of a token list: "general" when no keyword survives,
      otherwise the first keyword of maximal length. */
  function TopicOf(tokens: seq<string>): (topic: string)
    ensures |Keywords(tokens)| == 0 ==> topic == General
    ensures |Keywords(tokens)| > 0 ==>
      exists i :: IsFirstLongest(Keywords(tokens), i) && topic == Keywords(tokens)[i]
    ensures topic == General || IsKeyword(topic)
  {
    var ks := Keywords(tokens);
    if |ks| == 0 then General
    else
      SortHeadIsFirstLongest(ks);
      SortByLength(ks)[0]
  }

  /** A non-fallback topic is a surviving token, and no surviving token is
      longer. */
  lemma TopicIsLongestToken(tokens: seq<string>)
    ensures |Keywords(tokens)| > 0 ==>
      && TopicOf(tokens) in tokens && IsKeyword(TopicOf(tokens))
      && forall w :: w in tokens && IsKeyword(w) ==> |w| <= |TopicOf(tokens)|
  {
    var ks := Keywords(tokens);
    var topic := TopicOf(tokens);
    if |ks| > 0 {
      var i :| IsFirstLongest(ks, i) && topic == ks[i];
      assert ks[i] in ks;
      forall w | w in tokens && IsKeyword(w) ensures |w| <= |topic| {
        assert w in ks;
      }
    }
  }

  /** Stated over the tokens themselves: the topic is the keyword token of
      maximal length that comes first, so an earlier keyword token of the
      same length wins over a later one. */
  lemma TopicIsFirstLongestToken(tokens: seq<string>, j: int)
    requires 0 <= j < |tokens| && IsKeyword(tokens[j])
    requires forall k :: 0 <= k < |tokens| && IsKeyword(tokens[k]) ==> |tokens[k]| <= |tokens[j]|
    requires forall k :: 0 <= k < j && IsKeyword(tokens[k]) ==> |tokens[k]| < |tokens[j]|
    ensures TopicOf(tokens) == tokens[j]
  {
    var before, after := tokens[..j], tokens[j + 1..];
    assert tokens == before + [tokens[j]] + after;
    KeywordsAppend(before + [tokens[j]], after);
    KeywordsAppend(before, [tokens[j]]);
    assert Keywords([tokens[j]]) == [tokens[j]] by {
      assert [tokens[j]][1..] == [];
    }
    var ks := Keywords(tokens);
    var n := |Keywords(before)|;
    assert ks == Keywords(before) + [tokens[j]] + Keywords(after);
    assert ks[n] == tokens[j];
    forall k | 0 <= k < |ks| ensures |ks[k]| <= |ks[n]| {
      assert ks[k] in ks;
    }
    forall k | 0 <= k < n ensures |ks[k]| < |ks[n]| {
      assert ks[k] == Keywords(before)[k];
      assert ks[k] in Keywords(before);
      var m :| 0 <= m < |before| && before[m] == ks[k];
      assert tokens[m] == before[m];
    }
    assert IsFirstLongest(ks, n);
  }

  /** Lower-cased, punctuation-stripped prompt text. */
  function Normalize(prompt: string): string
  {
    KeepWordsAndSpaces(Lower(prompt))
  }

  /** Server tokens: `split(" ")`. */
  function ServerTokens(prompt: string): seq<string>
  {
    SplitOn(Normalize(prompt), ' ')
  }

  /** Client tokens: `split(/\s+/)`. */
  function ClientTokens(prompt: string): seq<string>
  {
    SplitOnSpaceRuns(Normalize(prompt))
  }

  /** `extractTopic` of the server copy. */
  function ServerTopic(prompt: string): (topic: string)
    ensures |Keywords(ServerTokens(prompt))| == 0 ==> topic == General
    ensures |Keywords(ServerTokens(prompt))| > 0 ==>
      && topic in ServerTokens(prompt) && IsKeyword(topic)
      && forall w :: w in ServerTokens(prompt) && IsKeyword(w) ==> |w| <= |topic|
    ensures |Keywords(ServerTokens(prompt))| > 0 ==>
      exists i :: IsFirstLongest(Keywords(ServerTokens(prompt)), i) && topic == Keywords(ServerTokens(prompt))[i]
  {
    TopicIsLongestToken(ServerTokens(prompt));
    TopicOf(ServerTokens(prompt))
  }

  /** `extractTopic` of the client copy. */
  function ClientTopic(prompt: string): (topic: string)
    ensures |Keywords(ClientTokens(prompt))| == 0 ==> topic == General
    ensures |Keywords(ClientTokens(prompt))| > 0 ==>
      && topic in ClientTokens(prompt) && IsKeyword(topic)
      && forall w :: w in ClientTokens(prompt) && IsKeyword(w) ==> |w| <= |topic|
    ensures |Keywords(ClientTokens(prompt))| > 0 ==>
      exists i :: IsFirstLongest(Keywords(ClientTokens(prompt)), i) && topic == Keywords(ClientTokens(prompt))[i]
  {
    TopicIsLongestToken(ClientTokens(prompt));
    TopicOf(ClientTokens(prompt))
  }

  /** The fallback is reached exactly when no keyword survives, or when the
      word "general" is itself the chosen keyword. */
  lemma GeneralIff(tokens: seq<string>)
    ensures TopicOf(tokens) == General <==>
      (|Keywords(tokens)| == 0 || exists i :: IsFirstLongest(Keywords(tokens), i) && Keywords(tokens)[i] == General)
  {
  }

  /** For a prompt whose only whitespace is the plain space, the two copies
      extract the same topic. */
  lemma TopicsAgreeOnPlainSpaces(prompt: string)
    requires OnlyPlainSpaces(prompt)
    ensures ServerTopic(prompt) == ClientTopic(prompt)
  {
    LowerKeepsPlainSpaces(prompt);
    KeepKeepsPlainSpaces(Lower(prompt));
    var s := Normalize(prompt);
    SplitsAgreeOnWords(s);
    KeywordsIgnoreEmpty(SplitOn(s, ' '));
    KeywordsIgnoreEmpty(SplitOnSpaceRuns(s));
  }

  /** Normalising leaves lower-case word characters and whitespace as they
      are. */
  lemma NormalizeFixes(prompt: string)
    requires forall i :: 0 <= i < |prompt| ==> LowerFixesChar(prompt[i]) && (IsWordChar(prompt[i]) || IsSpace(prompt[i]))
    ensures Normalize(prompt) == prompt
  {
    LowerFixes(prompt);
    KeepWordsAndSpacesFixes(prompt);
  }

  /** A prompt that is one lower-case keyword is its own topic, in both
      copies. */
  lemma SingleKeywordTopic(w: string)
    requires forall i :: 0 <= i < |w| ==> 'a' <= w[i] <= 'z'
    requires IsKeyword(w)
    ensures ServerTopic(w) == w && ClientTopic(w) == w
  {
    SingleKeywordServerTopic(w);
    SingleKeywordClientTopic(w);
  }

  lemma SingleKeywordServerTopic(w: string)
    requires forall i :: 0 <= i < |w| ==> 'a' <= w[i] <= 'z'
    requires IsKeyword(w)
    ensures ServerTokens(w) == [w] && ServerTopic(w) == w
  {
    NormalizeFixes(w);
    SplitOnWithout(w, ' ');
    assert ServerTokens(w) == [w];
    assert [w][1..] == [];
    assert Keywords([w]) == [w];
    assert SortByLength([w]) == [w];
  }

  lemma SingleKeywordClientTopic(w: string)
    requires forall i :: 0 <= i < |w| ==> 'a' <= w[i] <= 'z'
    requires IsKeyword(w)
    ensures ClientTopic(w) == w
  {
    NormalizeFixes(w);
    SplitOnSpaceRunsWithout(w);
    assert ClientTokens(w) == [w];
    assert [w][1..] == [];
    assert Keywords([w]) == [w];
    assert SortByLength([w]) == [w];
  }

  /** The prompt "general" has a surviving keyword, yet its topic is the
      same "general" that stands for a prompt without one. */
  lemma GeneralPrompt()
    ensures |Keywords(ServerTokens(General))| > 0 && ServerTopic(General) == General
  {
    GeneralIsKeyword();
    SingleKeywordServerTopic(General);
    assert General in Keywords(ServerTokens(General));
  }

  lemma GeneralIsKeyword()
    ensures IsKeyword(General)
  {
    assert !IsStopWord("general");
  }

  /** No stop word is longer than nine characters ("including"). */
  lemma StopWordsAreShort(w: string)
    requires IsStopWord(w)
    ensures |w| <= 9
  {
  }
}
