# Second Thoughts: the AI-dependency heuristic in Dafny

Second Thoughts is a browser extension with a small backend. For each
prompt a user sends to a language model, it computes an "AI-dependency"
score from 0 to 10, and it nudges the user to think for themselves when the
score is high. The heuristic exists twice:

- the **server copy** (`backend/services/regretLogic.js`): one process-wide
  session of per-topic statistics, a sticky learner flag and a prompt
  total, updated by every `getResponse`, plus `resetTopic` and
  `resetSession`;
- the **client fallback** (`extension/popup.js`): the same scoring over a
  topic-count map kept in `localStorage`. It folds related legacy keys into
  the prompt's topic before counting. It uses the server's score only when
  that score is non-zero. It also has the presentation arithmetic: bar
  width, risk class, confirmation modal, session duration, and the "I'll
  try myself" reset.

The model is functional. Each copy is an immutable state record with a
pure step, and lemmas cover whole sequences of prompts. The modules are:

| module | file | what it holds |
|---|---|---|
| `Text` | text.dfy | JavaScript string operations the heuristic uses: `toLowerCase`, the `[^\w\s]` strip, `includes`, `split(" ")`, `split(/\s+/)`, decimal numerals |
| `Topic` | topic.dfy | the stop words, the keyword filter, the stable length-descending sort, `extractTopic` of both copies |
| `Scoring` | scoring.dfy | the score precedence shared by both copies, the five message bands, the two message tables, the prompt cues (`Cues`) |
| `Tally` | tally.dfy | sums over a map of counts |
| `Server` | server.dfy | the server's session, step, reply and resets, and runs of prompts |
| `Client` | client.dfy | the popup's map, legacy-key merge, local step, "try myself" reset, choice of score, and runs |
| `Presentation` | presentation.dfy | percent bar, risk class, modal threshold, `formatDuration` and a reader for its output |
| `CrossCopy` | crosscopy.dfy | where the two copies agree and where they differ, and how the popup's choices act on the server |
| `Prototype` | prototype.dfy | the server as written when a topic names an inherited object property (see Findings) |

Prompts are `string`s. `toLowerCase` maps ASCII capitals, plus the two
non-ASCII characters whose lower case contains an ASCII letter (U+0130,
which becomes "i" followed by U+0307, and U+212A, the Kelvin sign, which
becomes "k"). These are the only characters whose lower case contains a
word character that the character itself is not. The model leaves every
other character as it is. Where the real `toLowerCase` would change such a
character, both it and its lower case are non-ASCII characters that are
neither word characters nor white space, and neither is part of a listed
word, so leaving it alone does not change any result. On ASCII text the
model's lower case keeps the length and puts, in place of each capital, the
small letter at the same place in the alphabet (`Text.LowerAscii`).
`\s` is the full JavaScript white-space set. `Array.prototype.sort` is
stable, so the sort is modelled as a stable insertion sort. Both copies
share one stop-word set (`Topic.IsStopWord`, the same list in both files)
and one score precedence (`Scoring`). Three consequences of the code are
worth stating:

- the server splits on a single space, so a tab or a newline does not
  separate its tokens (`CrossCopy.TabSeparatedTopics`);
- the prompt "general" has the keyword "general" and gets the topic
  "general" (`Topic.GeneralPrompt`, `Topic.GeneralIff`);
- three plain "galaxy" prompts in a fresh session score 0, 0, 3, because
  the third prompt's usage is 3 (`Server.GalaxyThreeTimes`).

## Model

| member | source | states |
|---|---|---|
| Text.KeepWordsAndSpaces | backend/services/regretLogic.js:43 | `replace(/[^\w\s]/g, "")` leaves only word characters and white space, and never lengthens the text; the two lemmas below fix its result for every input |
| Text.KeepWordsAndSpacesChar | backend/services/regretLogic.js:43 | one character is kept exactly when it is a word character or white space, and dropped otherwise |
| Text.KeepWordsAndSpacesAppend | backend/services/regretLogic.js:43 | the strip works character by character: stripping a concatenation is concatenating the stripped halves |
| Text.KeepWordsAndSpacesIdempotent | backend/services/regretLogic.js:43 | stripping twice is stripping once |
| Text.Lower | backend/services/regretLogic.js:42 | `toLowerCase` leaves no ASCII capital and never shortens the text |
| Text.LowerAppend | backend/services/regretLogic.js:42 | lower-casing works character by character: it distributes over concatenation |
| Text.LowerFixes | backend/services/regretLogic.js:42 | a text without capitals, U+0130 and U+212A is its own lower case |
| Text.LowerIdempotent | backend/services/regretLogic.js:42 | lower-casing twice is lower-casing once |
| Text.LowerAscii | backend/services/regretLogic.js:42 | on ASCII text, lower-casing keeps the length and puts in place of each capital the small letter at the same place in the alphabet; every other character stays |
| Text.LowerWhy | backend/services/regretLogic.js:55 | "WHY" lower-cases to "why" |
| Text.ContainsIffOccurs | backend/services/regretLogic.js:54-56 | the recursive substring test `Text.Contains` holds exactly when the word occurs at some index: `includes` is raw substring matching |
| Text.ContainedWordChars | backend/services/regretLogic.js:54-56 | a contained word's characters all occur in the text |
| Text.SplitOn | backend/services/regretLogic.js:44 | `split(" ")` gives at least one part, the first part is a prefix of the text, and no part holds the separator |
| Text.JoinSplitOn | backend/services/regretLogic.js:44 | joining the parts of `split(sep)` with `sep` gives back the text |
| Text.SplitOnJoin | extension/popup.js:178-180 | splitting a join of separator-free parts gives back the parts |
| Text.SplitPartsContained | extension/popup.js:129 | every part of `split(sep)` occurs in the text |
| Text.SplitOnSpaceRuns | extension/popup.js:93 | `split(/\s+/)` gives at least one part, and no part holds white space |
| Text.SplitOnSpaceRunsConcat | extension/popup.js:93 | the parts of `split(/\s+/)`, laid end to end, are the text with its white space removed (`Text.RemoveSpaces`) |
| Text.SplitOnSpaceRunsInterior | extension/popup.js:93 | only the first and the last part can be empty |
| Text.JoinSplitOnSpaceRuns | extension/popup.js:93 | joining the parts with single spaces gives the text with each run of white space collapsed to one space (`Text.CollapseSpaces`) |
| Text.SplitOnSpaceRunsJoin | extension/popup.js:93 | white-space-free parts with non-empty inner parts, joined by single spaces, split back into the same parts |
| Text.SplitsAgreeOnWords | extension/popup.js:93 | on text whose only white space is the plain space, both splits give the same non-empty parts |
| Text.FirstPartIsLeadingWord | extension/popup.js:93 | on such text both splits start with the same leading word |
| Text.ReadShowNat | extension/popup.js:178-180 | reading back the decimal numeral of a number gives the number |
| Topic.Keywords | backend/services/regretLogic.js:45 | the filter keeps exactly the tokens longer than two that are not stop words (`Topic.IsStopWord`, the set of lines 28-38) |
| Topic.KeywordsAppend | backend/services/regretLogic.js:45 | `filter` keeps the surviving tokens in order and with their repetitions: filtering a concatenation concatenates the filtered halves |
| Topic.NoKeywordsIff | backend/services/regretLogic.js:45-47 | no keyword survives exactly when every token is short or a stop word |
| Topic.KeywordsIgnoreEmpty | extension/popup.js:94 | empty tokens never survive the filter |
| Topic.InsertByLength | backend/services/regretLogic.js:50 | one insertion step adds the word to the multiset and keeps the order length-descending |
| Topic.SortByLength | backend/services/regretLogic.js:50 | the sort is a permutation, and its output is length-descending |
| Topic.SortHeadIsFirstLongest | backend/services/regretLogic.js:50-51 | the head of the stable sort is the first token of maximal length in the original order |
| Topic.TopicOf | backend/services/regretLogic.js:47-51 | "general" when no keyword survives; otherwise the first longest keyword |
| Topic.TopicIsLongestToken | backend/services/regretLogic.js:47-51 | a topic chosen from keywords is a token, is a keyword, and no keyword token is longer |
| Topic.TopicIsFirstLongestToken | backend/services/regretLogic.js:50-51 | a keyword token that no keyword token outlasts and no earlier keyword token matches in length is the topic: the stable sort picks the first longest |
| Topic.ServerTopic | backend/services/regretLogic.js:40-52 | the server's `extractTopic`: "general" with no keyword, otherwise a longest keyword among the `split(" ")` tokens, and the first of maximal length among the surviving keywords |
| Topic.ClientTopic | extension/popup.js:89-101 | the popup's `extractTopic`: the same contract over the `split(/\s+/)` tokens, including the first-of-maximal-length choice |
| Topic.GeneralIff | backend/services/regretLogic.js:47-51 | the topic is "general" exactly when no keyword survives or the first longest keyword is itself "general" |
| Topic.GeneralPrompt | backend/services/regretLogic.js:47 | the prompt "general" has a surviving keyword yet gets the "general" topic |
| Topic.TopicsAgreeOnPlainSpaces | extension/popup.js:89-101 | when the prompt's only white space is the plain space, both copies extract the same topic |
| Topic.NormalizeFixes | backend/services/regretLogic.js:41-43 | lower-casing and stripping leave a prompt of lower-case word characters and white space unchanged |
| Topic.SingleKeywordTopic | backend/services/regretLogic.js:40-52 | a prompt that is one lower-case keyword is its own topic in both copies |
| Scoring.DependencyScore | backend/services/regretLogic.js:96-116 | learner mode gives 0; otherwise a total of at most two gives 0; otherwise the usage plus 2 when conceptual, capped at 10. The score is at most 10, and non-negative for a non-negative count |
| Scoring.PositiveScoreMeansCounted | backend/services/regretLogic.js:98-113 | a positive score means not learner mode, past the grace period, and a positive count or a conceptual prompt |
| Scoring.ScoreMonotoneInCount | backend/services/regretLogic.js:107-116 | more uses never lower the score |
| Scoring.ConceptualBonusEffect | backend/services/regretLogic.js:109-112 | the conceptual bonus never lowers the score, and below the cap it adds exactly 2 |
| Scoring.BandOf | backend/services/regretLogic.js:58-71 | the quiet band is exactly scores up to 2; the strongest band is exactly 9 and above |
| Scoring.BandMonotone | backend/services/regretLogic.js:58-71 | a higher score never falls into a weaker band |
| Scoring.RegretAgainstBands | backend/services/regretLogic.js:140 | `Scoring.Regret` is `dependency >= 6`: the two strongest bands always regret; regret needs the middle band or stronger; 5 and 6 share a band but only 6 regrets |
| Scoring.ServerMessage | backend/services/regretLogic.js:58-71 | the server message is empty exactly for scores up to 2 |
| Scoring.ClientMessage | extension/popup.js:103-109 | the popup message is empty exactly for scores up to 2 |
| Scoring.MessageTellsBand | backend/services/regretLogic.js:58-71 | in each copy, two scores get the same message exactly when they are in the same band |
| Scoring.DistinctTexts | backend/services/regretLogic.js:58-71 | different bands have different texts in each copy |
| Scoring.MessagesAgreeButRevisited | extension/popup.js:103-109 | the copies' messages agree on every band except 3-4, whose apostrophe differs |
| Server.CuesIgnoreCase | backend/services/regretLogic.js:54-56 | `Server.IsConceptual` (line 93) and `Server.HasLearningSignal` (line 77) give the same answer for a prompt and for its lower case |
| Server.ShoutedWhyIsConceptual | backend/services/regretLogic.js:12-15 | a prompt with "WHY" anywhere in it is conceptual, since the list word "why" is matched against the lower-cased prompt (lines 54-56) |
| Server.CuesInContext | backend/services/regretLogic.js:54-56 | both server tests look for substrings: a prompt that passes one still passes it with any text before and after it |
| Server.Advance | backend/services/regretLogic.js:77-117 | a step creates or updates only the prompt's topic entry, to usage + 1 and the new score. Every other entry is unchanged. The total grows by one, learner mode latches, and the score is the precedence score in 0..10 |
| Server.Step | backend/services/regretLogic.js:74-117 | the same effects stated for the prompt's extracted topic, learning signal and conceptual test |
| Server.Respond | backend/services/regretLogic.js:137-142 | the new state and the reply's score are those of the step for the prompt; the reply passes the answer through, with a score in 0..10. Regret holds exactly when the score is at least 6. The message is the score's band text, empty exactly up to 2. Learner mode, a learning signal or the grace period give (answer, 0, false, "") |
| Server.ResetTopic | backend/services/regretLogic.js:145-152 | true exactly for a non-empty topic with an entry, which is then removed alone; otherwise false and nothing changes |
| Server.ResetSession | backend/services/regretLogic.js:154-159 | always true; clears the learner flag and the total and keeps every topic entry |
| Server.ResetTopicThenPrompt | backend/services/regretLogic.js:145-152 | resetting a counted, non-empty topic succeeds, and the topic's next prompt has usage 1 |
| Server.ResetTopicTwice | backend/services/regretLogic.js:145-152 | a second reset of the same topic reports false |
| Server.ResetSessionKeepsUsage | backend/services/regretLogic.js:154-159 | after a session reset, a prompt's usage continues from its old count |
| Server.ReplayScoresAt | backend/services/regretLogic.js:73-117 | the j-th score of a run is the score of one step from the state after the first j prompts |
| Server.ReplayCountsPrompts | backend/services/regretLogic.js:91 | a run of n prompts adds n to the total |
| Server.ReplayUsage | backend/services/regretLogic.js:82-90 | after a run, a topic's usage is its old usage plus the number of prompts with that topic |
| Server.ReplayKeys | backend/services/regretLogic.js:82-87 | after a run, a topic has an entry exactly when it had one or some prompt had that topic |
| Server.ReplayLatch | backend/services/regretLogic.js:77-80 | after a run, learner mode is on exactly when it was on or some prompt carried a learning signal |
| Server.ScoresAt | backend/services/regretLogic.js:73-117 | the same as ReplayScoresAt, stated over prompts |
| Server.RunCountsPrompts | backend/services/regretLogic.js:91 | the same as ReplayCountsPrompts, stated over prompts |
| Server.RunUsage | backend/services/regretLogic.js:82-90 | usage after a run is old usage plus occurrences of the topic; the entry exists exactly when it did or some prompt had the topic |
| Server.RunLatch | backend/services/regretLogic.js:77-80 | learner mode after a run is on exactly when it was or some prompt had a learning signal |
| Server.LearnerSilencesRest | backend/services/regretLogic.js:77-100 | from the first prompt with a learning signal on, every score of the run is 0 |
| Server.GracePeriod | backend/services/regretLogic.js:102-105 | from a zero total, the first two scores are 0 |
| Server.GraceAfterReset | backend/services/regretLogic.js:154-158 | after `resetSession`, the next two scores are 0 whatever the usage |
| Server.ScoresBounded | backend/services/regretLogic.js:115-116 | every score of a run is in 0..10 |
| Server.PlainWithout | backend/services/regretLogic.js:12-26 | a lower-case prompt without e, w and h contains no conceptual word and no learning signal |
| Server.ThreeRepeats | backend/services/regretLogic.js:96-113 | from the start state, three identical plain prompts score 0, 0, 3 |
| Server.GalaxyThreeTimes | backend/services/regretLogic.js:73-117 | three "galaxy" prompts in a fresh process score 0, 0, 3 |
| Client.CuesIgnoreCase | extension/popup.js:85-87 | `Client.IsConceptual` (lines 85-87) and `Client.HasLearningSignal` (line 113) give the same answer for a prompt and for its lower case |
| Client.CuesInContext | extension/popup.js:113 | both popup tests look for substrings: a prompt that passes one still passes it with any text before and after it |
| Client.ComponentClauseRedundant | extension/popup.js:129 | in the merge test `Client.Absorbs`, the `split('_').includes(key)` clause adds nothing: a key merges exactly when it contains the topic or is contained in it |
| Client.Merged | extension/popup.js:123-137 | a present non-zero count means no change. Otherwise every other key that contains the topic, or is contained in it, is removed and its count added to the topic. Other keys are unchanged, the map's total is preserved, and non-negative counts stay non-negative |
| Client.MergeLegacyKeys | extension/popup.js:123-137 | the loop over the stored keys computes exactly the merge above and conserves the total |
| Client.MergeIdempotent | extension/popup.js:123-137 | merging for the same topic twice is merging once |
| Client.MergeFoldsRelatedKey | extension/popup.js:129-136 | a related key is removed, and the topic's count afterwards is at least that key's count |
| Client.Advance | extension/popup.js:111-163 | a local step grows the total by one and latches learner mode. It sets the topic to its merged count + 1. Another key survives exactly when the topic already had a non-zero count or the key is not absorbed by the merge, and surviving keys keep their counts. The map's total grows by exactly one, and the score is the precedence score, in 0..10 when counts are non-negative |
| Client.CountUse | extension/popup.js:121-163 | the merge loop followed by the increment and scoring computes the local step |
| Client.ComputeDependency | extension/popup.js:111-168 | `computeDependency` grows the total and the map's total by one and latches learner mode. Its score is in 0..10 and is 0 in learner mode or the grace period |
| Client.Forget | extension/popup.js:308-310 | the topic's count becomes 0 (a zero entry may stay), every other key is unchanged, and the map's total drops by the topic's count |
| Client.TryMyself | extension/popup.js:307-314 | "try myself" clears the learner flag and the total, zeroes the prompt's topic count, and leaves every other key alone |
| Client.HandleReply | extension/popup.js:241-252 | a non-zero backend score is shown and leaves the local state alone. A missing reply or a zero score runs the local step. The answer is the backend's when it is non-empty, "No reply" when it is empty, and "Simulated response for: " + prompt when there is no reply |
| Client.PlainWithout | extension/popup.js:65-67 | a lower-case prompt without e, w and h matches neither client list |
| Client.NotConceptualWithout | extension/popup.js:65 | a lower-case prompt without w, h, x, v, a and p is not conceptual for the popup |
| Client.NoSignalWithout | extension/popup.js:67 | a lower-case prompt without b, l, t and f has no client learning signal |
| Client.ReplayScoresAt | extension/popup.js:111-168 | the j-th local score of a run is one step from the state after the first j prompts |
| Client.ReplayCountsUses | extension/popup.js:121-143 | a run of n local steps adds n to the map's total and to the prompt total, keeping counts non-negative |
| Client.ReplayLatch | extension/popup.js:113-116 | local learner mode after a run is on exactly when it was or some prompt had a learning signal |
| Client.LearnerSilencesRest | extension/popup.js:113-151 | from the first local prompt with a learning signal on, every local score is 0 |
| Client.GracePeriod | extension/popup.js:152-155 | from a zero total, the first two local scores are 0 |
| Client.GraceOnOpen | extension/popup.js:82-83 | the popup starts each opening with a zero total and learner mode off, so its first two local scores are 0 (lines 152-155) whatever the stored map holds |
| Client.GraceAfterTryMyself | extension/popup.js:312-314 | after "try myself", the next two local scores are 0 |
| Client.ScoresBounded | extension/popup.js:163 | with non-negative stored counts, every local score of a run is in 0..10 |
| Presentation.Percent | extension/popup.js:254 | the bar width is at most 100, reaches 100 exactly from score 10 up, and is non-negative for a non-negative score |
| Presentation.PercentRecoversScore | extension/popup.js:254 | up to the cap the width is a multiple of ten that gives back the score |
| Presentation.PercentMonotone | extension/popup.js:254 | a higher score never gives a narrower bar |
| Presentation.RiskOf | extension/popup.js:264-276 | high risk exactly from 7, medium exactly for 5 and 6, none exactly up to 4 |
| Presentation.RiskMatchesBands | extension/popup.js:264-280 | the modal (`Presentation.ShowsModal`, `dep >= 7`) shows exactly for high risk, and each risk class matches the message bands |
| Presentation.RegretWithoutModal | extension/popup.js:280 | the modal implies the server's regret flag; a score of 6 regrets without a modal, and only 6 does |
| Presentation.ClockOf | extension/popup.js:174-177 | hours, minutes and seconds recombine to the whole seconds; minutes and seconds are below 60 |
| Presentation.FieldsOf | extension/popup.js:178-180 | one to three fields ending with seconds: three when there are hours, two when there are minutes but no hours, otherwise one |
| Presentation.FormatDuration | extension/popup.js:172-181 | "0s" for a duration that is not positive; otherwise space-separated fields that split back into the shown fields |
| Presentation.ParseFormatDuration | extension/popup.js:172-181 | reading the formatted text back gives the duration's whole seconds (0 when not positive): nothing but the milliseconds is lost |
| CrossCopy.ServerTabTopic | backend/services/regretLogic.js:44 | two lower-case words joined by a tab stay one token on the server, which is the topic when long enough |
| CrossCopy.ClientTabTokens | extension/popup.js:93 | the popup splits such a text at the tab |
| CrossCopy.ClientTabTopic | extension/popup.js:89-101 | of two tab-joined keywords, the popup takes the longer |
| CrossCopy.TabSeparatedTopics | extension/popup.js:93 | for "dark\tmatter"-shaped prompts, the server's topic is the whole text and the popup's is the longer word |
| CrossCopy.ServerListedIsConceptual | backend/services/regretLogic.js:12-15 | every listed conceptual word, written without capitals, is conceptual for the server |
| CrossCopy.ServerListedIsSignal | backend/services/regretLogic.js:17-26 | every listed learning signal, written without capitals, is a learning signal for the server |
| CrossCopy.DifferenceConceptualOnServerOnly | extension/popup.js:65 | "difference" is conceptual for the server and not for the popup |
| CrossCopy.IAmNewSignalOnServerOnly | extension/popup.js:67 | "i am new" is a learning signal for the server and not for the popup |
| CrossCopy.SameCuesSameScore | extension/popup.js:146-163 | with the same learner flag, total and count, both copies give the same score |
| CrossCopy.ServerZeroOverridden | extension/popup.js:251 | when the server is in learner mode and the popup is not, past grace, the server's 0 is replaced by a positive local score |
| CrossCopy.ServerTryMyself | extension/popup.js:291-302 | the server side of "try myself" removes the popup's topic, clears learner mode and the total, and keeps every other entry |
| CrossCopy.TryMyselfInStep | extension/popup.js:291-314 | for a prompt whose only white space is the plain space, "try myself" clears the topic and restarts the grace period on both sides |
| CrossCopy.TryMyselfMissesTabTopic | extension/popup.js:291-297 | for a tab-joined prompt the server's own entry survives "try myself" |
| Prototype.RawMessage | backend/services/regretLogic.js:58-71 | the message is empty exactly for an integer score up to 2: NaN, failing every comparison, is never quiet |
| Prototype.NaNReadsAsStrongest | backend/services/regretLogic.js:58-71 | NaN gets the same message as an integer score exactly when that score is at least 9 |
| Prototype.StepAsWritten | backend/services/regretLogic.js:82-117 | as written, the step is the intended one except for an inherited name without an own entry: then no entry is stored while the total and learner flag still update |
| Prototype.RespondAsWritten | backend/services/regretLogic.js:73-142 | as written, `getResponse` agrees with `Server.Respond` whenever the topic is not an inherited name without an own entry |
| Prototype.ResetTopicAsWritten | backend/services/regretLogic.js:145-152 | as written, `resetTopic` agrees with `Server.ResetTopic` except that an inherited name reports success and deletes nothing |
| Prototype.InheritedTopicAsWritten | backend/services/regretLogic.js:82-90 | as written, an inherited topic past grace and outside learner mode scores NaN with no regret and the strongest message, and is never stored |
| Prototype.InheritedTopicIntended | backend/services/regretLogic.js:82-90 | intended, the same prompt is the topic's first use and scores 1, or 3 when conceptual, with no regret |
| Prototype.ConstructorPrompt | backend/services/regretLogic.js:82-142 | the prompt "constructor" as the third of a fresh session gets NaN and "High dependency detected" as written, and (answer, 1, false, "") as intended |
| Prototype.ConstructorReset | backend/services/regretLogic.js:145-152 | as written, resetting "constructor" without an entry reports true; intended, false |

## Left out

- The OpenAI call (backend/services/regretLogic.js:119-135): the answer, or the error text, is a string parameter of `Server.Respond`.
- The Express routes (`backend/routes/ai.js`) and the Chrome message relay (`extension/background.js`) are I/O glue. The relay's failure is the `NoResponse` case of `Client.HandleReply`.
- DOM construction, event listeners, the modal widget and `console.log` in popup.js; the send button's trimming and empty-input check (extension/popup.js:331-339).
- `localStorage` and JSON: the stored map is a `map<string, int>` handed in and out of each local step.
- `Date.now`: `Presentation.FormatDuration` takes the elapsed milliseconds as a parameter.
- The two `fetch` reset calls of "try myself" are modelled as if both succeed (`CrossCopy.ServerTryMyself`). The popup ignores a failure of either. If the first call (`/ask-ai/reset`) fails, the second is skipped and the server keeps both the topic and its session state; if only the second (`/ask-ai/reset-session`) fails, the topic is removed but the learner flag and the total stay.
- Interleaving of concurrent `getResponse` calls across the `await`.
- Text.Lower: models only the lower-casing of ASCII capitals, U+0130 and U+212A. Other characters are left as they are, which changes no topic, conceptual test or learning-signal test.
- Client.HandleReply: takes the backend score as an integer. `Number(...)` of a missing, `null` or non-numeric score is falsy like 0, and is modelled as 0.
- Presentation.FormatDuration: takes an integer. The `!ms` test for `undefined` and `NaN` has no counterpart.
- Client.MergeLegacyKeys: visits keys in an unspecified order rather than in `Object.keys` order. The result does not depend on the order.
- The popup's stored map is a plain object too, so the topics "constructor" and "__proto__" hit inherited properties there as well. The popup then computes a string from `map[key] + 1`. The model covers this defect for the server only (module `Prototype`). On the client, such keys are treated as absent.
- Numbers are unbounded integers. The counts are far below 2^53, so JavaScript's doubles compute them exactly.

## Findings

| source | as written | input that shows it | evidently intended | confidence | as-written member | corrected member |
|---|---|---|---|---|---|---|
| backend/services/regretLogic.js:82-90 | `if (!topicStats[topic])` on the object literal `{}` also finds inherited properties. For the topics "constructor" and "__proto__", no entry is created, `stats.usage++` yields NaN, and the reply has dependency NaN, regret false and the strongest message | the prompt "constructor" as the third prompt of a fresh process | an own-entry test: the prompt is the topic's first use, scoring 1 with no message | high; not executed | Prototype.ConstructorPrompt | Server.Respond |
