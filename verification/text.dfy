/**
 String primitives the scoring heuristic is built from, with the meaning the
 JavaScript runtime gives them: `toLowerCase`, the `\w` and `\s` regex classes,
 `replace(/[^\w\s]/g, "")`, `includes`, `split(" ")`, `split(/\s+/)` and the
 decimal rendering of a non-negative integer in a template string.
 */
module Text {

  /* ---------- Characters ---------- */

  /** `String.prototype.toLowerCase` on one character. ASCII capitals are
      mapped exactly; so are the only two non-ASCII characters whose lower
      case contains an ASCII letter (DOTTED CAPITAL I and KELVIN SIGN); only
      these map to a word character they are not. Every other character is
      kept as it is. Where the real `toLowerCase` would change one, both it
      and its lower case are non-ASCII characters that are neither word
      characters nor white space, and neither is part of any word the
      heuristic matches. */
  function LowerChar(c: char): (r: string)
    ensures |r| >= 1
  {
    if 'A' <= c <= 'Z' then [(c as int + 32) as char]
    else if c == '\U{212A}' then "k"
    else if c == '\U{0130}' then "i\U{0307}"
    else [c]
  }

  /** `s.toLowerCase()`. */
  function Lower(s: string): (r: string)
    ensures forall i :: 0 <= i < |r| ==> !('A' <= r[i] <= 'Z')
    ensures |r| >= |s|
  {
    if |s| == 0 then "" else LowerChar(s[0]) + Lower(s[1..])
  }

  /** The small letter at the same place in the alphabet as the capital
      `c`; any other character stands for itself. */
  function SmallOf(c: char): char
  {
    if 'A' <= c <= 'Z' then ('a' as int + (c as int - 'A' as int)) as char else c
  }

  /** On ASCII text `toLowerCase` keeps the length and replaces each
      capital, where it stands, by the small letter at the same place in the
      alphabet; every other character stays. */
  lemma {:induction false} LowerAscii(s: string)
    requires forall i :: 0 <= i < |s| ==> s[i] < '\U{0080}'
    ensures |Lower(s)| == |s|
    ensures forall i :: 0 <= i < |s| ==> Lower(s)[i] == SmallOf(s[i])
  {
    if |s| > 0 {
      LowerAscii(s[1..]);
      assert LowerChar(s[0]) == [SmallOf(s[0])];
      forall i | 0 < i < |s| ensures Lower(s)[i] == SmallOf(s[i]) {
        assert Lower(s)[i] == Lower(s[1..])[i - 1];
        assert s[1..][i - 1] == s[i];
      }
    }
  }

  /** A shouted question word lower-cases to the listed spelling. */
  lemma LowerWhy()
    ensures Lower("WHY") == "why"
  {
    LowerAscii("WHY");
  }

  /** A character `toLowerCase` leaves as it is. */
  predicate LowerFixesChar(c: char)
  {
    !('A' <= c <= 'Z') && c != '\U{212A}' && c != '\U{0130}'
  }

  /** Lowering leaves a string without capitals as it is. */
  lemma {:induction false} LowerFixes(s: string)
    requires forall i :: 0 <= i < |s| ==> LowerFixesChar(s[i])
    ensures Lower(s) == s
  {
    if |s| > 0 {
      LowerFixes(s[1..]);
      assert s == [s[0]] + s[1..];
    }
  }

  /** The regex class `\w`. */
  predicate IsWordChar(c: char)
  {
    'a' <= c <= 'z' || 'A' <= c <= 'Z' || '0' <= c <= '9' || c == '_'
  }

  /** The regex class `\s`: the WhiteSpace and LineTerminator characters. */
  predicate IsSpace(c: char)
  {
    || c == ' ' || c == '\t' || c == '\n' || c == '\U{000B}' || c == '\U{000C}' || c == '\r'
    || c == '\U{00A0}' || c == '\U{1680}' || '\U{2000}' <= c <= '\U{200A}'
    || c == '\U{2028}' || c == '\U{2029}' || c == '\U{202F}' || c == '\U{205F}'
    || c == '\U{3000}' || c == '\U{FEFF}'
  }

  /** Every whitespace character of `s` is a plain space. */
  predicate OnlyPlainSpaces(s: string)
  {
    forall i :: 0 <= i < |s| && IsSpace(s[i]) ==> s[i] == ' '
  }

  /** What the strip makes of one character: the character itself when it
      is a word character or whitespace, nothing otherwise. */
  function KeepChar(c: char): string
  {
    if IsWordChar(c) || IsSpace(c) then [c] else ""
  }

  /** `s.replace(/[^\w\s]/g, "")`: drop everything that is neither a word
      character nor whitespace. */
  function KeepWordsAndSpaces(s: string): (r: string)
    ensures forall i :: 0 <= i < |r| ==> IsWordChar(r[i]) || IsSpace(r[i])
    ensures |r| <= |s|
  {
    if |s| == 0 then ""
    else KeepChar(s[0]) + KeepWordsAndSpaces(s[1..])
  }

  /** Stripping keeps every word character and space of its input, in order:
      a string made only of those is left as it is. */
  lemma {:induction false} KeepWordsAndSpacesFixes(s: string)
    requires forall i :: 0 <= i < |s| ==> IsWordChar(s[i]) || IsSpace(s[i])
    ensures KeepWordsAndSpaces(s) == s
  {
    if |s| > 0 {
      KeepWordsAndSpacesFixes(s[1..]);
      assert s == [s[0]] + s[1..];
    }
  }

  /** Stripping is idempotent. */
  lemma KeepWordsAndSpacesIdempotent(s: string)
    ensures KeepWordsAndSpaces(KeepWordsAndSpaces(s)) == KeepWordsAndSpaces(s)
  {
    KeepWordsAndSpacesFixes(KeepWordsAndSpaces(s));
  }

  /** A single character survives stripping exactly when it is a word
      character or whitespace. */
  lemma KeepWordsAndSpacesChar(c: char)
    ensures KeepWordsAndSpaces([c]) == (if IsWordChar(c) || IsSpace(c) then [c] else "")
  {
    assert [c][1..] == "";
  }

  /** Stripping works character by character: it distributes over
      concatenation. With `KeepWordsAndSpacesChar` this fixes the result
      for every input. */
  lemma {:induction false} KeepWordsAndSpacesAppend(a: string, b: string)
    ensures KeepWordsAndSpaces(a + b) == KeepWordsAndSpaces(a) + KeepWordsAndSpaces(b)
  {
    if |a| == 0 {
      assert a + b == b;
    } else {
      var t := a + b;
      assert t[0] == a[0] && t[1..] == a[1..] + b;
      calc {
        KeepWordsAndSpaces(t);
        KeepChar(a[0]) + KeepWordsAndSpaces(a[1..] + b);
        { KeepWordsAndSpacesAppend(a[1..], b); }
        KeepChar(a[0]) + (KeepWordsAndSpaces(a[1..]) + KeepWordsAndSpaces(b));
        (KeepChar(a[0]) + KeepWordsAndSpaces(a[1..])) + KeepWordsAndSpaces(b);
        KeepWordsAndSpaces(a) + KeepWordsAndSpaces(b);
      }
    }
  }

  /** Lowering never introduces whitespace. */
  lemma {:induction false} LowerKeepsPlainSpaces(s: string)
    requires OnlyPlainSpaces(s)
    ensures OnlyPlainSpaces(Lower(s))
  {
    if |s| > 0 {
      LowerKeepsPlainSpaces(s[1..]);
      var head := LowerChar(s[0]);
      assert OnlyPlainSpaces(head);
      var r := Lower(s);
      assert r == head + Lower(s[1..]);
      forall i | 0 <= i < |r| && IsSpace(r[i])
        ensures r[i] == ' '
      {
        if i >= |head| {
          assert r[i] == Lower(s[1..])[i - |head|];
        }
      }
    }
  }

  /** Stripping never introduces whitespace. */
  lemma {:induction false} KeepKeepsPlainSpaces(s: string)
    requires OnlyPlainSpaces(s)
    ensures OnlyPlainSpaces(KeepWordsAndSpaces(s))
  {
    if |s| > 0 {
      KeepKeepsPlainSpaces(s[1..]);
      var head := KeepChar(s[0]);
      var r := KeepWordsAndSpaces(s);
      assert r == head + KeepWordsAndSpaces(s[1..]);
      forall i | 0 <= i < |r| && IsSpace(r[i])
        ensures r[i] == ' '
      {
        if i >= |head| {
          assert r[i] == KeepWordsAndSpaces(s[1..])[i - |head|];
        }
      }
    }
  }

  /* ---------- Substrings ---------- */

  predicate IsPrefix(p: string, s: string)
  {
    |p| <= |s| && s[..|p|] == p
  }

  /** `w` occurs in `s` starting at index `i`. */
  predicate OccursAt(s: string, w: string, i: int)
  {
    0 <= i && i + |w| <= |s| && s[i..i + |w|] == w
  }

  /** `s.includes(w)`, scanning start positions left to right. */
  predicate Contains(s: string, w: string)
    decreases |s|
  {
    IsPrefix(w, s) || (|s| > 0 && Contains(s[1..], w))
  }

  /** The scan agrees with the declarative reading of `includes`: some
      position of `s` holds `w`. */
  lemma {:induction false} ContainsIffOccurs(s: string, w: string)
    ensures Contains(s, w) <==> exists i :: OccursAt(s, w, i)
    decreases |s|
  {
    if IsPrefix(w, s) {
      assert OccursAt(s, w, 0);
    }
    if OccursAt(s, w, 0) {
      assert IsPrefix(w, s);
    }
    if |s| > 0 {
      ContainsIffOccurs(s[1..], w);
      if Contains(s[1..], w) {
        var i :| OccursAt(s[1..], w, i);
        assert s[i + 1..i + 1 + |w|] == s[1..][i..i + |w|];
        assert OccursAt(s, w, i + 1);
      }
      if i :| OccursAt(s, w, i) {
        if i > 0 {
          assert s[1..][i - 1..i - 1 + |w|] == s[i..i + |w|];
          assert OccursAt(s[1..], w, i - 1);
        }
      }
    }
  }

  /** Every character of a contained word is a character of `s`; so a word
      with a character `s` lacks is not contained in it. */
  lemma ContainedWordChars(s: string, w: string)
    ensures Contains(s, w) ==> forall i :: 0 <= i < |w| ==> w[i] in s
  {
    ContainsIffOccurs(s, w);
    if Contains(s, w) {
      var j :| OccursAt(s, w, j);
      forall i | 0 <= i < |w| ensures w[i] in s {
        assert s[j + i] == s[j..j + |w|][i];
      }
    }
  }

  /** A word with a character `s` lacks does not occur in `s`. */
  lemma MissingChar(s: string, w: string, i: int)
    requires 0 <= i < |w| && w[i] !in s
    ensures !Contains(s, w)
  {
    ContainedWordChars(s, w);
  }

  /** Lowering distributes over concatenation. */
  lemma {:induction false} LowerAppend(a: string, b: string)
    ensures Lower(a + b) == Lower(a) + Lower(b)
  {
    if |a| > 0 {
      LowerAppend(a[1..], b);
      assert (a + b)[1..] == a[1..] + b;
    } else {
      assert a + b == b;
    }
  }

  /** `words.some(w => s.includes(w))`. */
  predicate ContainsAny(s: string, words: seq<string>)
  {
    exists k :: 0 <= k < |words| && Contains(s, words[k])
  }

  /** Lowering is idempotent: every character it produces is one it
      leaves alone. */
  lemma {:induction false} LowerIdempotent(s: string)
    ensures Lower(Lower(s)) == Lower(s)
  {
    if |s| > 0 {
      LowerIdempotent(s[1..]);
      LowerFixes(LowerChar(s[0]));
      LowerAppend(LowerChar(s[0]), Lower(s[1..]));
    }
  }

  /** A string built around one that contains `w` contains `w` too. */
  lemma ContainsWithin(a: string, m: string, b: string, w: string)
    requires Contains(m, w)
    ensures Contains(a + m + b, w)
  {
    ContainsIffOccurs(m, w);
    var i :| OccursAt(m, w, i);
    var s := a + m + b;
    assert s[|a| + i..|a| + i + |w|] == m[i..i + |w|];
    assert OccursAt(s, w, |a| + i);
    ContainsIffOccurs(s, w);
  }

  /** A word list matched by some text, in lower case, is matched by any
      text built around it. */
  lemma ContainsAnyWithin(a: string, m: string, b: string, words: seq<string>)
    requires ContainsAny(Lower(m), words)
    ensures ContainsAny(Lower(a + m + b), words)
  {
    var k :| 0 <= k < |words| && Contains(Lower(m), words[k]);
    LowerAppend(a + m, b);
    LowerAppend(a, m);
    ContainsWithin(Lower(a), Lower(m), Lower(b), words[k]);
  }

  /** A listed word that lower-casing leaves alone is found in its own lower
      case. */
  lemma ListedWordFound(w: string, words: seq<string>)
    requires forall i :: 0 <= i < |w| ==> LowerFixesChar(w[i])
    requires w in words
    ensures ContainsAny(Lower(w), words)
  {
    var k :| 0 <= k < |words| && words[k] == w;
    LowerFixes(w);
    assert OccursAt(w, w, 0);
  }

  /* ---------- Splitting ---------- */

  /** `s.split(sep)` for a one-character separator: one part per separator
      occurrence plus one, empty parts included. */
  function SplitOn(s: string, sep: char): (parts: seq<string>)
    ensures |parts| >= 1
    ensures IsPrefix(parts[0], s)
    ensures forall k :: 0 <= k < |parts| ==> sep !in parts[k]
  {
    if |s| == 0 then [""]
    else
      var rest := SplitOn(s[1..], sep);
      if s[0] == sep then [""] + rest else [[s[0]] + rest[0]] + rest[1..]
  }

  /** `parts.join(sep)`. */
  function Join(parts: seq<string>, sep: char): string
    requires |parts| >= 1
  {
    if |parts| == 1 then parts[0] else parts[0] + [sep] + Join(parts[1..], sep)
  }

  /** Splitting then joining gives back the original string. */
  lemma {:induction false} JoinSplitOn(s: string, sep: char)
    ensures Join(SplitOn(s, sep), sep) == s
  {
    if |s| > 0 {
      JoinSplitOn(s[1..], sep);
      var rest := SplitOn(s[1..], sep);
      if s[0] == sep {
        assert s == [sep] + s[1..];
      } else {
        var parts := [[s[0]] + rest[0]] + rest[1..];
        if |rest| == 1 {
          assert Join(parts, sep) == [s[0]] + rest[0];
        } else {
          assert parts[1..] == rest[1..];
          assert Join(parts, sep) == [s[0]] + rest[0] + [sep] + Join(rest[1..], sep);
          assert Join(rest, sep) == rest[0] + [sep] + Join(rest[1..], sep);
        }
      }
    }
  }

  /** A string free of the separator is a single part. */
  lemma {:induction false} SplitOnWithout(s: string, sep: char)
    requires sep !in s
    ensures SplitOn(s, sep) == [s]
  {
    if |s| > 0 {
      SplitOnWithout(s[1..], sep);
      assert s == [s[0]] + s[1..];
    }
  }

  /** A separator-free head followed by the separator splits off as the
      first part. */
  lemma {:induction false} SplitOnCons(a: string, sep: char, b: string)
    requires sep !in a
    ensures SplitOn(a + [sep] + b, sep) == [a] + SplitOn(b, sep)
  {
    if |a| == 0 {
      assert a + [sep] + b == [sep] + b;
      assert ([sep] + b)[1..] == b;
    } else {
      SplitOnCons(a[1..], sep, b);
      var s := a + [sep] + b;
      assert s[0] == a[0];
      assert s[1..] == a[1..] + [sep] + b;
      assert a == [a[0]] + a[1..];
    }
  }

  /** Joining separator-free parts and splitting again gives back the parts. */
  lemma {:induction false} SplitOnJoin(parts: seq<string>, sep: char)
    requires |parts| >= 1
    requires forall k :: 0 <= k < |parts| ==> sep !in parts[k]
    ensures SplitOn(Join(parts, sep), sep) == parts
  {
    if |parts| == 1 {
      SplitOnWithout(parts[0], sep);
    } else {
      SplitOnJoin(parts[1..], sep);
      SplitOnCons(parts[0], sep, Join(parts[1..], sep));
      assert parts == [parts[0]] + parts[1..];
    }
  }

  /** Every part of a split occurs in the split string. */
  lemma {:induction false} SplitPartsContained(s: string, sep: char)
    ensures forall k :: 0 <= k < |SplitOn(s, sep)| ==> Contains(s, SplitOn(s, sep)[k])
  {
    var parts := SplitOn(s, sep);
    if |s| > 0 {
      SplitPartsContained(s[1..], sep);
      var rest := SplitOn(s[1..], sep);
      forall k | 0 <= k < |parts| ensures Contains(s, parts[k]) {
        if k == 0 {
          assert IsPrefix(parts[0], s);
        } else if s[0] == sep {
          assert parts[k] == rest[k - 1];
        } else {
          assert parts[k] == rest[k];
        }
      }
    }
  }

  /** No character of `w` is whitespace. */
  predicate NoSpace(w: string)
  {
    forall i :: 0 <= i < |w| ==> !IsSpace(w[i])
  }

  /** `s.split(/\s+/)`: split at every maximal run of whitespace. A leading
      or trailing run yields an empty first or last part. */
  function SplitOnSpaceRuns(s: string): (parts: seq<string>)
    ensures |parts| >= 1
    ensures forall k :: 0 <= k < |parts| ==> NoSpace(parts[k])
  {
    if |s| == 0 then [""]
    else
      var rest := SplitOnSpaceRuns(s[1..]);
      if IsSpace(s[0]) then
        (if |s| > 1 && IsSpace(s[1]) then rest else [""] + rest)
      else [[s[0]] + rest[0]] + rest[1..]
  }

  /** A string without whitespace is a single part. */
  lemma {:induction false} SplitOnSpaceRunsWithout(s: string)
    requires NoSpace(s)
    ensures SplitOnSpaceRuns(s) == [s]
  {
    if |s| > 0 {
      SplitOnSpaceRunsWithout(s[1..]);
      assert s == [s[0]] + s[1..];
    }
  }

  /** A whitespace-free head followed by one whitespace character and a
      word, or by nothing, splits off as the first part. */
  lemma {:induction false} SplitOnSpaceRunsCons(a: string, c: char, b: string)
    requires NoSpace(a) && IsSpace(c) && (|b| == 0 || !IsSpace(b[0]))
    ensures SplitOnSpaceRuns(a + [c] + b) == [a] + SplitOnSpaceRuns(b)
  {
    var s := a + [c] + b;
    if |a| == 0 {
      assert s == [c] + b;
      assert s[1..] == b;
    } else {
      SplitOnSpaceRunsCons(a[1..], c, b);
      assert s[0] == a[0];
      assert s[1..] == a[1..] + [c] + b;
      assert a == [a[0]] + a[1..];
    }
  }

  /** The parts laid end to end. */
  function Concat(parts: seq<string>): string
  {
    if |parts| == 0 then "" else parts[0] + Concat(parts[1..])
  }

  /** `s` with every whitespace character removed. */
  function RemoveSpaces(s: string): (r: string)
    ensures NoSpace(r)
  {
    if |s| == 0 then ""
    else (if IsSpace(s[0]) then "" else [s[0]]) + RemoveSpaces(s[1..])
  }

  /** `s` with every maximal run of whitespace replaced by one plain space. */
  function CollapseSpaces(s: string): string
  {
    if |s| == 0 then ""
    else if IsSpace(s[0]) && |s| > 1 && IsSpace(s[1]) then CollapseSpaces(s[1..])
    else if IsSpace(s[0]) then " " + CollapseSpaces(s[1..])
    else [s[0]] + CollapseSpaces(s[1..])
  }

  /** The parts of a whitespace split, laid end to end, are the input with
      its whitespace removed: splitting loses nothing but whitespace. */
  lemma {:induction false} SplitOnSpaceRunsConcat(s: string)
    ensures Concat(SplitOnSpaceRuns(s)) == RemoveSpaces(s)
  {
    if |s| > 0 {
      SplitOnSpaceRunsConcat(s[1..]);
      var rest := SplitOnSpaceRuns(s[1..]);
      if IsSpace(s[0]) {
        if !(|s| > 1 && IsSpace(s[1])) {
          assert ([""] + rest)[1..] == rest;
        }
      } else {
        var parts := [[s[0]] + rest[0]] + rest[1..];
        assert parts[1..] == rest[1..];
        assert Concat(rest) == rest[0] + Concat(rest[1..]);
        assert Concat(parts) == [s[0]] + rest[0] + Concat(rest[1..]);
      }
    }
  }

  /** Only the first and the last part of a whitespace split can be empty:
      every part in between is a whole word. */
  lemma {:induction false} SplitOnSpaceRunsInterior(s: string)
    ensures forall k :: 0 < k < |SplitOnSpaceRuns(s)| - 1 ==> SplitOnSpaceRuns(s)[k] != ""
  {
    if |s| > 0 {
      SplitOnSpaceRunsInterior(s[1..]);
      var rest := SplitOnSpaceRuns(s[1..]);
      var parts := SplitOnSpaceRuns(s);
      if IsSpace(s[0]) && !(|s| > 1 && IsSpace(s[1])) {
        assert |s| > 1 ==> rest[0] != "";
        forall k | 0 < k < |parts| - 1 ensures parts[k] != "" {
          assert parts[k] == rest[k - 1];
        }
      } else if !IsSpace(s[0]) {
        forall k | 0 < k < |parts| - 1 ensures parts[k] != "" {
          assert parts[k] == rest[k];
        }
      }
    }
  }

  /** Joining the parts of a whitespace split with single spaces gives the
      input with each run of whitespace collapsed to one space. */
  lemma {:induction false} JoinSplitOnSpaceRuns(s: string)
    ensures Join(SplitOnSpaceRuns(s), ' ') == CollapseSpaces(s)
  {
    if |s| > 0 {
      JoinSplitOnSpaceRuns(s[1..]);
      var rest := SplitOnSpaceRuns(s[1..]);
      if IsSpace(s[0]) {
        if !(|s| > 1 && IsSpace(s[1])) {
          assert ([""] + rest)[1..] == rest;
        }
      } else {
        var parts := [[s[0]] + rest[0]] + rest[1..];
        if |rest| > 1 {
          assert parts[1..] == rest[1..];
          assert Join(parts, ' ') == [s[0]] + rest[0] + [' '] + Join(rest[1..], ' ');
        }
      }
    }
  }

  /** Conversely, whitespace-free parts whose inner parts are non-empty,
      joined with single spaces, split back into the same parts. */
  lemma {:induction false} SplitOnSpaceRunsJoin(parts: seq<string>)
    requires |parts| >= 1
    requires forall k :: 0 <= k < |parts| ==> NoSpace(parts[k])
    requires forall k :: 0 < k < |parts| - 1 ==> parts[k] != ""
    ensures SplitOnSpaceRuns(Join(parts, ' ')) == parts
  {
    if |parts| == 1 {
      SplitOnSpaceRunsWithout(parts[0]);
    } else {
      var tail := parts[1..];
      SplitOnSpaceRunsJoin(tail);
      var b := Join(tail, ' ');
      if |tail| > 1 {
        assert b == tail[0] + [' '] + Join(tail[1..], ' ');
        assert b[0] == parts[1][0];
      }
      SplitOnSpaceRunsCons(parts[0], ' ', b);
      assert parts == [parts[0]] + tail;
    }
  }

  /** The characters up to the first whitespace character. */
  function LeadingWord(s: string): (w: string)
    ensures NoSpace(w)
  {
    if |s| == 0 || IsSpace(s[0]) then "" else [s[0]] + LeadingWord(s[1..])
  }

  /** Drop the empty parts. */
  function DropEmpty(parts: seq<string>): (r: seq<string>)
    ensures forall k :: 0 <= k < |r| ==> r[k] != ""
  {
    if |parts| == 0 then []
    else if parts[0] == "" then DropEmpty(parts[1..])
    else [parts[0]] + DropEmpty(parts[1..])
  }

  /** The first part of either split is the leading word, when every
      whitespace character is a plain space. */
  lemma {:induction false} FirstPartIsLeadingWord(s: string)
    requires OnlyPlainSpaces(s)
    ensures SplitOn(s, ' ')[0] == LeadingWord(s)
    ensures SplitOnSpaceRuns(s)[0] == LeadingWord(s)
  {
    if |s| > 0 {
      assert OnlyPlainSpaces(s[1..]) by {
        forall i | 0 <= i < |s[1..]| && IsSpace(s[1..][i]) ensures s[1..][i] == ' ' {
          assert s[1..][i] == s[i + 1];
        }
      }
      FirstPartIsLeadingWord(s[1..]);
    }
  }

  /** Once empty parts are dropped, splitting at every space and splitting
      at whitespace runs agree on a string whose only whitespace is the plain
      space. */
  lemma {:induction false} SplitsAgreeOnWords(s: string)
    requires OnlyPlainSpaces(s)
    ensures DropEmpty(SplitOn(s, ' ')) == DropEmpty(SplitOnSpaceRuns(s))
  {
    if |s| > 0 {
      var t := s[1..];
      assert OnlyPlainSpaces(t) by {
        forall i | 0 <= i < |t| && IsSpace(t[i]) ensures t[i] == ' ' {
          assert t[i] == s[i + 1];
        }
      }
      SplitsAgreeOnWords(t);
      FirstPartIsLeadingWord(t);
      var a := SplitOn(t, ' ');
      var b := SplitOnSpaceRuns(t);
      if s[0] == ' ' {
        if |s| > 1 && IsSpace(s[1]) {
        } else {
          assert DropEmpty([""] + b) == DropEmpty(b);
        }
        assert DropEmpty([""] + a) == DropEmpty(a);
      } else {
        assert !IsSpace(s[0]);
        var w := [s[0]] + a[0];
        assert SplitOn(s, ' ') == [w] + a[1..];
        assert SplitOnSpaceRuns(s) == [w] + b[1..];
        assert a[0] == b[0];
        assert DropEmpty([w] + a[1..]) == [w] + DropEmpty(a[1..]);
        assert DropEmpty([w] + b[1..]) == [w] + DropEmpty(b[1..]);
        assert a == [a[0]] + a[1..];
        assert b == [b[0]] + b[1..];
        if a[0] == "" {
          assert DropEmpty(a) == DropEmpty(a[1..]);
          assert DropEmpty(b) == DropEmpty(b[1..]);
        } else {
          assert DropEmpty(a) == [a[0]] + DropEmpty(a[1..]);
          assert DropEmpty(b) == [b[0]] + DropEmpty(b[1..]);
          assert DropEmpty(a[1..]) == DropEmpty(a)[1..] == DropEmpty(b)[1..] == DropEmpty(b[1..]);
        }
      }
    }
  }

  /* ---------- Decimal numerals ---------- */

  predicate IsDigit(c: char)
  {
    '0' <= c <= '9'
  }

  predicate AllDigits(s: string)
  {
    forall i :: 0 <= i < |s| ==> IsDigit(s[i])
  }

  function DigitChar(d: nat): (c: char)
    requires d < 10
    ensures IsDigit(c)
  {
    ('0' as int + d) as char
  }

  /** `String(n)` for a non-negative integer: shortest decimal numeral. */
  function ShowNat(n: nat): (s: string)
    ensures |s| >= 1 && AllDigits(s)
    ensures |s| > 1 ==> s[0] != '0'
  {
    if n < 10 then [DigitChar(n)] else ShowNat(n / 10) + [DigitChar(n % 10)]
  }

  /** The value of a string of decimal digits (the empty string reads as 0). */
  function ReadDigits(s: string): nat
    requires AllDigits(s)
  {
    if |s| == 0 then 0 else 10 * ReadDigits(s[..|s| - 1]) + (s[|s| - 1] as int - '0' as int)
  }

  /** Reading back a rendered numeral gives the number. */
  lemma {:induction false} ReadShowNat(n: nat)
    ensures ReadDigits(ShowNat(n)) == n
  {
    if n >= 10 {
      ReadShowNat(n / 10);
      var s := ShowNat(n);
      assert s[..|s| - 1] == ShowNat(n / 10);
    }
  }
}
