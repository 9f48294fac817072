/** The heuristic verdict of the detector view: a case-insensitive keyword
    test, a capital-letter ratio and an exclamation-mark count, combined into
    a verdict, a confidence score, a category and an explanation. Everything
    here is a pure function of the input text. */
module Classifier {

  /** The fixed keyword list, in the order the detector lists it. */
  const HateKeywords: seq<string> := [
    "hate", "stupid", "idiot", "kill", "die", "ugly", "worthless",
    "pathetic", "loser", "trash", "garbage", "disgusting"
  ]

  const HarmfulExplanation: string := "Contains potentially harmful language or aggressive tone patterns"
  const SafeExplanation: string := "No hate speech patterns detected in the content"

  datatype Category = OffensiveLanguage | AggressiveTone | SafeContent
  {
    /** The label the detector displays for the category. */
    function Label(): string
    {
      match this
      case OffensiveLanguage => "Offensive Language"
      case AggressiveTone => "Aggressive Tone"
      case SafeContent => "Safe Content"
    }
  }

  /** Distinct categories carry distinct labels, so the displayed label
      tells the category. */
  lemma LabelsDistinguish(a: Category, b: Category)
    ensures a.Label() == b.Label() <==> a == b
  {
    assert "Offensive Language"[0] == 'O' && "Aggressive Tone"[0] == 'A' && "Safe Content"[0] == 'S';
  }

  /** The verdict on one text; `confidence` is a whole percentage. */
  datatype Analysis = Analysis(
    isHateSpeech: bool,
    confidence: int,
    category: Category,
    explanation: string)

  function Min(a: int, b: int): int { if a <= b then a else b }
  function Max(a: int, b: int): int { if a >= b then a else b }

  // ---------------------------------------------------------------- characters

  /** The character class `[A-Z]` of the capital-letter count. */
  predicate IsUpper(c: char) { 'A' <= c <= 'Z' }

  /** Lower-casing of one character (ASCII letters only). */
  function LowerChar(c: char): (d: char)
    ensures !IsUpper(d)
  {
    if IsUpper(c) then (c as int + 32) as char else c
  }

  function ToLower(s: string): (t: string)
    ensures |t| == |s|
  {
    seq(|s|, i requires 0 <= i < |s| => LowerChar(s[i]))
  }

  // ---------------------------------------------------------------- substring search

  /** `s.includes(k)`, as a left-to-right search. */
  function Includes(s: string, k: string): bool
    decreases |s|
  {
    if k <= s then true
    else if s == [] then false
    else Includes(s[1..], k)
  }

  /** `k` sits in `s` starting at index `i`. */
  ghost predicate OccursAt(s: string, k: string, i: int)
  {
    0 <= i && i + |k| <= |s| && s[i..i + |k|] == k
  }

  /** The reference meaning of a substring test: some index where `k` sits. */
  ghost predicate Occurs(s: string, k: string)
  {
    exists i :: OccursAt(s, k, i)
  }

  /** The search finds `k` exactly when `k` sits somewhere in `s`. */
  lemma {:induction false} IncludesIffOccurs(s: string, k: string)
    ensures Includes(s, k) <==> Occurs(s, k)
    decreases |s|
  {
    if k <= s {
      assert OccursAt(s, k, 0);
    } else if s == [] {
      assert forall i :: !OccursAt(s, k, i);
    } else {
      IncludesIffOccurs(s[1..], k);
      if Occurs(s, k) {
        var i :| OccursAt(s, k, i);
        assert i != 0;
        assert s[1..][i - 1..i - 1 + |k|] == s[i..i + |k|];
        assert OccursAt(s[1..], k, i - 1);
      }
      if Occurs(s[1..], k) {
        var j :| OccursAt(s[1..], k, j);
        assert s[1..][j..j + |k|] == s[j + 1..j + 1 + |k|];
        assert OccursAt(s, k, j + 1);
      }
    }
  }

  // ---------------------------------------------------------------- counts

  /** The length of `text.match(/[A-Z]/g) || []`. */
  function CountUpper(s: string): (n: nat)
    ensures n <= |s|
    ensures n == 0 <==> forall i :: 0 <= i < |s| ==> !IsUpper(s[i])
  {
    if s == [] then 0
    else (if IsUpper(s[0]) then 1 else 0) + CountUpper(s[1..])
  }

  /** The capital count of a concatenation is the sum of the counts. */
  lemma {:induction false} CountUpperAppend(a: string, b: string)
    ensures CountUpper(a + b) == CountUpper(a) + CountUpper(b)
  {
    if a == [] {
      assert a + b == b;
    } else {
      assert (a + b)[0] == a[0];
      assert (a + b)[1..] == a[1..] + b;
      CountUpperAppend(a[1..], b);
    }
  }

  /** A text made only of capitals counts every character. */
  lemma {:induction false} CountUpperAllUpper(s: string)
    requires forall i :: 0 <= i < |s| ==> IsUpper(s[i])
    ensures CountUpper(s) == |s|
  {
    if s != [] {
      assert forall i :: 0 <= i < |s[1..]| ==> IsUpper(s[1..][i]) by {
        forall i | 0 <= i < |s[1..]| ensures IsUpper(s[1..][i]) {
          assert s[1..][i] == s[i + 1];
        }
      }
      CountUpperAllUpper(s[1..]);
    }
  }

  /** The number of occurrences of the character `c` in `s`. */
  function CountChar(s: string, c: char): (n: nat)
    ensures n <= |s|
    ensures n == 0 <==> c !in s
  {
    if s == [] then 0
    else (if s[0] == c then 1 else 0) + CountChar(s[1..], c)
  }

  /** The count is the number of times `c` occurs in `s`. */
  lemma {:induction false} CountCharIsMultiplicity(s: string, c: char)
    ensures CountChar(s, c) == multiset(s)[c]
  {
    if s != [] {
      assert s == [s[0]] + s[1..];
      CountCharIsMultiplicity(s[1..], c);
    }
  }

  // ---------------------------------------------------------------- the three signals

  /** `hateSpeechKeywords.some(keyword => text_lower.includes(keyword))`. */
  predicate HasHateKeywords(text: string)
  {
    exists j :: 0 <= j < |HateKeywords| && Includes(ToLower(text), HateKeywords[j])
  }

  /** Some keyword sits, as a substring, in the lower-cased text. */
  ghost predicate KeywordOccurs(text: string)
  {
    exists j :: 0 <= j < |HateKeywords| && Occurs(ToLower(text), HateKeywords[j])
  }

  /** The capital letters make up more than half of the text. For the empty
      text the source's ratio is 0 / 0, which is not greater than 0.5, and so
      is this test. */
  predicate HasExcessiveCaps(text: string)
  {
    2 * CountUpper(text) > |text|
  }

  /** More than two exclamation marks. */
  predicate HasMultipleExclamations(text: string)
  {
    CountChar(text, '!') > 2
  }

  // ---------------------------------------------------------------- confidence

  /** The hate-branch score: 60, plus 30 for a keyword, plus 10 for excessive
      capitals, at most 95. */
  function HateConfidence(keywords: bool, caps: bool): int
  {
    Min(95, 60 + (if keywords then 30 else 0) + (if caps then 10 else 0))
  }

  /** The safe-branch score `Math.round(Math.max(15, 85 - len * 0.1))`, in
      exact arithmetic. Rounding half up of x is floor(x + 1/2), and
      85 - len/10 + 1/2 = (855 - len) / 10; rounding commutes with the
      maximum because 15 is a whole number. */
  function SafeConfidence(len: nat): (c: int)
    ensures 15 <= c <= 85
    ensures len >= 700 ==> c == 15
    ensures len < 700 ==> 10 * c - 5 <= 850 - len < 10 * c + 5
  {
    Max(15, (855 - len) / 10)
  }

  /** The safe-branch score never grows as the text gets longer. */
  lemma SafeConfidenceNonIncreasing(m: nat, n: nat)
    requires m <= n
    ensures SafeConfidence(n) <= SafeConfidence(m)
  {
  }

  // ---------------------------------------------------------------- the verdict

  /** The detector's `analyzeText` verdict on `text`. */
  function Classify(text: string): (r: Analysis)
    ensures r.category == SafeContent <==> !r.isHateSpeech
    ensures r.explanation == (if r.isHateSpeech then HarmfulExplanation else SafeExplanation)
    ensures 15 <= r.confidence <= 95
  {
    var hasHateKeywords := HasHateKeywords(text);
    var hasExcessiveCaps := HasExcessiveCaps(text);
    var hasMultipleExclamations := HasMultipleExclamations(text);
    var isHateSpeech := hasHateKeywords || (hasExcessiveCaps && hasMultipleExclamations);
    var confidence :=
      if isHateSpeech then HateConfidence(hasHateKeywords, hasExcessiveCaps)
      else SafeConfidence(|text|);
    var category :=
      if isHateSpeech then (if hasHateKeywords then OffensiveLanguage else AggressiveTone)
      else SafeContent;
    var explanation := if isHateSpeech then HarmfulExplanation else SafeExplanation;
    Analysis(isHateSpeech, confidence, category, explanation)
  }

  /** The keyword test of `Classify` is a substring test on the lower-cased text. */
  lemma {:induction false} KeywordTestIsSubstring(text: string)
    ensures HasHateKeywords(text) <==> KeywordOccurs(text)
  {
    forall j | 0 <= j < |HateKeywords|
      ensures Includes(ToLower(text), HateKeywords[j]) <==> Occurs(ToLower(text), HateKeywords[j])
    {
      IncludesIffOccurs(ToLower(text), HateKeywords[j]);
    }
  }

  /** The verdict and the category, in terms of what the text contains. */
  lemma {:induction false} ClassifyVerdict(text: string)
    ensures Classify(text).isHateSpeech <==>
      KeywordOccurs(text) || (2 * CountUpper(text) > |text| && CountChar(text, '!') > 2)
    ensures Classify(text).category == OffensiveLanguage <==> KeywordOccurs(text)
    ensures Classify(text).category == AggressiveTone <==>
      !KeywordOccurs(text) && 2 * CountUpper(text) > |text| && CountChar(text, '!') > 2
  {
    KeywordTestIsSubstring(text);
  }

  /** The confidence of each branch. */
  lemma {:induction false} ClassifyConfidence(text: string)
    ensures var r := Classify(text);
      (r.category == OffensiveLanguage && !HasExcessiveCaps(text) ==> r.confidence == 90) &&
      (r.category == OffensiveLanguage && HasExcessiveCaps(text) ==> r.confidence == 95) &&
      (r.category == AggressiveTone ==> r.confidence == 70) &&
      (r.category == SafeContent ==> 15 <= r.confidence <= 85) &&
      (r.category == SafeContent && |text| >= 700 ==> r.confidence == 15) &&
      (r.category == SafeContent && |text| < 700 ==>
        10 * r.confidence - 5 <= 850 - |text| < 10 * r.confidence + 5)
  {
  }

  /** Of two texts classified safe, the longer one never scores higher. */
  lemma SafeConfidenceByLength(a: string, b: string)
    requires !Classify(a).isHateSpeech && !Classify(b).isHateSpeech
    requires |a| <= |b|
    ensures Classify(b).confidence <= Classify(a).confidence
  {
    SafeConfidenceNonIncreasing(|a|, |b|);
  }

  /** A text in which some keyword sits is offensive; its score is 95 with
      excessive capitals and 90 without. */
  lemma {:induction false} OffensiveWhenKeywordAt(text: string, j: nat, i: nat)
    requires j < |HateKeywords| && OccursAt(ToLower(text), HateKeywords[j], i)
    ensures Classify(text).category == OffensiveLanguage
    ensures Classify(text).confidence == if HasExcessiveCaps(text) then 95 else 90
  {
    KeywordTestIsSubstring(text);
  }

  /** A text with no keyword and no excessive capitals is safe, whatever its
      exclamation marks. */
  lemma {:induction false} SafeWhen(text: string)
    requires !KeywordOccurs(text) && !HasExcessiveCaps(text)
    ensures Classify(text).category == SafeContent
    ensures Classify(text).confidence == SafeConfidence(|text|)
  {
    KeywordTestIsSubstring(text);
  }

  /** A keyword with a letter that the text lacks does not sit in the text. */
  lemma MissingLetter(s: string, k: string, c: char)
    requires c in k && c !in s
    ensures !Occurs(s, k)
  {
    var m :| 0 <= m < |k| && k[m] == c;
    forall i | 0 <= i && i + |k| <= |s|
      ensures !OccursAt(s, k, i)
    {
      assert s[i..i + |k|][m] == s[i + m] != c;
    }
  }

  /** Lower-casing commutes with taking a slice. */
  lemma LowerSlice(s: string, i: nat, j: nat)
    requires i <= j <= |s|
    ensures ToLower(s)[i..j] == ToLower(s[i..j])
  {
  }

  /** Matching is by substring, not by word: "studied" contains "die". */
  lemma StudiedIsOffensive()
    ensures Classify("studied").category == OffensiveLanguage
    ensures Classify("studied").confidence == 90
  {
    var lower := ToLower("studied");
    assert lower == "studied";
    assert OccursAt(lower, HateKeywords[4], 3);
    OffensiveWhenKeywordAt("studied", 4, 3);
  }
}
