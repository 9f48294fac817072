/** The detector view's state: the input gate of the Analyze button, the
    latest result, the "analysing" flag and the five most recent analyses. */
module Detector {
  import opened Wrappers
  import opened Classifier

  /** A point in time as the caller supplies it; the model never reads a clock. */
  type Instant = int

  const HistoryCapacity: nat := 5
  const SnippetLength: nat := 50

  /** One line of the "Recent Analyses" list. */
  datatype Record = Record(text: string, isHateSpeech: bool, confidence: int, timestamp: Instant)

  /** What the Analyze button does with the current input. */
  datatype Outcome =
    | EmptyInput      // "Please enter some text to analyze"
    | ModelLoading    // "Please wait for the model to finish loading"
    | Started         // the analysis has begun

  // ---------------------------------------------------------------- blank input

  /** The code points `String.prototype.trim` removes: the ECMAScript
      WhiteSpace and LineTerminator characters. */
  predicate IsWhitespace(c: char)
  {
    c == '\t' || c == '\n' || c == '\U{000B}' || c == '\U{000C}' || c == '\r' || c == ' '
    || c == '\U{00A0}' || c == '\U{1680}' || ('\U{2000}' <= c <= '\U{200A}')
    || c == '\U{2028}' || c == '\U{2029}' || c == '\U{202F}' || c == '\U{205F}'
    || c == '\U{3000}' || c == '\U{FEFF}'
  }

  /** Every character is whitespace (the empty text included). */
  predicate IsBlank(s: string)
  {
    forall i :: 0 <= i < |s| ==> IsWhitespace(s[i])
  }

  function TrimStart(s: string): string
  {
    if s != [] && IsWhitespace(s[0]) then TrimStart(s[1..]) else s
  }

  function TrimEnd(s: string): string
  {
    if s != [] && IsWhitespace(s[|s| - 1]) then TrimEnd(s[..|s| - 1]) else s
  }

  /** `s.trim()`. */
  function Trim(s: string): string
  {
    TrimEnd(TrimStart(s))
  }

  lemma {:induction false} TrimStartKeepsBlankness(s: string)
    ensures IsBlank(TrimStart(s)) <==> IsBlank(s)
  {
    if s != [] && IsWhitespace(s[0]) {
      TrimStartKeepsBlankness(s[1..]);
      assert IsBlank(s) <==> IsBlank(s[1..]) by {
        if IsBlank(s[1..]) {
          forall i | 0 <= i < |s| ensures IsWhitespace(s[i]) {
            if i > 0 { assert s[i] == s[1..][i - 1]; }
          }
        }
      }
    }
  }

  lemma {:induction false} TrimEndEmptyIffBlank(s: string)
    ensures TrimEnd(s) == [] <==> IsBlank(s)
  {
    if s != [] && IsWhitespace(s[|s| - 1]) {
      var front := s[..|s| - 1];
      TrimEndEmptyIffBlank(front);
      assert IsBlank(s) <==> IsBlank(front) by {
        if IsBlank(front) {
          forall i | 0 <= i < |s| ensures IsWhitespace(s[i]) {
            if i < |s| - 1 { assert s[i] == front[i]; }
          }
        }
      }
    }
  }

  /** `!text.trim()` holds exactly for blank text. */
  lemma {:induction false} TrimEmptyIffBlank(s: string)
    ensures Trim(s) == [] <==> IsBlank(s)
  {
    TrimStartKeepsBlankness(s);
    TrimEndEmptyIffBlank(TrimStart(s));
  }

  // ---------------------------------------------------------------- history

  /** The text shown for an analysis: its first 50 characters, and "..."
      after them when there were more. */
  function Snippet(text: string): (s: string)
    ensures |text| <= SnippetLength ==> s == text
    ensures |text| > SnippetLength ==>
      |s| == SnippetLength + 3 && s[..SnippetLength] == text[..SnippetLength] && s[SnippetLength..] == "..."
  {
    text[..Min(SnippetLength, |text|)] + (if |text| > SnippetLength then "..." else "")
  }

  /** The history line for an analysis of `text` finished at `now`. */
  function MakeRecord(text: string, r: Analysis, now: Instant): Record
  {
    Record(Snippet(text), r.isHateSpeech, r.confidence, now)
  }

  /** `[record, ...prev.slice(0, 4)]`: the new record first, then the four
      most recent earlier ones in their order. */
  function Prepend(rec: Record, prev: seq<Record>): (h: seq<Record>)
    ensures |h| == Min(|prev| + 1, HistoryCapacity)
    ensures h[0] == rec
    ensures forall i :: 1 <= i < |h| ==> h[i] == prev[i - 1]
  {
    [rec] + prev[..Min(|prev|, HistoryCapacity - 1)]
  }

  /** The history after recording `recs` one after another, oldest first,
      starting from the empty list. */
  function HistoryOf(recs: seq<Record>): seq<Record>
  {
    if recs == [] then [] else Prepend(recs[|recs| - 1], HistoryOf(recs[..|recs| - 1]))
  }

  /** After any number of analyses the list holds the last five, most recent first. */
  lemma {:induction false} HistoryKeepsLastFive(recs: seq<Record>)
    ensures |HistoryOf(recs)| == Min(|recs|, HistoryCapacity)
    ensures forall i :: 0 <= i < |HistoryOf(recs)| ==> HistoryOf(recs)[i] == recs[|recs| - 1 - i]
  {
    if recs != [] {
      var older := recs[..|recs| - 1];
      HistoryKeepsLastFive(older);
      var h := HistoryOf(recs);
      forall i | 0 <= i < |h| ensures h[i] == recs[|recs| - 1 - i] {
        if i > 0 {
          assert h[i] == HistoryOf(older)[i - 1];
          assert older[|older| - 1 - (i - 1)] == recs[|recs| - 1 - i];
        }
      }
    }
  }

  /** What every history line satisfies. */
  ghost predicate WellFormedRecord(rec: Record)
  {
    15 <= rec.confidence <= 95 && |rec.text| <= SnippetLength + 3
  }

  ghost predicate WellFormedHistory(h: seq<Record>)
  {
    |h| <= HistoryCapacity && forall i :: 0 <= i < |h| ==> WellFormedRecord(h[i])
  }

  /** A record made from a verdict keeps its flag and score and is well formed. */
  lemma RecordOfVerdict(text: string, now: Instant)
    ensures var rec := MakeRecord(text, Classify(text), now);
      WellFormedRecord(rec) &&
      rec.isHateSpeech == Classify(text).isHateSpeech &&
      rec.confidence == Classify(text).confidence &&
      rec.timestamp == now
  {
  }

  /** Adding a well-formed record keeps the history well formed. */
  lemma {:induction false} PrependKeepsWellFormed(rec: Record, prev: seq<Record>)
    requires WellFormedRecord(rec) && WellFormedHistory(prev)
    ensures WellFormedHistory(Prepend(rec, prev))
  {
    var h := Prepend(rec, prev);
    forall i | 0 <= i < |h| ensures WellFormedRecord(h[i]) {
      if i > 0 { assert h[i] == prev[i - 1]; }
    }
  }

  /** The decision of the Analyze button: blank input first, then readiness. */
  function Gate(inputText: string, isModelReady: bool): (o: Outcome)
    ensures o == EmptyInput <==> IsBlank(inputText)
    ensures o == ModelLoading <==> !IsBlank(inputText) && !isModelReady
    ensures o == Started <==> !IsBlank(inputText) && isModelReady
  {
    TrimEmptyIffBlank(inputText);
    if Trim(inputText) == [] then EmptyInput
    else if !isModelReady then ModelLoading
    else Started
  }

  // ---------------------------------------------------------------- the component

  class HateSpeechDetector {
    var isAnalyzing: bool
    var result: Option<Analysis>
    var recentAnalyses: seq<Record>

    ghost predicate Valid()
      reads this
    {
      WellFormedHistory(recentAnalyses)
    }

    /** The component as first rendered: idle, no result, empty history. */
    constructor ()
      ensures Valid()
      ensures !isAnalyzing && result == None && recentAnalyses == []
    {
      isAnalyzing := false;
      result := None;
      recentAnalyses := [];
    }

    /** `handleAnalyze`: rejects blank input, then rejects input while the
        model loads; otherwise starts the analysis, whose synchronous first
        step raises the "analysing" flag. A rejection changes nothing. */
    method HandleAnalyze(inputText: string, isModelReady: bool) returns (outcome: Outcome)
      modifies this`isAnalyzing
      ensures outcome == Gate(inputText, isModelReady)
      ensures outcome == Started ==> isAnalyzing
      ensures outcome != Started ==> isAnalyzing == old(isAnalyzing)
    {
      TrimEmptyIffBlank(inputText);
      if Trim(inputText) == [] {
        return EmptyInput;
      }
      if !isModelReady {
        return ModelLoading;
      }
      isAnalyzing := true;
      outcome := Started;
    }

    /** The rest of `analyzeText` once the simulated delay is over: the
        verdict becomes the result, its record heads the history, and the
        "analysing" flag drops. */
    method CompleteAnalysis(text: string, now: Instant)
      requires Valid()
      modifies this
      ensures Valid()
      ensures result == Some(Classify(text))
      ensures recentAnalyses == Prepend(MakeRecord(text, Classify(text), now), old(recentAnalyses))
      ensures !isAnalyzing
    {
      var verdict := Classify(text);
      result := Some(verdict);
      RecordOfVerdict(text, now);
      PrependKeepsWellFormed(MakeRecord(text, verdict, now), recentAnalyses);
      recentAnalyses := Prepend(MakeRecord(text, verdict, now), recentAnalyses);
      isAnalyzing := false;
    }
  }
}
