/**
 * The JavaScript Gemini service: the chat history mapping, the parsing of
 * generated LinkedIn post variations with a global `exec` loop, and the
 * mock engagement prediction from `Math.random`.
 */
module GeminiServiceJs {
  import opened Common
  import opened GeminiFormat
  import Py = GeminiServicePy

  /** `getChatCompletion` always sends the empty message; the conversation travels as history. */
  const ChatPrompt := ""

  /** The history of `getChatCompletion`: every message, in order, with "assistant" as "model". */
  function JsHistory(msgs: seq<ChatMessage>): (h: seq<HistoryEntry>)
    ensures |h| == |msgs|
    ensures forall k :: 0 <= k < |msgs| ==> h[k].text == msgs[k].content
    ensures forall k :: 0 <= k < |msgs| ==> (h[k].role == "model" <==> msgs[k].role == "assistant" || msgs[k].role == "model")
    ensures forall k :: 0 <= k < |msgs| && msgs[k].role != "assistant" ==> h[k].role == msgs[k].role
  {
    HistoryOf(msgs)
  }

  /** Appending a message to the conversation appends exactly its entry to the history. */
  lemma JsHistoryAppend(msgs: seq<ChatMessage>, m: ChatMessage)
    ensures JsHistory(msgs + [m]) == JsHistory(msgs) + [EntryOf(m)]
  {
    HistoryOfAppend(msgs, [m]);
  }

  /** The parsed variations of `generateLinkedInPosts`: stripped, non-empty contents, with no fallback. */
  function JsVariations(text: string): seq<string> {
    KeepStripped(Matches(JsRe, text, 0))
  }

  /** The `while ((match = regex.exec(text)) !== null)` loop, with `lastIndex` explicit. */
  method ParseVariations(text: string) returns (variations: seq<string>)
    ensures variations == JsVariations(text)
  {
    variations := [];
    var lastIndex := 0;
    assert JsVariations(text) == [] + KeepStripped(Matches(JsRe, text, 0));
    while true
      invariant lastIndex <= |text|
      invariant JsVariations(text) == variations + KeepStripped(Matches(JsRe, text, lastIndex))
      decreases |text| - lastIndex
    {
      var p := NextLabel(JsRe, text, lastIndex);
      if p == |text| {
        assert Matches(JsRe, text, lastIndex) == [];
        assert variations + [] == variations;
        break;
      }
      var c := ContentStart(JsRe, text, p);
      var e := NextLabel(JsRe, text, c);
      var content := Strip(text[c..e]);
      ghost var kept: seq<string> := if content != [] then [content] else [];
      ghost var done := variations;
      ghost var rest := KeepStripped(Matches(JsRe, text, e));
      KeepStrippedStep(JsRe, text, lastIndex);
      assert KeepStripped(Matches(JsRe, text, lastIndex)) == kept + rest;
      Associative(done, kept, rest);
      if content != [] {
        variations := variations + [content];
      }
      assert variations == done + kept;
      lastIndex := e;
    }
  }

  /** Every variation is stripped, non-empty and free of "Variation N:" labels. */
  lemma VariationsClean(text: string, r: nat, k: nat)
    requires r < |JsVariations(text)|
    requires k <= |JsVariations(text)[r]|
    ensures JsVariations(text)[r] != [] && IsStripped(JsVariations(text)[r])
    ensures !LabelAt(JsRe, JsVariations(text)[r], k)
  {
    ParsedHaveNoLabel(JsRe, text, r, k);
  }

  /** A text without a "Variation N:" label gives no variations at all. */
  lemma NoLabelNoVariations(text: string)
    requires forall k :: 0 <= k <= |text| ==> !LabelAt(JsRe, text, k)
    ensures JsVariations(text) == []
  {
    NoLabelNoMatches(JsRe, text);
  }

  /** A label starts with "V", and the keyword is followed by exactly one space and a digit. */
  lemma LabelHasOneSpace(s: string, i: nat)
    requires i <= |s| && LabelAt(JsRe, s, i)
    ensures i + |Keyword| + 1 < |s|
    ensures s[i] == Keyword[0]
    ensures s[i + |Keyword|] == ' ' && IsDigit(s[i + |Keyword| + 1])
  {
    var u := s[i..];
    KeywordRead(JsRe, u, 0, 0);
    var j := |Keyword|;
    assert Scan(JsRe, u, j, GapStart).Some?;
    assert u[j] == ' ' && Scan(JsRe, u, j + 1, DigitStart).Some?;
    assert IsDigit(u[j + 1]);
    assert u[0] == s[i] && u[j] == s[i + j] && u[j + 1] == s[i + j + 1];
  }

  const Levels := ["low", "medium", "high"]

  datatype Engagement = Engagement(likes: string, comments: string, shares: string)

  /** The level `levels[Math.floor(r * 3)]` for a draw r in [0, 1). */
  function LevelOf(r: real): (level: string)
    requires 0.0 <= r < 1.0
    ensures level in Levels
    ensures r < 1.0 / 3.0 ==> level == "low"
    ensures 1.0 / 3.0 <= r < 2.0 / 3.0 ==> level == "medium"
    ensures r >= 2.0 / 3.0 ==> level == "high"
  {
    var i := (r * 3.0).Floor;
    assert 0 <= i < 3;
    Levels[i]
  }

  /** `_predictEngagement`, with the three `Math.random()` draws as parameters. */
  function PredictEngagement(likes: real, comments: real, shares: real): (e: Engagement)
    requires 0.0 <= likes < 1.0 && 0.0 <= comments < 1.0 && 0.0 <= shares < 1.0
    ensures e.likes in Levels && e.comments in Levels && e.shares in Levels
  {
    Engagement(LevelOf(likes), LevelOf(comments), LevelOf(shares))
  }

  /** Each level is drawn for a third of [0, 1); in particular every level is possible. */
  lemma LevelReachable(i: nat)
    requires i < 3
    ensures LevelOf(i as real / 3.0) == Levels[i]
    ensures LevelOf(i as real / 3.0 + 1.0 / 6.0) == Levels[i]
  {
    assert (i as real / 3.0) * 3.0 == i as real;
    assert (i as real / 3.0 + 1.0 / 6.0) * 3.0 == i as real + 0.5;
  }

  /** A section label written with two spaces before its number. */
  const DoubleSpaced := "Variation  1:x"

  lemma DoubleSpacedChars()
    ensures |DoubleSpaced| == 14 && DoubleSpaced[..9] == Keyword
    ensures DoubleSpaced[9] == ' ' && DoubleSpaced[10] == ' ' && DoubleSpaced[11] == '1'
    ensures DoubleSpaced[12] == ':' && DoubleSpaced[13] == 'x'
    ensures forall k :: 0 < k < 6 ==> DoubleSpaced[k] != 'V'
  {
  }

  /** JavaScript finds no label in it, so it yields no variation. */
  lemma DoubleSpacedJs()
    ensures JsVariations(DoubleSpaced) == []
  {
    var t := DoubleSpaced;
    DoubleSpacedChars();
    forall k | 0 <= k <= |t| ensures !LabelAt(JsRe, t, k) {
      if LabelAt(JsRe, t, k) {
        LabelHasOneSpace(t, k);
      }
    }
    NoLabelNoMatches(JsRe, t);
  }

  /** Python reads "Variation", the two spaces, "1" and ":" as one 13-character label. */
  lemma DoubleSpacedPythonLabel()
    ensures LabelLength(PythonRe, DoubleSpaced, 0) == Some(13)
  {
    var t := DoubleSpaced;
    DoubleSpacedChars();
    assert t[0..] == t;
    assert Scan(PythonRe, t, 12, DigitMore) == Some(13);
    assert Scan(PythonRe, t, 11, GapMore) == Some(13);
    assert Scan(PythonRe, t, 10, GapMore) == Some(13);
    assert Scan(PythonRe, t, 9, GapStart) == Some(13);
    assert Scan(PythonRe, t, 8, InKeyword(8)) == Some(13);
    assert Scan(PythonRe, t, 7, InKeyword(7)) == Some(13);
    assert Scan(PythonRe, t, 6, InKeyword(6)) == Some(13);
    assert Scan(PythonRe, t, 5, InKeyword(5)) == Some(13);
    assert Scan(PythonRe, t, 4, InKeyword(4)) == Some(13);
    assert Scan(PythonRe, t, 3, InKeyword(3)) == Some(13);
    assert Scan(PythonRe, t, 2, InKeyword(2)) == Some(13);
    assert Scan(PythonRe, t, 1, InKeyword(1)) == Some(13);
  }

  /** So Python's only match captures "x". */
  lemma DoubleSpacedPythonMatches()
    ensures Matches(PythonRe, DoubleSpaced, 0) == ["x"]
  {
    var t := DoubleSpaced;
    DoubleSpacedChars();
    DoubleSpacedPythonLabel();
    assert NextLabel(PythonRe, t, 0) == 0;
    assert t[13..][0] == 'x';
    assert !LabelAt(PythonRe, t, 13);
    assert NextLabel(PythonRe, t, 14) == 14;
    assert NextLabel(PythonRe, t, 13) == 14;
    assert Matches(PythonRe, t, 14) == [];
    assert t[13..14] == "x";
  }

  /** With two spaces before the number, Python still finds the section and JavaScript does not. */
  lemma DialectsDiffer()
    ensures Py.PyVariations(DoubleSpaced) == ["x"]
    ensures JsVariations(DoubleSpaced) == []
  {
    DoubleSpacedJs();
    DoubleSpacedPythonMatches();
    OneMatchOneVariation(DoubleSpaced);
  }

  /** A text whose only Python match is "x" has the single variation "x". */
  lemma OneMatchOneVariation(raw: string)
    requires Matches(PythonRe, raw, 0) == ["x"]
    ensures Py.PyVariations(raw) == ["x"]
  {
    assert LeadingWhitespace("x") == 0 && TrailingWhitespace("x") == 0;
    assert Strip("x") == "x";
    KeepStrippedSingle("x");
  }
}
