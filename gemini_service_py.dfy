/**
 * The Python Gemini service: the conversion of chat messages into a chat
 * history and a latest message, the parsing of generated LinkedIn post
 * variations, and the mock engagement prediction. The model calls
 * themselves are not part of this model.
 */
module GeminiServicePy {
  import opened Common
  import opened GeminiFormat

  /** The index of the first message whose role is "system", or |msgs| if there is none. */
  function FirstSystem(msgs: seq<ChatMessage>): (p: nat)
    ensures p <= |msgs|
    ensures p < |msgs| ==> msgs[p].role == "system"
    ensures forall k :: 0 <= k < p ==> msgs[k].role != "system"
  {
    if msgs == [] then 0
    else if msgs[0].role == "system" then 0
    else 1 + FirstSystem(msgs[1..])
  }

  /** The history the loop builds: every message from the first system message on. */
  function PyHistory(msgs: seq<ChatMessage>): seq<HistoryEntry> {
    HistoryOf(msgs[FirstSystem(msgs)..])
  }

  /** The latest message the loop leaves: the last one before the first system message, if any. */
  function PyLatest(msgs: seq<ChatMessage>): Option<HistoryEntry> {
    var p := FirstSystem(msgs);
    if p > 0 then Some(EntryOf(msgs[p - 1])) else None
  }

  /**
   * The conversion loop of `generate_chat_response`: a message goes to the
   * history once the history is non-empty or when it is a system message,
   * and otherwise overwrites the latest message.
   */
  method ConvertMessages(msgs: seq<ChatMessage>) returns (history: seq<HistoryEntry>, latest: Option<HistoryEntry>)
    ensures history == PyHistory(msgs)
    ensures latest == PyLatest(msgs)
  {
    ghost var p := FirstSystem(msgs);
    history := [];
    latest := None;
    for k := 0 to |msgs|
      invariant k <= p ==> history == [] && latest == (if k > 0 then Some(EntryOf(msgs[k - 1])) else None)
      invariant k > p ==> latest == PyLatest(msgs)
      invariant k > p ==> |history| == k - p && forall j :: 0 <= j < k - p ==> history[j] == EntryOf(msgs[p + j])
    {
      var role := GeminiRole(msgs[k].role);
      if |history| > 0 || role == "system" {
        SystemRoleOnly(msgs[k].role);
        history := history + [HistoryEntry(role, msgs[k].content)];
      } else {
        SystemRoleOnly(msgs[k].role);
        latest := Some(HistoryEntry(role, msgs[k].content));
      }
    }
    assert |history| == |PyHistory(msgs)|;
  }

  /** The text sent to the chat: the latest message's, or "" when there is none. */
  function PromptText(latest: Option<HistoryEntry>): string {
    if latest.Some? then latest.value.text else ""
  }

  /**
   * No message before the first system message enters the history, every
   * message from it on does, and the latest message is the one just before it.
   */
  lemma ConversionSplit(msgs: seq<ChatMessage>)
    ensures |PyHistory(msgs)| + FirstSystem(msgs) == |msgs|
    ensures forall j :: 0 <= j < |PyHistory(msgs)| ==> PyHistory(msgs)[j] == EntryOf(msgs[FirstSystem(msgs) + j])
    ensures PyLatest(msgs).Some? <==> FirstSystem(msgs) > 0
    ensures PyLatest(msgs).Some? ==> PyLatest(msgs).value == EntryOf(msgs[FirstSystem(msgs) - 1])
  {
  }

  /**
   * A conversation that opens with a system message puts everything into
   * the history and sends the empty prompt.
   */
  lemma SystemFirstSendsEmptyPrompt(msgs: seq<ChatMessage>)
    requires msgs != [] && msgs[0].role == "system"
    ensures PyHistory(msgs) == HistoryOf(msgs)
    ensures PromptText(PyLatest(msgs)) == ""
  {
    assert msgs[0..] == msgs;
  }

  /**
   * A conversation without a system message starts an empty history and
   * sends only its last message.
   */
  lemma NoSystemSendsLastMessage(msgs: seq<ChatMessage>)
    requires msgs != []
    requires forall k :: 0 <= k < |msgs| ==> msgs[k].role != "system"
    ensures PyHistory(msgs) == []
    ensures PyLatest(msgs) == Some(EntryOf(msgs[|msgs| - 1]))
    ensures PromptText(PyLatest(msgs)) == msgs[|msgs| - 1].content
  {
    assert FirstSystem(msgs) == |msgs|;
  }

  // ---------------------------------------------------------------------
  // Post variations
  // ---------------------------------------------------------------------

  /**
   * The parsed variations of `generate_linkedin_post`: the stripped,
   * non-empty contents of the labelled sections, or the raw text alone when
   * there are none.
   */
  function PyVariations(raw: string): (r: seq<string>)
    ensures |r| >= 1
    ensures KeepStripped(Matches(PythonRe, raw, 0)) == [] ==> r == [raw]
    ensures KeepStripped(Matches(PythonRe, raw, 0)) != [] ==> r == KeepStripped(Matches(PythonRe, raw, 0))
  {
    var parsed := KeepStripped(Matches(PythonRe, raw, 0));
    if parsed == [] then [raw] else parsed
  }

  /** The parsing loop over the matches that `findall` returns. */
  method ParseVariations(raw: string) returns (variations: seq<string>)
    ensures variations == PyVariations(raw)
  {
    var matches := Matches(PythonRe, raw, 0);
    variations := [];
    for k := 0 to |matches|
      invariant variations == KeepStripped(matches[..k])
    {
      assert matches[..k + 1][..k] == matches[..k];
      var content := Strip(matches[k]);
      if content != [] {
        variations := variations + [content];
      }
    }
    assert matches[..|matches|] == matches;
    if variations == [] {
      variations := [raw];
    }
  }

  /**
   * Unless the result is the raw-text fallback, every variation is
   * stripped, non-empty and free of "Variation N:" labels.
   */
  lemma VariationsClean(raw: string, r: nat, k: nat)
    requires r < |PyVariations(raw)|
    requires k <= |PyVariations(raw)[r]|
    ensures PyVariations(raw) == [raw] || (
      && PyVariations(raw)[r] != []
      && IsStripped(PyVariations(raw)[r])
      && !LabelAt(PythonRe, PyVariations(raw)[r], k))
  {
    if KeepStripped(Matches(PythonRe, raw, 0)) != [] {
      ParsedHaveNoLabel(PythonRe, raw, r, k);
    }
  }

  // ---------------------------------------------------------------------
  // Engagement prediction
  // ---------------------------------------------------------------------

  const Levels := ["low", "medium", "high"]

  datatype Engagement = Engagement(likes: string, comments: string, shares: string)

  /** `_predict_engagement`, with the three `random.choice` draws as indices into the levels. */
  function PredictEngagement(likes: nat, comments: nat, shares: nat): (e: Engagement)
    requires likes < 3 && comments < 3 && shares < 3
    ensures e.likes in Levels && e.comments in Levels && e.shares in Levels
  {
    Engagement(Levels[likes], Levels[comments], Levels[shares])
  }

  /** Every combination of levels is a possible prediction. */
  lemma EveryPredictionPossible(likes: string, comments: string, shares: string)
    requires likes in Levels && comments in Levels && shares in Levels
    ensures exists a: nat, b: nat, c: nat ::
      a < 3 && b < 3 && c < 3 && PredictEngagement(a, b, c) == Engagement(likes, comments, shares)
  {
    var a :| 0 <= a < 3 && Levels[a] == likes;
    var b :| 0 <= b < 3 && Levels[b] == comments;
    var c :| 0 <= c < 3 && Levels[c] == shares;
    assert PredictEngagement(a, b, c) == Engagement(likes, comments, shares);
  }
}
