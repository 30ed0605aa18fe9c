/**
 * What the Python and JavaScript Gemini services share: the mapping of chat
 * messages to Gemini history entries, and a hand-written scanner for the
 * "Variation N:" labelled sections of a generated text. The scanner follows
 * the two regular expressions
 *   Python      Variation\s+(\d+):(.*?)(?=Variation\s+\d+:|$)   (DOTALL)
 *   JavaScript  Variation \d+:([\s\S]*?)(?=Variation \d+:|$)
 * which differ only in the gap between "Variation" and the number: a run
 * of whitespace in Python, exactly one space in JavaScript. `$` is read as
 * the end of the text.
 */
module GeminiFormat {
  import opened Common

  // ---------------------------------------------------------------------
  // Message conversion
  // ---------------------------------------------------------------------

  datatype ChatMessage = ChatMessage(role: string, content: string)

  /** A history entry `{role, parts: [{text}]}`. */
  datatype HistoryEntry = HistoryEntry(role: string, text: string)

  /** "assistant" becomes "model"; every other role passes through. */
  function GeminiRole(role: string): (r: string)
    ensures role == "assistant" ==> r == "model"
    ensures role != "assistant" ==> r == role
  {
    if role == "assistant" then "model" else role
  }

  function EntryOf(m: ChatMessage): HistoryEntry {
    HistoryEntry(GeminiRole(m.role), m.content)
  }

  /** One entry per message, in the same order. */
  function HistoryOf(msgs: seq<ChatMessage>): (h: seq<HistoryEntry>)
    ensures |h| == |msgs|
    ensures forall k :: 0 <= k < |msgs| ==> h[k] == EntryOf(msgs[k])
  {
    if msgs == [] then [] else [EntryOf(msgs[0])] + HistoryOf(msgs[1..])
  }

  lemma {:induction false} HistoryOfAppend(a: seq<ChatMessage>, b: seq<ChatMessage>)
    ensures HistoryOf(a + b) == HistoryOf(a) + HistoryOf(b)
  {
    var h := HistoryOf(a + b);
    assert forall k :: 0 <= k < |h| ==> h[k] == (HistoryOf(a) + HistoryOf(b))[k];
  }

  /** Only "system" maps to "system". */
  lemma SystemRoleOnly(role: string)
    ensures GeminiRole(role) == "system" <==> role == "system"
  {
  }

  // ---------------------------------------------------------------------
  // The "Variation N:" scanner
  // ---------------------------------------------------------------------

  datatype Dialect = PythonRe | JsRe

  const Keyword := "Variation"

  /**
   * Where a label scan stands: inside the keyword (at its q-th character),
   * at the first gap character, inside a Python whitespace run, at the first
   * digit, or inside the digits.
   */
  datatype Phase = InKeyword(q: nat) | GapStart | GapMore | DigitStart | DigitMore

  /** A character that may open the gap: any whitespace in Python, a space in JavaScript. */
  predicate GapChar(d: Dialect, ch: char) {
    match d
    case PythonRe => IsWhitespace(ch)
    case JsRe => ch == ' '
  }

  /**
   * Scans u from position j in phase ph for the rest of a label; the position
   * just after its ":" if it matches. The gap and the digits are disjoint
   * classes, so greedy scanning accepts exactly what the regular expression
   * (with backtracking) accepts.
   */
  function Scan(d: Dialect, u: string, j: nat, ph: Phase): (n: Option<nat>)
    requires j <= |u|
    ensures n.Some? ==> j < n.value <= |u|
    decreases |u| - j
  {
    if j == |u| then None
    else
      var ch := u[j];
      match ph
      case InKeyword(q) =>
        if q < |Keyword| && ch == Keyword[q] then
          Scan(d, u, j + 1, if q + 1 == |Keyword| then GapStart else InKeyword(q + 1))
        else None
      case GapStart =>
        if GapChar(d, ch) then Scan(d, u, j + 1, if d == PythonRe then GapMore else DigitStart) else None
      case GapMore =>
        if IsWhitespace(ch) then Scan(d, u, j + 1, GapMore)
        else if IsDigit(ch) then Scan(d, u, j + 1, DigitMore)
        else None
      case DigitStart =>
        if IsDigit(ch) then Scan(d, u, j + 1, DigitMore) else None
      case DigitMore =>
        if IsDigit(ch) then Scan(d, u, j + 1, DigitMore)
        else if ch == ':' then Some(j + 1)
        else None
  }

  /** The length of the label "Variation" gap digits ":" at the very start of u, if u starts with one. */
  function LabelLen(d: Dialect, u: string): (n: Option<nat>)
    ensures n.Some? ==> 0 < n.value <= |u|
  {
    Scan(d, u, 0, InKeyword(0))
  }

  /** The length of the label starting at position i, if one starts there. */
  function LabelLength(d: Dialect, s: string, i: nat): (n: Option<nat>)
    requires i <= |s|
    ensures n.Some? ==> 0 < n.value && i + n.value <= |s|
  {
    LabelLen(d, s[i..])
  }

  predicate LabelAt(d: Dialect, s: string, i: nat)
    requires i <= |s|
  {
    LabelLength(d, s, i).Some?
  }

  /** The first position at or after i where a label starts, or |s| if none does. */
  function NextLabel(d: Dialect, s: string, i: nat): (p: nat)
    requires i <= |s|
    ensures i <= p <= |s|
    ensures p < |s| ==> LabelAt(d, s, p)
    ensures forall k :: i <= k < p ==> !LabelAt(d, s, k)
    decreases |s| - i
  {
    if i == |s| then i
    else if LabelAt(d, s, i) then i
    else
      var p := NextLabel(d, s, i + 1);
      p
  }

  /** Where the content of a label starting at p begins and ends (lazily, before the next label). */
  function ContentStart(d: Dialect, s: string, p: nat): (c: nat)
    requires p < |s| && LabelAt(d, s, p)
    ensures p < c <= |s|
  {
    p + LabelLength(d, s, p).value
  }

  /**
   * The captured contents of the successive non-overlapping matches from
   * position i, as `findall` and a global `exec` loop see them.
   */
  function Matches(d: Dialect, s: string, i: nat): seq<string>
    requires i <= |s|
    decreases |s| - i
  {
    var p := NextLabel(d, s, i);
    if p == |s| then []
    else
      var c := ContentStart(d, s, p);
      var e := NextLabel(d, s, c);
      [s[c..e]] + Matches(d, s, e)
  }

  /** One match: the content between the label found from i and the next label. */
  lemma MatchesUnfold(d: Dialect, s: string, i: nat)
    requires i <= |s|
    ensures NextLabel(d, s, i) == |s| ==> Matches(d, s, i) == []
    ensures NextLabel(d, s, i) < |s| ==>
      var c := ContentStart(d, s, NextLabel(d, s, i));
      var e := NextLabel(d, s, c);
      Matches(d, s, i) == [s[c..e]] + Matches(d, s, e)
  {
  }

  /** The stripped contents that are non-empty, in order. */
  function KeepStripped(xs: seq<string>): (r: seq<string>)
    ensures |r| <= |xs|
    ensures forall k :: 0 <= k < |r| ==> r[k] != [] && IsStripped(r[k])
  {
    if xs == [] then []
    else
      var last := Strip(xs[|xs| - 1]);
      KeepStripped(xs[..|xs| - 1]) + (if last != [] then [last] else [])
  }

  lemma {:induction false} KeepStrippedAppend(xs: seq<string>, ys: seq<string>)
    ensures KeepStripped(xs + ys) == KeepStripped(xs) + KeepStripped(ys)
    decreases |ys|
  {
    if ys == [] {
      assert xs + ys == xs;
    } else {
      var init := ys[..|ys| - 1];
      assert (xs + ys)[..|xs + ys| - 1] == xs + init;
      KeepStrippedAppend(xs, init);
    }
  }

  /** One step of a scan: the kept content of the match found from i, then everything after it. */
  lemma KeepStrippedStep(d: Dialect, s: string, i: nat)
    requires i <= |s| && NextLabel(d, s, i) < |s|
    ensures var c := ContentStart(d, s, NextLabel(d, s, i));
      var e := NextLabel(d, s, c);
      var x := Strip(s[c..e]);
      KeepStripped(Matches(d, s, i)) == (if x != [] then [x] else []) + KeepStripped(Matches(d, s, e))
  {
    var c := ContentStart(d, s, NextLabel(d, s, i));
    var e := NextLabel(d, s, c);
    var rest := Matches(d, s, e);
    var x := s[c..e];
    MatchesUnfold(d, s, i);
    KeepStrippedAppend([x], rest);
    KeepStrippedSingle(x);
  }

  lemma KeepStrippedSingle(x: string)
    ensures KeepStripped([x]) == (if Strip(x) != [] then [Strip(x)] else [])
  {
    assert [x][..0] == [];
  }

  /** u is a prefix of w. */
  predicate IsPrefix(u: string, w: string) {
    |u| <= |w| && w[..|u|] == u
  }

  /** A scan that succeeds inside a prefix succeeds with the same end in the longer text. */
  lemma {:induction false} ScanInPrefix(d: Dialect, u: string, w: string, j: nat, ph: Phase)
    requires IsPrefix(u, w) && j <= |u|
    requires Scan(d, u, j, ph).Some?
    ensures Scan(d, w, j, ph) == Scan(d, u, j, ph)
    decreases |u| - j
  {
    assert u[j] == w[j];
    var next := match ph
      case InKeyword(q) => if q + 1 == |Keyword| then GapStart else InKeyword(q + 1)
      case GapStart => if d == PythonRe then GapMore else DigitStart
      case GapMore => if IsWhitespace(u[j]) then GapMore else DigitMore
      case _ => DigitMore;
    if Scan(d, u, j + 1, next).Some? {
      ScanInPrefix(d, u, w, j + 1, next);
    }
  }

  /** A label inside a slice is a label of the whole text at the shifted position. */
  lemma LabelInSlice(d: Dialect, s: string, a: nat, b: nat, k: nat)
    requires a <= b <= |s| && k <= b - a
    requires LabelAt(d, s[a..b], k)
    ensures LabelAt(d, s, a + k)
  {
    var u := s[a..b][k..];
    var w := s[a + k..];
    assert u == s[a + k..b];
    assert IsPrefix(u, w);
    ScanInPrefix(d, u, w, 0, InKeyword(0));
  }

  /** A slice in which the whole text has no label start has no label itself. */
  lemma SliceWithoutLabel(d: Dialect, s: string, c: nat, e: nat, k: nat)
    requires c <= e <= |s| && k <= e - c
    requires forall j :: c <= j < e ==> !LabelAt(d, s, j)
    ensures !LabelAt(d, s[c..e], k)
  {
    if LabelAt(d, s[c..e], k) {
      LabelInSlice(d, s, c, e, k);
    }
  }

  /** Every captured content is the slice from a content start c up to the next label after c. */
  lemma {:induction false} MatchSlice(d: Dialect, s: string, i: nat, m: nat) returns (c: nat, e: nat)
    requires i <= |s| && m < |Matches(d, s, i)|
    ensures c <= |s| && e == NextLabel(d, s, c)
    ensures Matches(d, s, i)[m] == s[c..e]
    decreases |s| - i
  {
    MatchesUnfold(d, s, i);
    c := ContentStart(d, s, NextLabel(d, s, i));
    e := NextLabel(d, s, c);
    if m > 0 {
      var rest := Matches(d, s, e);
      assert Matches(d, s, i)[m] == rest[m - 1];
      c, e := MatchSlice(d, s, e, m - 1);
    }
  }

  /** No label starts anywhere inside a captured content. */
  lemma MatchesHaveNoLabel(d: Dialect, s: string, i: nat, m: nat, k: nat)
    requires i <= |s|
    requires m < |Matches(d, s, i)|
    requires k <= |Matches(d, s, i)[m]|
    ensures !LabelAt(d, Matches(d, s, i)[m], k)
  {
    var c, e := MatchSlice(d, s, i, m);
    SliceWithoutLabel(d, s, c, e, k);
  }

  /** Stripping keeps a content label-free. */
  lemma StrippedHasNoLabel(d: Dialect, c: string, k: nat)
    requires forall j :: 0 <= j <= |c| ==> !LabelAt(d, c, j)
    requires k <= |Strip(c)|
    ensures !LabelAt(d, Strip(c), k)
  {
    if LabelAt(d, Strip(c), k) {
      LabelInSlice(d, c, StripLo(c), StripHi(c), k);
    }
  }

  /** Every element of KeepStripped(xs) is Strip of some element of xs. */
  lemma {:induction false} KeepStrippedFrom(xs: seq<string>, r: nat)
    requires r < |KeepStripped(xs)|
    ensures exists m :: 0 <= m < |xs| && KeepStripped(xs)[r] == Strip(xs[m])
  {
    var init := xs[..|xs| - 1];
    if r < |KeepStripped(init)| {
      KeepStrippedFrom(init, r);
      var m :| 0 <= m < |init| && KeepStripped(init)[r] == Strip(init[m]);
      assert init[m] == xs[m];
    } else {
      assert KeepStripped(xs)[r] == Strip(xs[|xs| - 1]);
    }
  }

  /** No parsed (stripped, non-empty) content contains a label. */
  lemma ParsedHaveNoLabel(d: Dialect, s: string, r: nat, k: nat)
    requires r < |KeepStripped(Matches(d, s, 0))|
    requires k <= |KeepStripped(Matches(d, s, 0))[r]|
    ensures !LabelAt(d, KeepStripped(Matches(d, s, 0))[r], k)
  {
    var ms := Matches(d, s, 0);
    KeepStrippedFrom(ms, r);
    var m :| 0 <= m < |ms| && KeepStripped(ms)[r] == Strip(ms[m]);
    forall j | 0 <= j <= |ms[m]| ensures !LabelAt(d, ms[m], j) {
      MatchesHaveNoLabel(d, s, 0, m, j);
    }
    StrippedHasNoLabel(d, ms[m], k);
  }

  /** A text without labels has no matches. */
  lemma NoLabelNoMatches(d: Dialect, s: string)
    requires forall k :: 0 <= k <= |s| ==> !LabelAt(d, s, k)
    ensures Matches(d, s, 0) == []
  {
  }

  /** Everything before the first label is skipped. */
  lemma MatchesSkipPrefix(d: Dialect, s: string, i: nat)
    requires i <= |s|
    ensures Matches(d, s, i) == Matches(d, s, NextLabel(d, s, i))
  {
  }

  /** The digits and the ":" are scanned alike in both dialects. */
  lemma {:induction false} DigitsAlike(u: string, j: nat)
    requires j <= |u|
    ensures Scan(JsRe, u, j, DigitMore) == Scan(PythonRe, u, j, DigitMore)
    decreases |u| - j
  {
    if j < |u| && IsDigit(u[j]) {
      DigitsAlike(u, j + 1);
    }
  }

  /** A JavaScript scan that succeeds ends at the same place as the Python scan (one space is a whitespace run). */
  lemma {:induction false} JsScanIsPythonScan(u: string, j: nat, ph: Phase)
    requires j <= |u| && ph != DigitStart && Scan(JsRe, u, j, ph).Some?
    ensures Scan(PythonRe, u, j, ph) == Scan(JsRe, u, j, ph)
    decreases |u| - j
  {
    match ph
    case InKeyword(q) =>
      JsScanIsPythonScan(u, j + 1, if q + 1 == |Keyword| then GapStart else InKeyword(q + 1));
    case GapStart =>
      assert u[j] == ' ' && j + 1 < |u| && IsDigit(u[j + 1]);
      DigitsAlike(u, j + 2);
    case GapMore =>
      if IsWhitespace(u[j]) {
        JsScanIsPythonScan(u, j + 1, GapMore);
      } else {
        DigitsAlike(u, j + 1);
      }
    case DigitMore =>
      DigitsAlike(u, j);
  }

  /** Every JavaScript label is also a Python label, of the same length. */
  lemma JsLabelIsPythonLabel(s: string, i: nat)
    requires i <= |s| && LabelAt(JsRe, s, i)
    ensures LabelAt(PythonRe, s, i)
    ensures LabelLength(PythonRe, s, i) == LabelLength(JsRe, s, i)
  {
    JsScanIsPythonScan(s[i..], 0, InKeyword(0));
  }

  /** A successful scan from inside the keyword passes the rest of the keyword and then succeeds from the gap. */
  lemma {:induction false} KeywordRead(d: Dialect, u: string, j: nat, q: nat)
    requires j <= |u| && q < |Keyword| && Scan(d, u, j, InKeyword(q)).Some?
    ensures j + |Keyword| - q < |u|
    ensures Scan(d, u, j + |Keyword| - q, GapStart) == Scan(d, u, j, InKeyword(q))
    decreases |Keyword| - q
  {
    if q + 1 < |Keyword| {
      KeywordRead(d, u, j + 1, q + 1);
    }
  }
}
