/**
 * Values and string operations shared by the Python and JavaScript halves of
 * the model: optional values and results, HTTP errors, JSON-like claim values
 * with their truthiness, and the slicing, stripping, splitting and filtering
 * that the source performs with its languages' built-ins.
 */
module Common {

  datatype Option<T> = None | Some(value: T)

  datatype Result<T, E> = Ok(value: T) | Err(error: E)

  /** An HTTP error response: a status code and its detail message. */
  datatype HttpError = HttpError(status: int, detail: string)

  /** A JSON value as found in token payloads and settings dictionaries. */
  datatype JsonValue = JNull | JBool(b: bool) | JInt(i: int) | JStr(s: string) | JList(items: seq<JsonValue>)

  /** Python (and JavaScript) truthiness of a JSON value. */
  predicate Truthy(v: JsonValue) {
    match v
    case JNull => false
    case JBool(b) => b
    case JInt(i) => i != 0
    case JStr(s) => s != ""
    case JList(xs) => xs != []
  }

  /** `dict.get(key)`: a missing key reads as None (JNull). */
  function Get(m: map<string, JsonValue>, key: string): JsonValue {
    if key in m then m[key] else JNull
  }

  function Min(a: int, b: int): int { if a <= b then a else b }

  function Max(a: int, b: int): int { if a >= b then a else b }

  predicate StartsWith(s: string, prefix: string) {
    |prefix| <= |s| && s[..|prefix|] == prefix
  }

  lemma Associative<T>(a: seq<T>, b: seq<T>, c: seq<T>)
    ensures a + (b + c) == (a + b) + c
  {
  }

  /** `s[:n]` in Python, `s.substring(0, n)` in JavaScript. */
  function Take(s: string, n: nat): (r: string)
    ensures |r| == Min(n, |s|)
    ensures r == s[..|r|]
  {
    s[..Min(n, |s|)]
  }

  /** `s[-n:]` in Python, `s.slice(-n)` in JavaScript, for n > 0. */
  function TakeLast(s: string, n: nat): (r: string)
    requires n > 0
    ensures |r| == Min(n, |s|)
    ensures r == s[|s| - |r|..]
  {
    s[|s| - Min(n, |s|)..]
  }

  /** `Array.prototype.slice(start)` with JavaScript's reading of a negative start. */
  function SliceFrom<T>(s: seq<T>, start: int): (r: seq<T>)
    ensures start < 0 ==> r == s[Max(|s| + start, 0)..]
    ensures start >= 0 ==> r == s[Min(start, |s|)..]
  {
    if start < 0 then s[Max(|s| + start, 0)..] else s[Min(start, |s|)..]
  }

  // ---------------------------------------------------------------------
  // Whitespace and stripping (Python's str.strip, JavaScript's trim)
  // ---------------------------------------------------------------------

  /** The ASCII whitespace characters: space, \t, \n, \v, \f, \r. */
  predicate IsWhitespace(c: char) {
    c == ' ' || c == '\t' || c == '\n' || c == '\U{000B}' || c == '\U{000C}' || c == '\r'
  }

  predicate IsDigit(c: char) { '0' <= c <= '9' }

  /** Number of whitespace characters at the front of `s`. */
  function LeadingWhitespace(s: string): (n: nat)
    ensures n <= |s|
    ensures forall k :: 0 <= k < n ==> IsWhitespace(s[k])
    ensures n < |s| ==> !IsWhitespace(s[n])
  {
    if s != [] && IsWhitespace(s[0]) then 1 + LeadingWhitespace(s[1..]) else 0
  }

  /** Number of whitespace characters at the back of `s`. */
  function TrailingWhitespace(s: string): (n: nat)
    ensures n <= |s|
    ensures forall k :: |s| - n <= k < |s| ==> IsWhitespace(s[k])
    ensures n < |s| ==> !IsWhitespace(s[|s| - n - 1])
  {
    if s != [] && IsWhitespace(s[|s| - 1]) then 1 + TrailingWhitespace(s[..|s| - 1]) else 0
  }

  function StripLo(s: string): (lo: nat)
    ensures lo <= |s|
  {
    LeadingWhitespace(s)
  }

  function StripHi(s: string): (hi: nat)
    ensures StripLo(s) <= hi <= |s|
  {
    |s| - TrailingWhitespace(s[StripLo(s)..])
  }

  predicate IsStripped(s: string) {
    s == [] || (!IsWhitespace(s[0]) && !IsWhitespace(s[|s| - 1]))
  }

  /** `s.strip()` / `s.trim()`: the slice of `s` between its leading and trailing whitespace. */
  function Strip(s: string): (r: string)
    ensures r == s[StripLo(s)..StripHi(s)]
    ensures IsStripped(r)
    ensures |r| <= |s|
    ensures forall k :: 0 <= k < StripLo(s) ==> IsWhitespace(s[k])
    ensures forall k :: StripHi(s) <= k < |s| ==> IsWhitespace(s[k])
    ensures r == [] <==> forall k :: 0 <= k < |s| ==> IsWhitespace(s[k])
  {
    StripBounds(s);
    var r := s[StripLo(s)..StripHi(s)];
    assert r != [] ==> r[0] == s[StripLo(s)] && r[|r| - 1] == s[StripHi(s) - 1];
    r
  }

  /** The characters outside [StripLo, StripHi) are whitespace and the two ends inside are not. */
  lemma StripBounds(s: string)
    ensures forall k :: StripHi(s) <= k < |s| ==> IsWhitespace(s[k])
    ensures StripLo(s) < StripHi(s) ==> !IsWhitespace(s[StripLo(s)]) && !IsWhitespace(s[StripHi(s) - 1])
    ensures StripLo(s) == StripHi(s) ==> forall k :: 0 <= k < |s| ==> IsWhitespace(s[k])
  {
    var lo := StripLo(s);
    var t := s[lo..];
    var n := TrailingWhitespace(t);
    var hi := |s| - n;
    forall k | hi <= k < |s| ensures IsWhitespace(s[k]) {
      assert s[k] == t[k - lo];
    }
    if lo < hi {
      assert s[hi - 1] == t[|t| - n - 1];
    }
  }

  lemma {:induction false} StripIdempotent(s: string)
    requires IsStripped(s)
    ensures Strip(s) == s
  {
    if s != [] {
      assert LeadingWhitespace(s) == 0;
      assert TrailingWhitespace(s[0..]) == 0 by { assert s[0..] == s; }
    }
  }

  // ---------------------------------------------------------------------
  // Splitting on a one-character separator (str.split(c), String.split(c))
  // ---------------------------------------------------------------------

  function Count(s: string, c: char): (n: nat)
    ensures n == 0 <==> c !in s
  {
    if s == [] then 0 else (if s[0] == c then 1 else 0) + Count(s[1..], c)
  }

  /** Joins the parts with the separator between each pair: the inverse of Split. */
  function Join(parts: seq<string>, sep: char): string {
    if |parts| == 0 then "" else if |parts| == 1 then parts[0] else parts[0] + [sep] + Join(parts[1..], sep)
  }

  /** `s.split(sep)`: the pieces between separators, empty ones included. */
  function Split(s: string, sep: char): (parts: seq<string>)
    ensures |parts| == Count(s, sep) + 1
    ensures forall i :: 0 <= i < |parts| ==> sep !in parts[i]
  {
    if s == [] then [""]
    else
      var rest := Split(s[1..], sep);
      if s[0] == sep then [""] + rest
      else [[s[0]] + rest[0]] + rest[1..]
  }

  /** Joining the pieces with the separator gives the text back. */
  lemma {:induction false} JoinSplit(s: string, sep: char)
    ensures Join(Split(s, sep), sep) == s
  {
    if s != [] {
      JoinSplit(s[1..], sep);
      var rest := Split(s[1..], sep);
      assert [s[0]] + s[1..] == s;
      if s[0] == sep {
        JoinAfterEmpty(rest, sep);
      } else {
        JoinExtendFirst(s[0], rest, sep);
      }
    }
  }

  lemma JoinAfterEmpty(rest: seq<string>, sep: char)
    requires rest != []
    ensures Join([""] + rest, sep) == [sep] + Join(rest, sep)
  {
    assert ([""] + rest)[1..] == rest;
  }

  lemma JoinExtendFirst(x: char, rest: seq<string>, sep: char)
    requires rest != []
    ensures Join([[x] + rest[0]] + rest[1..], sep) == [x] + Join(rest, sep)
  {
    var parts := [[x] + rest[0]] + rest[1..];
    assert parts[1..] == rest[1..];
    if |rest| > 1 {
      assert Join(rest, sep) == rest[0] + [sep] + Join(rest[1..], sep);
      Associative([x], rest[0], [sep] + Join(rest[1..], sep));
      Associative(rest[0], [sep], Join(rest[1..], sep));
      Associative([x] + rest[0], [sep], Join(rest[1..], sep));
    }
  }

  /** One step of Split: a leading separator closes an empty piece, any other character opens the first piece. */
  lemma SplitStep(s: string, sep: char)
    requires s != []
    ensures s[0] == sep ==> Split(s, sep) == [""] + Split(s[1..], sep)
    ensures s[0] != sep ==> Split(s, sep) == [[s[0]] + Split(s[1..], sep)[0]] + Split(s[1..], sep)[1..]
  {
  }

  lemma {:induction false} SplitAround(a: string, b: string, sep: char)
    requires sep !in a
    ensures Split(a + [sep] + b, sep) == [a] + Split(b, sep)
  {
    if a == [] {
      var x := a + [sep] + b;
      assert x == [sep] + b;
      assert x[1..] == b;
      SplitStep(x, sep);
    } else {
      SplitAround(a[1..], b, sep);
      SplitAroundStep(a, b, sep);
    }
  }

  /** The inductive step of SplitAround: a first character that is not the separator joins the first piece. */
  lemma SplitAroundStep(a: string, b: string, sep: char)
    requires a != [] && a[0] != sep
    requires Split(a[1..] + [sep] + b, sep) == [a[1..]] + Split(b, sep)
    ensures Split(a + [sep] + b, sep) == [a] + Split(b, sep)
  {
    var x := a + [sep] + b;
    assert x[0] == a[0];
    assert x[1..] == a[1..] + [sep] + b;
    SplitStep(x, sep);
    var rest := Split(x[1..], sep);
    assert rest[0] == a[1..] && rest[1..] == Split(b, sep);
    assert [a[0]] + a[1..] == a;
  }

  lemma SplitWithoutSeparator(s: string, sep: char)
    requires sep !in s
    ensures Split(s, sep) == [s]
  {
    JoinSplit(s, sep);
    assert |Split(s, sep)| == 1;
  }

  // ---------------------------------------------------------------------
  // Filtering (Array.prototype.filter, list comprehensions with a test)
  // ---------------------------------------------------------------------

  /** `r` is an order-preserving subsequence of `s`. */
  predicate IsSubsequence<T(==)>(r: seq<T>, s: seq<T>)
    decreases |s|
  {
    if r == [] then true
    else if s == [] then false
    else if r[0] == s[0] then IsSubsequence(r[1..], s[1..])
    else IsSubsequence(r, s[1..])
  }

  function CountWhere<T>(s: seq<T>, p: T -> bool): nat {
    if s == [] then 0 else (if p(s[0]) then 1 else 0) + CountWhere(s[1..], p)
  }

  /**
   * The elements of `s` that satisfy `p`, in their original order: a
   * subsequence of `s`, all of whose elements pass, as long as the number of
   * elements of `s` that pass (so no passing element is dropped).
   */
  function Filter<T(==)>(s: seq<T>, p: T -> bool): (r: seq<T>)
    ensures |r| == CountWhere(s, p)
    ensures forall x :: x in r ==> p(x)
    ensures IsSubsequence(r, s)
  {
    if s == [] then []
    else if p(s[0]) then
      var rest := Filter(s[1..], p);
      assert ([s[0]] + rest)[1..] == rest;
      [s[0]] + rest
    else
      var rest := Filter(s[1..], p);
      assert rest != [] ==> rest[0] in rest;
      rest
  }

  /** The first element of a filter is the first element of `s` that passes. */
  lemma {:induction false} FilterHead<T>(s: seq<T>, p: T -> bool, i: nat)
    requires i < |s| && p(s[i])
    requires forall j :: 0 <= j < i ==> !p(s[j])
    ensures Filter(s, p) != [] && Filter(s, p)[0] == s[i]
  {
    if i > 0 {
      FilterHead(s[1..], p, i - 1);
    }
  }

  lemma {:induction false} FilterNone<T>(s: seq<T>, p: T -> bool)
    requires forall j :: 0 <= j < |s| ==> !p(s[j])
    ensures Filter(s, p) == []
  {
    if s != [] {
      FilterNone(s[1..], p);
    }
  }

  // ---------------------------------------------------------------------
  // Decimal rendering of numbers (template-string interpolation)
  // ---------------------------------------------------------------------

  function DigitChar(d: nat): (c: char)
    requires d < 10
    ensures IsDigit(c)
  {
    "0123456789"[d]
  }

  function NatToString(n: nat): (r: string)
    ensures r != []
    ensures forall k :: 0 <= k < |r| ==> IsDigit(r[k])
  {
    if n < 10 then [DigitChar(n)] else NatToString(n / 10) + [DigitChar(n % 10)]
  }
}
