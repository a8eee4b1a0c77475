/**
 * String helpers shared by the browser (TypeScript) and server (Python) models:
 * ASCII case mapping, substring search, prefix and suffix tests, whitespace
 * trimming and Python's `str.split`.
 *
 * Strings are sequences of characters. Case mapping and whitespace are ASCII
 * only; both runtimes also treat non-ASCII letters and spaces, which this
 * model does not.
 */
module Text {

  datatype Option<+T> = None | Some(value: T)

  // ---------------------------------------------------------------- case

  function LowerChar(c: char): char {
    if 'A' <= c <= 'Z' then (c as int + 32) as char else c
  }

  function UpperChar(c: char): char {
    if 'a' <= c <= 'z' then (c as int - 32) as char else c
  }

  /** `toLowerCase()` in TypeScript, `lower()` in Python. */
  function Lower(s: string): (r: string)
    ensures |r| == |s|
    ensures forall i :: 0 <= i < |s| ==> r[i] == LowerChar(s[i])
  {
    if s == [] then [] else [LowerChar(s[0])] + Lower(s[1..])
  }

  /** `toUpperCase()` in TypeScript, `upper()` in Python. */
  function Upper(s: string): (r: string)
    ensures |r| == |s|
    ensures forall i :: 0 <= i < |s| ==> r[i] == UpperChar(s[i])
  {
    if s == [] then [] else [UpperChar(s[0])] + Upper(s[1..])
  }

  /** Lower-casing twice is lower-casing once. */
  lemma LowerIdempotent(s: string)
    ensures Lower(Lower(s)) == Lower(s)
  {
    assert forall i :: 0 <= i < |s| ==> LowerChar(LowerChar(s[i])) == LowerChar(s[i]);
  }

  // ------------------------------------------------------------ searching

  predicate OccursAt(s: string, p: string, j: nat) {
    j + |p| <= |s| && s[j..j + |p|] == p
  }

  /** The first position at which `p` occurs in `s`, if any. */
  function IndexOf(s: string, p: string): (r: Option<nat>)
    ensures r.Some? ==> OccursAt(s, p, r.value)
    ensures r.Some? ==> forall j: nat :: j < r.value ==> !OccursAt(s, p, j)
    ensures r.None? ==> forall j: nat :: !OccursAt(s, p, j)
    decreases |s|
  {
    if |p| > |s| then None
    else if s[..|p|] == p then Some(0)
    else
      match IndexOf(s[1..], p)
      case None =>
        ShiftOccurrence(s, p);
        None
      case Some(k) =>
        assert s[1..][k..k + |p|] == s[k + 1..k + 1 + |p|];
        ShiftOccurrence(s, p);
        Some(k + 1)
  }

  /** An occurrence after the first position is an occurrence in the tail, one position earlier. */
  lemma ShiftOccurrence(s: string, p: string)
    requires s != []
    ensures forall j: nat :: OccursAt(s, p, j) && j > 0 ==> OccursAt(s[1..], p, j - 1)
  {
    forall j: nat | OccursAt(s, p, j) && j > 0 ensures OccursAt(s[1..], p, j - 1) {
      assert s[1..][j - 1..j - 1 + |p|] == s[j..j + |p|];
    }
  }

  /** `s.includes(p)` in TypeScript, `p in s` in Python. */
  predicate Contains(s: string, p: string) {
    IndexOf(s, p).Some?
  }

  lemma LowerAppend(x: string, y: string)
    ensures Lower(x + y) == Lower(x) + Lower(y)
  {
  }

  /** A text occurs at the end of anything it is appended to. */
  lemma OccursAtEnd(x: string, p: string)
    ensures OccursAt(x + p, p, |x|) && Contains(x + p, p)
  {
    assert (x + p)[|x|..|x| + |p|] == p;
    assert OccursAt(x + p, p, |x|);
    ContainsIffOccurs(x + p, p);
  }

  /** `s.startsWith(p)` / `s.startswith(p)`. */
  predicate StartsWith(s: string, p: string) {
    |p| <= |s| && s[..|p|] == p
  }

  /** `s.endswith(p)`. */
  predicate EndsWith(s: string, p: string) {
    |p| <= |s| && s[|s| - |p|..] == p
  }

  lemma ContainsIffOccurs(s: string, p: string)
    ensures Contains(s, p) <==> exists j: nat :: OccursAt(s, p, j)
  {
    if Contains(s, p) {
      assert OccursAt(s, p, IndexOf(s, p).value);
    }
  }

  /** An occurrence inside an occurrence is an occurrence. */
  lemma ContainsTransitive(s: string, p: string, q: string)
    requires Contains(s, p) && Contains(p, q)
    ensures Contains(s, q)
  {
    var i, j := IndexOf(s, p).value, IndexOf(p, q).value;
    assert s[i..i + |p|] == p && p[j..j + |q|] == q;
    forall k | 0 <= k < |q| ensures s[i + j + k] == q[k] {
      assert q[k] == p[j + k] == s[i..i + |p|][j + k];
    }
    assert s[i + j..i + j + |q|] == q;
    assert OccursAt(s, q, i + j);
    ContainsIffOccurs(s, q);
  }

  /** A slice of a text without `p` is without `p`. */
  lemma NoneInSlice(s: string, p: string, a: nat, b: nat)
    requires !Contains(s, p) && a <= b <= |s|
    ensures !Contains(s[a..b], p)
  {
    ContainsIffOccurs(s, p);
    ContainsIffOccurs(s[a..b], p);
    forall j: nat | OccursAt(s[a..b], p, j) ensures OccursAt(s, p, a + j) {
      var t, u := s[a..b], s[a + j..a + j + |p|];
      forall k | 0 <= k < |p| ensures u[k] == p[k] {
        assert u[k] == s[a + j + k] == t[j + k];
        assert t[j..j + |p|][k] == t[j + k];
      }
      assert s[a + j..a + j + |p|] == p;
    }
  }

  /** A first occurrence is what `IndexOf` finds. */
  lemma IndexOfFirst(s: string, p: string, m: nat)
    requires OccursAt(s, p, m) && forall j: nat :: j < m ==> !OccursAt(s, p, j)
    ensures IndexOf(s, p) == Some(m)
  {
    var r := IndexOf(s, p);
    assert r.Some?;
    assert !(r.value < m) && !(m < r.value);
  }

  /** A text that occurs nowhere is not found. */
  lemma IndexOfAbsent(s: string, p: string)
    requires forall j: nat :: !OccursAt(s, p, j)
    ensures IndexOf(s, p) == None
  {
  }

  /** Occurrences in `x + y` at or after `|x|` are the occurrences in `y`, shifted. */
  lemma OccursShifted(x: string, y: string, p: string, i: nat)
    ensures OccursAt(x + y, p, |x| + i) <==> OccursAt(y, p, i)
  {
    if i + |p| <= |y| {
      assert (x + y)[|x| + i..|x| + i + |p|] == y[i..i + |p|];
    }
  }

  /** No occurrence of `p` starts inside text without `p`'s first character. */
  lemma NoOccurrenceInPrefix(x: string, y: string, p: string, j: nat)
    requires p != [] && forall i :: 0 <= i < |x| ==> x[i] != p[0]
    requires j < |x|
    ensures !OccursAt(x + y, p, j)
  {
    if j + |p| <= |x + y| {
      assert (x + y)[j..j + |p|][0] == x[j];
    }
  }

  lemma IndexOfSkipNone(x: string, y: string, p: string)
    requires p != [] && forall i :: 0 <= i < |x| ==> x[i] != p[0]
    ensures IndexOf(y, p).None? ==> IndexOf(x + y, p).None?
  {
    if IndexOf(y, p).None? {
      forall j: nat ensures !OccursAt(x + y, p, j) {
        if j < |x| {
          NoOccurrenceInPrefix(x, y, p, j);
        } else {
          OccursShifted(x, y, p, j - |x|);
        }
      }
      IndexOfAbsent(x + y, p);
    }
  }

  /** Before the first occurrence in `y`, `p` occurs nowhere in `x + y`. */
  lemma NoOccurrenceBefore(x: string, y: string, p: string, k: nat, j: nat)
    requires p != [] && forall i :: 0 <= i < |x| ==> x[i] != p[0]
    requires IndexOf(y, p) == Some(k) && j < |x| + k
    ensures !OccursAt(x + y, p, j)
  {
    if j < |x| {
      NoOccurrenceInPrefix(x, y, p, j);
    } else {
      OccursShifted(x, y, p, j - |x|);
    }
  }

  lemma NoOccurrenceBeforeAll(x: string, y: string, p: string, k: nat)
    requires p != [] && forall i :: 0 <= i < |x| ==> x[i] != p[0]
    requires IndexOf(y, p) == Some(k)
    ensures forall j: nat :: j < |x| + k ==> !OccursAt(x + y, p, j)
  {
    forall j: nat | j < |x| + k ensures !OccursAt(x + y, p, j) {
      NoOccurrenceBefore(x, y, p, k, j);
    }
  }

  lemma IndexOfSkipSome(x: string, y: string, p: string)
    requires p != [] && forall i :: 0 <= i < |x| ==> x[i] != p[0]
    ensures IndexOf(y, p).Some? ==> IndexOf(x + y, p).Some? && IndexOf(x + y, p).value == |x| + IndexOf(y, p).value
  {
    if IndexOf(y, p).Some? {
      var k := IndexOf(y, p).value;
      OccursShifted(x, y, p, k);
      NoOccurrenceBeforeAll(x, y, p, k);
      IndexOfFirst(x + y, p, |x| + k);
    }
  }

  /**
   * Text none of whose characters can start `p` only delays where `p` is
   * first found.
   */
  lemma IndexOfSkip(x: string, y: string, p: string)
    requires p != [] && forall i :: 0 <= i < |x| ==> x[i] != p[0]
    ensures IndexOf(y, p).None? ==> IndexOf(x + y, p).None?
    ensures IndexOf(y, p).Some? ==> IndexOf(x + y, p).Some? && IndexOf(x + y, p).value == |x| + IndexOf(y, p).value
  {
    IndexOfSkipNone(x, y, p);
    IndexOfSkipSome(x, y, p);
  }

  lemma AppendAssociative<T>(x: seq<T>, y: seq<T>, z: seq<T>)
    ensures x + (y + z) == (x + y) + z
  {
  }

  // ----------------------------------------------------------- whitespace

  predicate IsSpace(c: char) {
    c == ' ' || c == '\t' || c == '\n' || c == '\r' || c == '\U{000B}' || c == '\U{000C}'
  }

  predicate AllSpace(s: string) {
    forall i :: 0 <= i < |s| ==> IsSpace(s[i])
  }

  /** Drops leading whitespace (`trimStart`, `lstrip`). */
  function TrimStart(s: string): (r: string)
    ensures |r| <= |s| && r == s[|s| - |r|..]
    ensures AllSpace(s[..|s| - |r|])
    ensures r == [] || !IsSpace(r[0])
  {
    if s == [] || !IsSpace(s[0]) then s
    else
      var r := TrimStart(s[1..]);
      assert s[..|s| - |r|] == [s[0]] + s[1..][..|s[1..]| - |r|];
      r
  }

  /** Drops trailing whitespace (`trimEnd`, `rstrip`). */
  function TrimEnd(s: string): (r: string)
    ensures |r| <= |s| && r == s[..|r|]
    ensures AllSpace(s[|r|..])
    ensures r == [] || !IsSpace(r[|r| - 1])
  {
    if s == [] || !IsSpace(s[|s| - 1]) then s
    else
      var r := TrimEnd(s[..|s| - 1]);
      assert s[|r|..] == s[..|s| - 1][|r|..] + [s[|s| - 1]];
      r
  }

  /** Drops whitespace at both ends (`trim()` in TypeScript, `strip()` in Python). */
  function Strip(s: string): string {
    TrimEnd(TrimStart(s))
  }

  /** Text with no whitespace at either end is its own stripped form. */
  lemma StripUnpadded(s: string)
    requires s != [] && !IsSpace(s[0]) && !IsSpace(s[|s| - 1])
    ensures Strip(s) == s
  {
    assert TrimStart(s) == s;
  }

  /** Whitespace in front of text that does not start with whitespace is exactly what `trimStart` drops. */
  lemma {:induction false} TrimStartBlank(ws: string, p: string)
    requires AllSpace(ws) && (p == [] || !IsSpace(p[0]))
    ensures TrimStart(ws + p) == p
    decreases |ws|
  {
    if ws == [] {
      assert ws + p == p;
    } else {
      assert (ws + p)[0] == ws[0] && (ws + p)[1..] == ws[1..] + p;
      TrimStartBlank(ws[1..], p);
    }
  }

  /** Whitespace after text that does not end with whitespace is exactly what `trimEnd` drops. */
  lemma {:induction false} TrimEndBlank(p: string, ws: string)
    requires AllSpace(ws) && (p == [] || !IsSpace(p[|p| - 1]))
    ensures TrimEnd(p + ws) == p
    decreases |ws|
  {
    if ws == [] {
      assert p + ws == p;
    } else {
      var x := p + ws;
      assert x[|x| - 1] == ws[|ws| - 1] && x[..|x| - 1] == p + ws[..|ws| - 1];
      TrimEndBlank(p, ws[..|ws| - 1]);
    }
  }

  /** Stripping text padded with whitespace on both sides gives back the text. */
  lemma StripAround(ws: string, p: string, ws2: string)
    requires AllSpace(ws) && AllSpace(ws2)
    requires p != [] && !IsSpace(p[0]) && !IsSpace(p[|p| - 1])
    ensures Strip(ws + p + ws2) == p
  {
    assert ws + p + ws2 == ws + (p + ws2);
    assert (p + ws2)[0] == p[0];
    TrimStartBlank(ws, p + ws2);
    TrimEndBlank(p, ws2);
  }

  /** Every text is its stripped form with whitespace on both sides. */
  lemma StripParts(s: string) returns (ws: string, ws2: string)
    ensures AllSpace(ws) && AllSpace(ws2) && s == ws + Strip(s) + ws2
  {
    var a := TrimStart(s);
    var b := TrimEnd(a);
    ws := s[..|s| - |a|];
    ws2 := a[|b|..];
    SuffixSplit(s, a);
    PrefixSplit(a, b);
    Recompose(s, ws, a, b, ws2);
  }

  lemma SuffixSplit(s: string, a: string)
    requires |a| <= |s| && a == s[|s| - |a|..]
    ensures s == s[..|s| - |a|] + a
  {
  }

  lemma PrefixSplit(a: string, b: string)
    requires |b| <= |a| && b == a[..|b|]
    ensures a == b + a[|b|..]
  {
  }

  lemma Recompose(s: string, ws: string, a: string, b: string, ws2: string)
    requires s == ws + a && a == b + ws2
    ensures s == ws + b + ws2
  {
  }

  /** A stripped text is a slice of the original, with no whitespace at either end. */
  lemma StripSlice(s: string)
    ensures exists a: nat, b: nat :: a <= b <= |s| && Strip(s) == s[a..b]
    ensures var r := Strip(s); r == [] || (!IsSpace(r[0]) && !IsSpace(r[|r| - 1]))
  {
    var t := TrimStart(s);
    var r := TrimEnd(t);
    var a := |s| - |t|;
    assert r == s[a..a + |r|];
  }

  /** Stripping cannot create an occurrence. */
  lemma StripNoneIn(s: string, p: string)
    requires !Contains(s, p)
    ensures !Contains(Strip(s), p)
  {
    StripSlice(s);
    var a: nat, b: nat :| a <= b <= |s| && Strip(s) == s[a..b];
    NoneInSlice(s, p, a, b);
  }

  // -------------------------------------------------------------- split

  /** `Join(parts, sep)`: the inverse of `Split`. */
  function Join(parts: seq<string>, sep: string): string {
    if |parts| == 0 then ""
    else if |parts| == 1 then parts[0]
    else parts[0] + sep + Join(parts[1..], sep)
  }

  /**
   * Python's `s.split(sep)` for a non-empty separator: the pieces between
   * successive occurrences of `sep`, scanned left to right.
   */
  function Split(s: string, sep: string): (parts: seq<string>)
    requires sep != ""
    ensures |parts| >= 1
    ensures forall i :: 0 <= i < |parts| ==> !Contains(parts[i], sep)
    ensures Contains(s, sep) ==> |parts| >= 2
    ensures |parts[0]| <= |s| && parts[0] == s[..|parts[0]|]
    ensures |parts[0]| < |s| ==> OccursAt(s, sep, |parts[0]|)
    decreases |s|
  {
    match IndexOf(s, sep)
    case None => [s]
    case Some(k) =>
      PrefixOccurrence(s, sep, k);
      [s[..k]] + Split(s[k + |sep|..], sep)
  }

  /** An occurrence in a prefix is an occurrence in the whole text, ending within the prefix. */
  lemma PrefixOccurrence(s: string, p: string, k: nat)
    requires k <= |s|
    ensures forall j: nat :: OccursAt(s[..k], p, j) ==> OccursAt(s, p, j) && j + |p| <= k
  {
    forall j: nat | OccursAt(s[..k], p, j) ensures OccursAt(s, p, j) && j + |p| <= k {
      assert s[..k][j..j + |p|] == s[j..j + |p|];
    }
  }

  /** Joining the pieces of a split with the separator gives back the text. */
  lemma {:induction false} SplitJoin(s: string, sep: string)
    requires sep != ""
    ensures Join(Split(s, sep), sep) == s
    decreases |s|
  {
    var found := IndexOf(s, sep);
    if found.Some? {
      var k := found.value;
      var rest := s[k + |sep|..];
      SplitJoin(rest, sep);
      var tail := Split(rest, sep);
      var parts := [s[..k]] + tail;
      assert Split(s, sep) == parts;
      assert |parts| >= 2 && parts[0] == s[..k] && parts[1..] == tail;
      calc {
        Join(parts, sep);
        s[..k] + sep + Join(tail, sep);
        s[..k] + sep + rest;
        { assert s[k..k + |sep|] == sep; }
        s;
      }
    }
  }

  /**
   * Python's `s.split(sep, 1)` when `sep` occurs: the text before the first
   * occurrence and the text after it.
   */
  function SplitOnce(s: string, sep: string): (r: Option<(string, string)>)
    requires sep != ""
    ensures r.None? <==> !Contains(s, sep)
    ensures r.Some? ==> s == r.value.0 + sep + r.value.1 && !Contains(r.value.0 + sep[..|sep| - 1], sep)
  {
    match IndexOf(s, sep)
    case None => None
    case Some(k) =>
      var before, after := s[..k], s[k + |sep|..];
      assert s == before + sep + after by {
        assert s[k..k + |sep|] == sep;
      }
      assert !Contains(before + sep[..|sep| - 1], sep) by {
        var t := before + sep[..|sep| - 1];
        assert t == s[..k + |sep| - 1] by {
          assert s[k..k + |sep|] == sep;
        }
        forall j: nat | OccursAt(t, sep, j) ensures j < k && OccursAt(s, sep, j) {
          assert |t| == k + |sep| - 1;
          assert s[..k + |sep| - 1][j..j + |sep|] == s[j..j + |sep|];
        }
      }
      Some((before, after))
  }
}
