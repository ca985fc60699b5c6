/** The string operations of the JavaScript runtime that the components rely on:
    `String.prototype.trim`, `toLowerCase` (on ASCII letters), `includes`, and
    `split(' ')` / joining with a single separator. */
module Text {

  // ---------------------------------------------------------------------------
  // trim()
  // ---------------------------------------------------------------------------

  /** The characters ECMAScript's `trim` removes: WhiteSpace (tab, vertical tab, form feed,
      the byte order mark and every space separator) and LineTerminator (LF, CR, LS, PS). */
  predicate IsWhitespace(c: char) {
    c == '\t' || c == '\n' || c == '\U{000B}' || c == '\U{000C}' || c == '\r' || c == ' '
    || c == '\U{00A0}' || c == '\U{1680}' || ('\U{2000}' <= c <= '\U{200A}')
    || c == '\U{2028}' || c == '\U{2029}' || c == '\U{202F}' || c == '\U{205F}'
    || c == '\U{3000}' || c == '\U{FEFF}'
  }

  predicate AllWhitespace(s: string) {
    forall k :: 0 <= k < |s| ==> IsWhitespace(s[k])
  }

  /** Every character of `s` in positions `lo` up to (not including) `hi` is whitespace. */
  predicate WhitespaceBetween(s: string, lo: nat, hi: nat)
    requires lo <= hi <= |s|
  {
    forall k :: lo <= k < hi ==> IsWhitespace(s[k])
  }

  /** The first position at or after `i` that does not hold whitespace (or `|s|`). */
  function TextStart(s: string, i: nat): (n: nat)
    requires i <= |s|
    ensures i <= n <= |s| && WhitespaceBetween(s, i, n)
    ensures n < |s| ==> !IsWhitespace(s[n])
    decreases |s| - i
  {
    if i < |s| && IsWhitespace(s[i]) then TextStart(s, i + 1) else i
  }

  /** The position just after the last non-whitespace character in `lo .. j` (or `lo`). */
  function TextEnd(s: string, lo: nat, j: nat): (e: nat)
    requires lo <= j <= |s|
    ensures lo <= e <= j && WhitespaceBetween(s, e, j)
    ensures e > lo ==> !IsWhitespace(s[e - 1])
    decreases j
  {
    if j > lo && IsWhitespace(s[j - 1]) then TextEnd(s, lo, j - 1) else j
  }

  /** `s.trim()`: the slice of `s` left once leading and trailing whitespace is cut off. */
  function Trim(s: string): (r: string)
    ensures |r| <= |s|
    ensures r != [] ==> !IsWhitespace(r[0]) && !IsWhitespace(r[|r| - 1])
    ensures r == [] <==> AllWhitespace(s)
    ensures var i := TextStart(s, 0);
            i + |r| <= |s| && s[i..i + |r|] == r
            && WhitespaceBetween(s, 0, i) && WhitespaceBetween(s, i + |r|, |s|)
  {
    var i := TextStart(s, 0);
    var j := TextEnd(s, i, |s|);
    if i == j then
      assert forall k :: 0 <= k < |s| ==> (k < i || i <= k) && IsWhitespace(s[k]);
      []
    else
      assert s[i] == s[i..j][0];
      s[i..j]
  }

  // ---------------------------------------------------------------------------
  // toLowerCase() on ASCII letters
  // ---------------------------------------------------------------------------

  predicate IsUpper(c: char) { 'A' <= c <= 'Z' }

  /** ASCII case folding: an upper-case letter becomes its lower-case letter, everything else is unchanged. */
  function LowerChar(c: char): (d: char)
    ensures IsUpper(c) ==> 'a' <= d <= 'z' && d as int - c as int == 32
    ensures !IsUpper(c) ==> d == c
  {
    if IsUpper(c) then (c as int + 32) as char else c
  }

  /** `s.toLowerCase()` restricted to ASCII letters. */
  function Lower(s: string): (r: string)
    ensures |r| == |s|
    ensures forall k :: 0 <= k < |s| ==> r[k] == LowerChar(s[k])
  {
    if s == [] then [] else [LowerChar(s[0])] + Lower(s[1..])
  }

  /** Two characters that are equal or are the two cases of one ASCII letter. */
  predicate SameLetterUpToCase(c: char, d: char) {
    c == d || (IsUpper(c) && LowerChar(c) == d) || (IsUpper(d) && LowerChar(d) == c)
  }

  /** Two strings that differ only in the case of ASCII letters. */
  predicate SameUpToCase(a: string, b: string) {
    |a| == |b| && forall k :: 0 <= k < |a| ==> SameLetterUpToCase(a[k], b[k])
  }

  /** Lower-casing identifies exactly the strings that differ only in letter case. */
  lemma LowerEqualIff(a: string, b: string)
    ensures Lower(a) == Lower(b) <==> SameUpToCase(a, b)
  {
    if SameUpToCase(a, b) {
      assert forall k :: 0 <= k < |a| ==> Lower(a)[k] == Lower(b)[k];
    }
    if Lower(a) == Lower(b) {
      forall k | 0 <= k < |a| ensures SameLetterUpToCase(a[k], b[k]) {
        assert LowerChar(a[k]) == LowerChar(b[k]);
      }
    }
  }

  // ---------------------------------------------------------------------------
  // includes()
  // ---------------------------------------------------------------------------

  /** `needle` occurs in `hay` starting at position `i`. */
  predicate OccursAt(hay: string, needle: string, i: int) {
    0 <= i && i + |needle| <= |hay| && hay[i..i + |needle|] == needle
  }

  /** Some slice of `hay` equals `needle`. */
  ghost predicate Includes(hay: string, needle: string) {
    exists i :: OccursAt(hay, needle, i)
  }

  /** `hay.includes(needle)`, computed by trying each starting position in turn. */
  function Contains(hay: string, needle: string): (b: bool)
    ensures b <==> Includes(hay, needle)
    decreases |hay|
  {
    if |needle| > |hay| then
      assert forall i :: !OccursAt(hay, needle, i);
      false
    else if hay[..|needle|] == needle then
      assert OccursAt(hay, needle, 0);
      true
    else
      var b := Contains(hay[1..], needle);
      assert b <==> exists i :: OccursAt(hay, needle, i) by {
        forall i | OccursAt(hay[1..], needle, i) ensures OccursAt(hay, needle, i + 1) {
          assert hay[1..][i..i + |needle|] == hay[i + 1..i + 1 + |needle|];
        }
        forall i | OccursAt(hay, needle, i) ensures OccursAt(hay[1..], needle, i - 1) {
          assert i != 0;
          assert hay[1..][i - 1..i - 1 + |needle|] == hay[i..i + |needle|];
        }
      }
      b
  }

  /** Every string includes the empty string. */
  lemma ContainsEmpty(hay: string)
    ensures Contains(hay, "")
  {
    assert OccursAt(hay, "", 0);
  }

  // ---------------------------------------------------------------------------
  // split(sep) and its inverse
  // ---------------------------------------------------------------------------

  /** The position of the first `c` in `s`, or `|s|` when there is none. */
  function IndexOf(s: string, c: char): (i: nat)
    ensures i <= |s|
    ensures i < |s| ==> s[i] == c
    ensures forall k :: 0 <= k < i ==> s[k] != c
  {
    if s == [] then 0
    else if s[0] == c then 0
    else 1 + IndexOf(s[1..], c)
  }

  /** `s.split(sep)` for a one-character separator: the pieces between separators,
      empty pieces included, so there is always at least one. */
  function Split(s: string, sep: char): (parts: seq<string>)
    ensures |parts| >= 1
    ensures forall k :: 0 <= k < |parts| ==> sep !in parts[k]
    decreases |s|
  {
    var i := IndexOf(s, sep);
    if i == |s| then
      assert forall k :: 0 <= k < |s| ==> s[k] != sep;
      [s]
    else
      assert forall k :: 0 <= k < i ==> s[..i][k] != sep;
      [s[..i]] + Split(s[i + 1..], sep)
  }

  /** The pieces put back together with `sep` between neighbours, built left to right the way
      an accumulator `text += (index > 0 ? sep : '') + word` builds it. */
  function Join(parts: seq<string>, sep: char): string
  {
    if parts == [] then ""
    else
      var n := |parts| - 1;
      Join(parts[..n], sep) + (if n > 0 then [sep] else "") + parts[n]
  }

  /** Joining a piece in front of a non-empty sequence of pieces. */
  lemma {:induction false} JoinCons(w: string, parts: seq<string>, sep: char)
    requires parts != []
    ensures Join([w] + parts, sep) == w + [sep] + Join(parts, sep)
    decreases |parts|
  {
    var n := |parts| - 1;
    var all := [w] + parts;
    assert all[..n + 1] == [w] + parts[..n];
    assert all[n + 1] == parts[n];
    if n > 0 {
      JoinCons(w, parts[..n], sep);
    } else {
      assert all[..n + 1] == [w];
    }
  }

  /** Splitting and joining again gives back the original string. */
  lemma {:induction false} SplitThenJoin(s: string, sep: char)
    ensures Join(Split(s, sep), sep) == s
    decreases |s|
  {
    var i := IndexOf(s, sep);
    if i == |s| {
      assert Split(s, sep) == [s];
      assert Join([s], sep) == s by { assert [s][..0] == []; }
    } else {
      SplitThenJoin(s[i + 1..], sep);
      SplitThenJoinStep(s, sep);
    }
  }

  /** One step of the round trip: if it holds after the first separator, it holds for the whole string. */
  lemma SplitThenJoinStep(s: string, sep: char)
    requires IndexOf(s, sep) < |s|
    requires Join(Split(s[IndexOf(s, sep) + 1..], sep), sep) == s[IndexOf(s, sep) + 1..]
    ensures Join(Split(s, sep), sep) == s
  {
    var i := IndexOf(s, sep);
    var head, tail := s[..i], s[i + 1..];
    var rest := Split(tail, sep);
    assert Split(s, sep) == [head] + rest;
    JoinCons(head, rest, sep);
    assert Join(Split(s, sep), sep) == head + [sep] + tail;
    SliceAround(s, i);
  }

  /** A string is the part before position `i`, the character there and the part after. */
  lemma SliceAround(s: string, i: nat)
    requires i < |s|
    ensures s == s[..i] + [s[i]] + s[i + 1..]
  {
  }

  /** Joining pieces that contain no separator and splitting again gives back the pieces. */
  lemma {:induction false} JoinThenSplit(parts: seq<string>, sep: char)
    requires parts != []
    requires forall k :: 0 <= k < |parts| ==> sep !in parts[k]
    ensures Split(Join(parts, sep), sep) == parts
    decreases |parts|
  {
    var w := parts[0];
    var tail := parts[1..];
    assert parts == [w] + tail;
    if tail == [] {
      assert Join(parts, sep) == w by { assert parts[..0] == []; }
      assert IndexOf(w, sep) == |w|;
    } else {
      JoinCons(w, tail, sep);
      var s := Join(parts, sep);
      assert s == w + [sep] + Join(tail, sep);
      assert IndexOf(s, sep) == |w| by {
        IndexOfAfter(w, Join(tail, sep), sep);
      }
      assert s[..|w|] == w;
      assert s[|w| + 1..] == Join(tail, sep);
      JoinThenSplit(tail, sep);
    }
  }

  /** The first separator of `w + [sep] + t` is the one after `w` when `w` holds none. */
  lemma IndexOfAfter(w: string, t: string, sep: char)
    requires sep !in w
    ensures IndexOf(w + [sep] + t, sep) == |w|
  {
    var s := w + [sep] + t;
    assert s[|w|] == sep;
    assert forall k :: 0 <= k < |w| ==> s[k] == w[k];
  }

  /** Each left-to-right partial join is a prefix of the full join. */
  lemma {:induction false} JoinPrefix(parts: seq<string>, k: nat, sep: char)
    requires k <= |parts|
    ensures Join(parts[..k], sep) <= Join(parts, sep)
    decreases |parts| - k
  {
    if k < |parts| {
      JoinPrefix(parts, k + 1, sep);
      assert parts[..k + 1][..k] == parts[..k];
    } else {
      assert parts[..k] == parts;
    }
  }
}
