/** The JavaScript string operations the app relies on -- `split`, `join`,
    `trim`, the `\s` class of regular expressions and ASCII case-insensitive
    prefix tests -- written out as Dafny functions on `string`. */
module JsText {

  /** A character `String.prototype.trim` removes and `\s` matches in a
      regular expression: JavaScript's WhiteSpace and LineTerminator code
      points. */
  predicate IsWhitespace(c: char) {
    || c == ' ' || c == '\t' || c == '\n' || c == '\U{000B}' || c == '\U{000C}' || c == '\r'
    || c == '\U{00A0}' || c == '\U{1680}' || '\U{2000}' <= c <= '\U{200A}'
    || c == '\U{2028}' || c == '\U{2029}' || c == '\U{202F}' || c == '\U{205F}'
    || c == '\U{3000}' || c == '\U{FEFF}'
  }

  /** Every character of `s` is whitespace (the empty string included). */
  predicate IsBlank(s: string) {
    forall i :: 0 <= i < |s| ==> IsWhitespace(s[i])
  }

  /** Neither the first nor the last character of `s` is whitespace. */
  predicate NoOuterWhitespace(s: string) {
    s == [] || (!IsWhitespace(s[0]) && !IsWhitespace(s[|s| - 1]))
  }

  /** `s.trimStart()`: the leading whitespace is dropped and nothing else. */
  function TrimStart(s: string): (r: string)
    ensures |r| <= |s| && r == s[|s| - |r|..]
    ensures IsBlank(s[..|s| - |r|])
    ensures r == [] || !IsWhitespace(r[0])
  {
    if |s| > 0 && IsWhitespace(s[0]) then
      var t := s[1..];
      var r := TrimStart(t);
      assert IsBlank(s[..|s| - |r|]) by {
        forall i | 0 <= i < |s| - |r| ensures IsWhitespace(s[i]) {
          if i > 0 {
            assert s[i] == t[..|t| - |r|][i - 1];
          }
        }
      }
      r
    else
      s
  }

  /** `s.trimEnd()`: the trailing whitespace is dropped and nothing else. */
  function TrimEnd(s: string): (r: string)
    ensures |r| <= |s| && r == s[..|r|]
    ensures IsBlank(s[|r|..])
    ensures r == [] || !IsWhitespace(r[|r| - 1])
  {
    if |s| > 0 && IsWhitespace(s[|s| - 1]) then
      var r := TrimEnd(s[..|s| - 1]);
      assert s[|r|..] == s[..|s| - 1][|r|..] + [s[|s| - 1]];
      BlankAppend(s[..|s| - 1][|r|..], [s[|s| - 1]]);
      r
    else
      s
  }

  /** `r` is the piece of `s` at index `a`, and what lies before and after
      it is blank. */
  predicate CutAt(r: string, s: string, a: int) {
    0 <= a <= |s| - |r| && r == s[a..a + |r|] && IsBlank(s[..a]) && IsBlank(s[a + |r|..])
  }

  /** `r` is `s` with blank pieces cut off both ends, and no whitespace
      left at either end of `r`. */
  predicate TrimmedFrom(r: string, s: string) {
    NoOuterWhitespace(r) && exists a :: 0 <= a <= |s| && CutAt(r, s, a)
  }

  /** `s.trim()`: a contiguous piece of `s` with only whitespace cut off on
      either side, which is empty exactly when `s` is blank. */
  function Trim(s: string): (r: string)
    ensures TrimmedFrom(r, s)
    ensures r == [] <==> IsBlank(s)
  {
    var t := TrimStart(s);
    TrimPieces(s, t, TrimEnd(t));
    TrimEnd(t)
  }

  /** What trimming both ends amounts to, given what trimming each end does. */
  lemma TrimPieces(s: string, t: string, r: string)
    requires |t| <= |s| && t == s[|s| - |t|..] && IsBlank(s[..|s| - |t|])
    requires t == [] || !IsWhitespace(t[0])
    requires |r| <= |t| && r == t[..|r|] && IsBlank(t[|r|..])
    requires r == [] || !IsWhitespace(r[|r| - 1])
    ensures TrimmedFrom(r, s)
    ensures r == [] <==> IsBlank(s)
  {
    var a := |s| - |t|;
    assert s[a + |r|..] == t[|r|..];
    assert r == s[a..a + |r|];
    assert CutAt(r, s, a);
    if r == [] {
      BlankAppend(s[..a], s[a..]);
      assert s[..a] + s[a..] == s;
    } else {
      assert r[0] == s[a];
    }
  }

  /** Trimming a string with no whitespace at either end changes nothing. */
  lemma TrimUntouched(s: string)
    requires NoOuterWhitespace(s)
    ensures Trim(s) == s
  {
    var r := Trim(s);
    var a :| 0 <= a <= |s| && CutAt(r, s, a);
  }

  /** Text whose leading whitespace is already gone trims like the text it
      came from. */
  lemma TrimAfterTrimStart(s: string)
    ensures Trim(TrimStart(s)) == Trim(s)
  {
    var t := TrimStart(s);
    assert TrimStart(t) == t;
  }

  /** A concatenation of blank strings is blank. */
  lemma BlankAppend(x: string, y: string)
    requires IsBlank(x) && IsBlank(y)
    ensures IsBlank(x + y)
  {
    forall i | 0 <= i < |x + y| ensures IsWhitespace((x + y)[i]) {
      if i < |x| { assert (x + y)[i] == x[i]; } else { assert (x + y)[i] == y[i - |x|]; }
    }
  }

  /** `sep` occurs in `s` starting at index `k`. */
  predicate OccursAt(s: string, sep: string, k: int) {
    0 <= k && k + |sep| <= |s| && s[k..k + |sep|] == sep
  }

  /** `s.includes(sep)`. */
  predicate Contains(s: string, sep: string) {
    exists k :: 0 <= k <= |s| && OccursAt(s, sep, k)
  }

  /** `s.indexOf(sep, from)`: the first occurrence of `sep` at or after
      `from`, or -1 when there is none. */
  function IndexOf(s: string, sep: string, from: nat): (r: int)
    requires from <= |s|
    ensures r == -1 || (from <= r && OccursAt(s, sep, r))
    ensures forall k :: from <= k && (r == -1 || k < r) ==> !OccursAt(s, sep, k)
    decreases |s| - from
  {
    if from + |sep| > |s| then -1
    else if s[from..from + |sep|] == sep then from
    else IndexOf(s, sep, from + 1)
  }

  /** `s.split(sep)` for a non-empty string separator: the pieces between
      the occurrences of `sep`, found left to right without overlap. */
  function Split(s: string, sep: string): (parts: seq<string>)
    requires |sep| > 0
    ensures |parts| >= 1
    decreases |s|
  {
    var k := IndexOf(s, sep, 0);
    if k < 0 then [s]
    else [s[..k]] + Split(s[k + |sep|..], sep)
  }

  /** No piece of a split contains the separator. */
  lemma {:induction false} SplitPiecesFree(s: string, sep: string)
    requires |sep| > 0
    ensures forall p <- Split(s, sep) :: !Contains(p, sep)
    decreases |s|
  {
    var k := IndexOf(s, sep, 0);
    if k >= 0 {
      var head := s[..k];
      assert !Contains(head, sep) by {
        forall j | OccursAt(head, sep, j) ensures false {
          assert head[j..j + |sep|] == s[j..j + |sep|];
          assert OccursAt(s, sep, j);
        }
      }
      SplitPiecesFree(s[k + |sep|..], sep);
    }
  }

  /** The three pieces of `p + x + q` sit where the lengths say. */
  lemma Spliced(p: string, x: string, q: string)
    ensures |p + x + q| == |p| + |x| + |q|
    ensures (p + x + q)[..|p|] == p
    ensures (p + x + q)[|p|..|p| + |x|] == x
    ensures (p + x + q)[|p| + |x|..] == q
  {
    assert (p + x + q)[..|p|] == p;
    assert (p + x + q)[|p|..|p| + |x|] == x;
    assert (p + x + q)[|p| + |x|..] == q;
  }

  /** The five pieces of `p + x + m + y + q` sit where the lengths say. */
  lemma SplicedTwice(p: string, x: string, m: string, y: string, q: string)
    ensures var r := p + x + m + y + q;
            var b := |p| + |x| + |m|;
            && |r| == b + |y| + |q|
            && r[..|p|] == p
            && r[|p|..|p| + |x|] == x
            && r[|p| + |x|..b] == m
            && r[b..b + |y|] == y
            && r[b + |y|..] == q
  {
    var r := p + x + m + y + q;
    var b := |p| + |x| + |m|;
    assert r[..|p|] == p;
    assert r[|p|..|p| + |x|] == x;
    assert r[|p| + |x|..b] == m;
    assert r[b..b + |y|] == y;
    assert r[b + |y|..] == q;
  }

  /** `parts.join(sep)`. */
  function Join(parts: seq<string>, sep: string): string {
    if |parts| == 0 then ""
    else if |parts| == 1 then parts[0]
    else parts[0] + sep + Join(parts[1..], sep)
  }

  /** A join opens with its first part and closes with its last; with no
      parts it is empty. */
  lemma {:induction false} JoinEnds(parts: seq<string>, sep: string)
    ensures |parts| == 0 ==> Join(parts, sep) == ""
    ensures |parts| > 0 ==> var r := Join(parts, sep); |parts[0]| <= |r| && r[..|parts[0]|] == parts[0]
    ensures |parts| > 0 ==> var r := Join(parts, sep); var last := parts[|parts| - 1];
              |last| <= |r| && r[|r| - |last|..] == last
  {
    if |parts| > 1 {
      var t := Join(parts[1..], sep);
      JoinEnds(parts[1..], sep);
      var r := parts[0] + sep + t;
      assert parts[1..][|parts| - 2] == parts[|parts| - 1];
      assert r[|r| - |t|..] == t;
      assert r[..|parts[0]|] == parts[0];
    }
  }

  /** Joining the pieces of a split with the same separator gives back the
      original string. */
  lemma {:induction false} JoinSplit(s: string, sep: string)
    requires |sep| > 0
    ensures Join(Split(s, sep), sep) == s
    decreases |s|
  {
    var k := IndexOf(s, sep, 0);
    if k >= 0 {
      var rest := s[k + |sep|..];
      var tail := Split(rest, sep);
      assert Split(s, sep) == [s[..k]] + tail;
      JoinSplit(rest, sep);
      assert ([s[..k]] + tail)[1..] == tail;
      assert s == s[..k] + s[k..k + |sep|] + rest;
    }
  }

  /** The first occurrence of a one-character separator in `a + sep + b`
      lies inside `a` when `a` has one, and is the separator itself otherwise. */
  lemma FirstOccurrenceAcrossAppend(a: string, sep: string, b: string)
    requires |sep| == 1
    ensures var i := IndexOf(a, sep, 0);
            IndexOf(a + sep + b, sep, 0) == if i < 0 then |a| else i
  {
    var s := a + sep + b;
    var i := IndexOf(a, sep, 0);
    var m := if i < 0 then |a| else i;
    assert OccursAt(s, sep, m) by {
      if i < 0 { assert s[|a|..|a| + 1] == sep; } else { assert s[i..i + 1] == a[i..i + 1]; }
    }
    forall k | 0 <= k < m ensures !OccursAt(s, sep, k) {
      assert s[k..k + 1] == a[k..k + 1];
      assert !OccursAt(a, sep, k);
    }
  }

  /** Splitting on a one-character separator distributes over a join at
      that separator. */
  lemma {:induction false} SplitAppend(a: string, sep: string, b: string)
    requires |sep| == 1
    ensures Split(a + sep + b, sep) == Split(a, sep) + Split(b, sep)
    decreases |a|
  {
    var s := a + sep + b;
    var i := IndexOf(a, sep, 0);
    FirstOccurrenceAcrossAppend(a, sep, b);
    if i < 0 {
      assert s[..|a|] == a;
      assert s[|a| + 1..] == b;
    } else {
      assert s[..i] == a[..i];
      assert s[i + 1..] == a[i + 1..] + sep + b;
      SplitAppend(a[i + 1..], sep, b);
    }
  }

  /** For a one-character separator, splitting undoes joining, as long as
      no piece contains the separator. */
  lemma {:induction false} SplitJoin(parts: seq<string>, sep: string)
    requires |sep| == 1 && |parts| >= 1
    requires forall p <- parts :: !Contains(p, sep)
    ensures Split(Join(parts, sep), sep) == parts
    decreases |parts|
  {
    var p := parts[0];
    assert p in parts;
    assert !Contains(p, sep);
    assert IndexOf(p, sep, 0) == -1;
    if |parts| == 1 {
      assert Split(p, sep) == [p];
    } else {
      SplitAppend(p, sep, Join(parts[1..], sep));
      SplitJoin(parts[1..], sep);
      assert Split(p, sep) == [p];
      assert parts == [p] + parts[1..];
    }
  }

  /** Joining a prefix of the pieces gives a prefix of the joined string. */
  lemma {:induction false} JoinPrefix(parts: seq<string>, sep: string, n: nat)
    requires n <= |parts|
    ensures var j := Join(parts[..n], sep); |j| <= |Join(parts, sep)| && j == Join(parts, sep)[..|j|]
    decreases n
  {
    if n >= 2 {
      JoinPrefix(parts[1..], sep, n - 1);
      assert parts[..n][1..] == parts[1..][..n - 1];
    } else if n == 1 && |parts| > 1 {
      assert parts[..1] == [parts[0]];
    }
  }

  /** Joining blank pieces with a blank separator gives a blank string. */
  lemma {:induction false} JoinBlank(parts: seq<string>, sep: string)
    requires IsBlank(sep)
    requires forall p <- parts :: IsBlank(p)
    ensures IsBlank(Join(parts, sep))
    decreases |parts|
  {
    if |parts| >= 2 {
      JoinBlank(parts[1..], sep);
      assert parts[0] in parts;
      var j := parts[0] + sep;
      var s := j + Join(parts[1..], sep);
      forall i | 0 <= i < |s| ensures IsWhitespace(s[i]) {
        if i < |parts[0]| { assert s[i] == parts[0][i]; }
        else if i < |j| { assert s[i] == sep[i - |parts[0]|]; }
        else { assert s[i] == Join(parts[1..], sep)[i - |j|]; }
      }
    } else if |parts| == 1 {
      assert parts[0] in parts;
    }
  }

  /** ASCII case-insensitive comparison of a text character with a pattern
      character, as a regular expression with the `i` flag (and without the
      `u` flag) compares them: a lower-case ASCII letter in the pattern also
      matches its upper-case form, and nothing else is folded. */
  predicate CharMatchesIgnoringCase(c: char, p: char) {
    c == p || ('a' <= p <= 'z' && c as int == p as int - 32)
  }

  /** `s` begins with `p`, compared case-insensitively. */
  predicate StartsWithIgnoringCase(s: string, p: string) {
    |p| <= |s| && forall i :: 0 <= i < |p| ==> CharMatchesIgnoringCase(s[i], p[i])
  }

  /** A case-insensitive prefix of `s` is also matched by each of its own
      prefixes. */
  lemma StartsWithPrefix(s: string, p: string, q: string)
    requires StartsWithIgnoringCase(s, p + q)
    ensures StartsWithIgnoringCase(s, p)
  {
    forall i | 0 <= i < |p| ensures CharMatchesIgnoringCase(s[i], p[i]) {
      assert (p + q)[i] == p[i];
    }
  }

  /** Every character of `s` is a decimal digit. */
  predicate AllDigits(s: string) {
    forall i :: 0 <= i < |s| ==> '0' <= s[i] <= '9'
  }

  /** The number a string of decimal digits denotes. */
  function DigitsValue(s: string): nat
    requires AllDigits(s)
  {
    if |s| == 0 then 0
    else DigitsValue(s[..|s| - 1]) * 10 + (s[|s| - 1] as int - '0' as int)
  }

  /** `n.toString()` for a natural number: its decimal digits, with no
      leading zero, denoting `n`. */
  function DecimalString(n: nat): (r: string)
    ensures |r| >= 1
    ensures AllDigits(r)
    ensures r[0] != '0' || r == "0"
    ensures DigitsValue(r) == n
  {
    var d := ['0' + (n % 10) as char];
    if n < 10 then d
    else
      var h := DecimalString(n / 10);
      var r := h + d;
      assert r[..|r| - 1] == h;
      assert r[0] == h[0];
      r
  }

  /** Distinct clock readings render as distinct identifiers. */
  lemma DecimalStringInjective(n: nat, m: nat)
    requires n != m
    ensures DecimalString(n) != DecimalString(m)
  {
  }
}
