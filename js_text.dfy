/** The JavaScript string operations the pages rely on, stated over
    `seq<char>`: `trim`, `split`, `join`, `slice(-n)`, `toLowerCase`,
    `toUpperCase`, `includes`, the `||` fallback on strings and the decimal
    rendering of a non-negative integer. Case mapping is ASCII only and the
    whitespace set is the fixed one below (Unicode tables are not modelled). */
module JsText {
  import opened Maybe

  // ---------------------------------------------------------------------------
  // Whitespace and trim
  // ---------------------------------------------------------------------------

  /** The characters `String.prototype.trim` strips that this model knows of:
      ASCII space and control whitespace, no-break space and the byte-order mark. */
  predicate IsWhitespace(c: char) {
    c == ' ' || c == '\t' || c == '\n' || c == '\r' || c == '\U{000B}' ||
    c == '\U{000C}' || c == '\U{00A0}' || c == '\U{FEFF}'
  }

  /** Leading whitespace removed: what is left is a suffix of `s` that does not
      start with whitespace, and every character dropped was whitespace. */
  function TrimStart(s: string): (r: string)
    ensures |r| <= |s| && r == s[|s| - |r|..]
    ensures r == [] || !IsWhitespace(r[0])
    ensures forall i :: 0 <= i < |s| - |r| ==> IsWhitespace(s[i])
  {
    if s != [] && IsWhitespace(s[0]) then TrimStart(s[1..]) else s
  }

  /** Trailing whitespace removed: a prefix of `s` that does not end with
      whitespace, and every character dropped was whitespace. */
  function TrimEnd(s: string): (r: string)
    ensures |r| <= |s| && r == s[..|r|]
    ensures r == [] || !IsWhitespace(r[|r| - 1])
    ensures forall i :: |r| <= i < |s| ==> IsWhitespace(s[i])
  {
    if s != [] && IsWhitespace(s[|s| - 1]) then TrimEnd(s[..|s| - 1]) else s
  }

  /** `s.trim()` */
  function Trim(s: string): string {
    TrimEnd(TrimStart(s))
  }

  /** `s.trim() === ""`, the emptiness test both the feature filter and the
      search guard use. */
  predicate IsBlank(s: string) {
    Trim(s) == ""
  }

  /** A string trims to the empty string exactly when all its characters are
      whitespace. */
  lemma BlankIffAllWhitespace(s: string)
    ensures IsBlank(s) <==> forall i :: 0 <= i < |s| ==> IsWhitespace(s[i])
  {
    var t := TrimStart(s);
    if !forall i :: 0 <= i < |s| ==> IsWhitespace(s[i]) {
      var k :| 0 <= k < |s| && !IsWhitespace(s[k]);
      assert k >= |s| - |t|;
      assert t[k - (|s| - |t|)] == s[k];
      assert t != [] && !IsWhitespace(t[0]);
    }
  }

  // ---------------------------------------------------------------------------
  // Case mapping and substring search
  // ---------------------------------------------------------------------------

  function LowerChar(c: char): char {
    if 'A' <= c <= 'Z' then (c as int - 'A' as int + 'a' as int) as char else c
  }

  function UpperChar(c: char): char {
    if 'a' <= c <= 'z' then (c as int - 'a' as int + 'A' as int) as char else c
  }

  /** `s.toLowerCase()`, ASCII letters only: each upper-case letter becomes
      its lower-case letter, so none is left, and every other character is
      kept. */
  function ToLower(s: string): (r: string)
    ensures |r| == |s|
    ensures forall i :: 0 <= i < |r| ==> !('A' <= r[i] <= 'Z')
    ensures forall i :: 0 <= i < |s| && 'A' <= s[i] <= 'Z' ==> r[i] as int == s[i] as int + 32
    ensures forall i :: 0 <= i < |s| && !('A' <= s[i] <= 'Z') ==> r[i] == s[i]
  {
    seq(|s|, i requires 0 <= i < |s| => LowerChar(s[i]))
  }

  /** `s.toUpperCase()`, ASCII letters only. */
  function ToUpper(s: string): string {
    seq(|s|, i requires 0 <= i < |s| => UpperChar(s[i]))
  }

  predicate StartsWith(s: string, prefix: string) {
    |prefix| <= |s| && s[..|prefix|] == prefix
  }

  /** `t` occurs in `s` starting at index `i`. */
  predicate OccursAt(s: string, t: string, i: int) {
    0 <= i <= |s| - |t| && s[i..i + |t|] == t
  }

  /** `s.includes(t)`: `t` occurs in `s` at some position. */
  function Contains(s: string, t: string): (b: bool)
    ensures b <==> exists i :: OccursAt(s, t, i)
  {
    if StartsWith(s, t) then
      assert OccursAt(s, t, 0);
      true
    else if s == [] then false
    else
      if Contains(s[1..], t) then
        var j :| OccursAt(s[1..], t, j);
        SliceOfTail(s, j + 1, |t|);
        assert OccursAt(s, t, j + 1);
        true
      else
        assert !OccursAt(s, t, 0);
        assert forall i :: OccursAt(s, t, i) ==> OccursAt(s[1..], t, i - 1) by {
          forall i | OccursAt(s, t, i) ensures OccursAt(s[1..], t, i - 1) {
            SliceOfTail(s, i, |t|);
          }
        }
        false
  }

  /** A slice of `s` starting after its first character is the matching
      slice of `s[1..]`. */
  lemma SliceOfTail(s: string, i: int, n: nat)
    requires 1 <= i && i + n <= |s|
    ensures s[i..i + n] == s[1..][i - 1..i - 1 + n]
  {
    var u, v := s[i..i + n], s[1..][i - 1..i - 1 + n];
    assert |u| == n == |v|;
    assert forall k :: 0 <= k < n ==> u[k] == s[i + k] == v[k];
  }

  /** Lower-casing ignores the case the text was in. */
  lemma LowerOfUpper(s: string)
    ensures ToLower(ToUpper(s)) == ToLower(s)
  {
    forall i | 0 <= i < |s|
      ensures ToLower(ToUpper(s))[i] == ToLower(s)[i]
    {
      var c := s[i];
      if 'a' <= c <= 'z' {
        assert UpperChar(c) as int == c as int - 32;
      }
    }
  }

  // ---------------------------------------------------------------------------
  // split / join / slice
  // ---------------------------------------------------------------------------

  /** `s.split(sep)` for a one-character separator: never empty, and no part
      contains the separator. */
  function Split(s: string, sep: char): (parts: seq<string>)
    ensures |parts| >= 1
    ensures forall i :: 0 <= i < |parts| ==> sep !in parts[i]
    ensures sep !in s ==> parts == [s]
    ensures sep in s ==> |parts| >= 2
    ensures StartsWith(s, parts[0]) && (|parts[0]| == |s| || s[|parts[0]|] == sep)
  {
    if s == [] then [""]
    else
      assert s == [s[0]] + s[1..];
      SplitStep(s[0], sep, Split(s[1..], sep))
  }

  /** One character in front of an already split rest: a separator opens a
      new empty part, any other character joins the first part. */
  function SplitStep(c: char, sep: char, rest: seq<string>): seq<string>
    requires |rest| >= 1
  {
    if c == sep then [""] + rest else [[c] + rest[0]] + rest[1..]
  }

  /** Prepending a character only affects the first part, so it commutes with
      appending further parts. */
  lemma StepAppend(c: char, sep: char, x: seq<string>, y: seq<string>)
    requires |x| >= 1
    ensures SplitStep(c, sep, x + y) == SplitStep(c, sep, x) + y
  {
    if c != sep {
      assert (x + y)[1..] == x[1..] + y;
    }
  }

  /** `parts.join(sep)` for a one-character separator: the first part comes
      first, followed by the separator when more parts follow, and when no
      part holds the separator it occurs in the result exactly when there
      are two parts or more. */
  function Join(parts: seq<string>, sep: char): (r: string)
    ensures |parts| >= 1 ==> StartsWith(r, parts[0])
    ensures |parts| >= 2 ==> |r| > |parts[0]| && r[|parts[0]|] == sep
    ensures (forall i :: 0 <= i < |parts| ==> sep !in parts[i]) ==> (sep in r <==> |parts| >= 2)
  {
    if parts == [] then ""
    else if |parts| == 1 then parts[0]
    else parts[0] + [sep] + Join(parts[1..], sep)
  }

  /** `xs.slice(-n)`: the last `n` elements, or all of them when there are fewer. */
  function TakeLast<T>(xs: seq<T>, n: nat): (r: seq<T>)
    ensures |r| == if |xs| <= n then |xs| else n
    ensures r == xs[|xs| - |r|..]
  {
    if |xs| <= n then xs else xs[|xs| - n..]
  }

  /** Joining the parts of a split gives back the string. */
  lemma {:induction false} JoinSplit(s: string, sep: char)
    ensures Join(Split(s, sep), sep) == s
  {
    if s != [] {
      var rest := Split(s[1..], sep);
      JoinSplit(s[1..], sep);
      if s[0] == sep {
        assert Split(s, sep) == [""] + rest;
      } else {
        var parts := Split(s, sep);
        assert parts == [[s[0]] + rest[0]] + rest[1..];
        if |rest| == 1 {
          assert Join(rest, sep) == rest[0];
        } else {
          assert Join(rest, sep) == rest[0] + [sep] + Join(rest[1..], sep);
          assert parts[1..] == rest[1..];
        }
      }
    }
  }

  /** Splitting at one occurrence of the separator concatenates the splits of
      the two sides. */
  lemma {:induction false} SplitAround(a: string, sep: char, b: string)
    ensures Split(a + [sep] + b, sep) == Split(a, sep) + Split(b, sep)
  {
    var s := a + [sep] + b;
    if a == [] {
      assert s[0] == sep && s[1..] == b;
    } else {
      assert s[0] == a[0] && s[1..] == a[1..] + [sep] + b;
      SplitAround(a[1..], sep, b);
      StepAppend(a[0], sep, Split(a[1..], sep), Split(b, sep));
    }
  }

  /** Splitting a join of separator-free parts gives back the parts. */
  lemma {:induction false} SplitJoin(parts: seq<string>, sep: char)
    requires |parts| >= 1
    requires forall i :: 0 <= i < |parts| ==> sep !in parts[i]
    ensures Split(Join(parts, sep), sep) == parts
  {
    if |parts| > 1 {
      SplitJoin(parts[1..], sep);
      SplitAround(parts[0], sep, Join(parts[1..], sep));
      assert [parts[0]] + parts[1..] == parts;
    }
  }

  /** The last part of a split is a suffix of the string; when the separator
      occurs, that suffix is preceded by it (it is the text after the last
      separator). */
  lemma {:induction false} SplitLast(s: string, sep: char)
    ensures var parts := Split(s, sep); var p := parts[|parts| - 1];
      |p| <= |s| && p == s[|s| - |p|..] &&
      (sep in s ==> |p| < |s| && s[|s| - |p| - 1] == sep)
  {
    if s != [] {
      SplitLast(s[1..], sep);
      var rest := Split(s[1..], sep);
      var parts := Split(s, sep);
      if s[0] == sep {
        assert parts == [""] + rest;
      } else if sep in s[1..] {
        assert parts[|parts| - 1] == rest[|rest| - 1];
      }
    }
  }

  // ---------------------------------------------------------------------------
  // The `||` fallback on a string that may be missing
  // ---------------------------------------------------------------------------

  /** JavaScript truthiness of a string-or-null value. */
  predicate Truthy(v: Option<string>) {
    v.Some? && v.value != ""
  }

  /** `v || fallback`: the value when it is a non-empty string, else the fallback. */
  function Or(v: Option<string>, fallback: string): string {
    if Truthy(v) then v.value else fallback
  }

  // ---------------------------------------------------------------------------
  // Decimal rendering of non-negative integers
  // ---------------------------------------------------------------------------

  predicate IsDigit(c: char) {
    '0' <= c <= '9'
  }

  function DigitChar(d: nat): char
    requires d < 10
  {
    ('0' as int + d) as char
  }

  function DigitValue(c: char): nat
    requires IsDigit(c)
  {
    c as int - '0' as int
  }

  /** `String(n)` for a non-negative integer: a non-empty run of digits,
      starting with `0` only when it is `"0"`. */
  function NatToDecimal(n: nat): (s: string)
    ensures |s| >= 1
    ensures forall i :: 0 <= i < |s| ==> IsDigit(s[i])
    ensures s[0] == '0' ==> n == 0 && s == "0"
  {
    if n < 10 then [DigitChar(n)]
    else
      var high := NatToDecimal(n / 10);
      assert (high + [DigitChar(n % 10)])[0] == high[0];
      high + [DigitChar(n % 10)]
  }

  /** The value of a run of decimal digits. */
  function ParseDecimal(s: string): nat
    requires forall i :: 0 <= i < |s| ==> IsDigit(s[i])
  {
    if s == [] then 0 else ParseDecimal(s[..|s| - 1]) * 10 + DigitValue(s[|s| - 1])
  }

  /** Reading back the decimal rendering of `n` gives `n`. */
  lemma {:induction false} DecimalRoundTrip(n: nat)
    ensures ParseDecimal(NatToDecimal(n)) == n
  {
    var s := NatToDecimal(n);
    if n >= 10 {
      DecimalRoundTrip(n / 10);
      assert s[..|s| - 1] == NatToDecimal(n / 10);
    }
  }

  /** A run of digits is worth at least its first digit. */
  lemma {:induction false} ParseDecimalAtLeastLead(w: string)
    requires |w| >= 1 && forall i :: 0 <= i < |w| ==> IsDigit(w[i])
    ensures ParseDecimal(w) >= DigitValue(w[0])
  {
    if |w| > 1 {
      var init := w[..|w| - 1];
      assert init[0] == w[0];
      ParseDecimalAtLeastLead(init);
    }
  }

  /** A run of digits without a leading zero is the rendering of its value:
      `String(n)` is the only such spelling of `n`. */
  lemma {:induction false} CanonicalDecimal(w: string)
    requires |w| >= 1 && forall i :: 0 <= i < |w| ==> IsDigit(w[i])
    requires w[0] == '0' ==> |w| == 1
    ensures w == NatToDecimal(ParseDecimal(w))
  {
    var n := ParseDecimal(w);
    var last := w[|w| - 1];
    var init := w[..|w| - 1];
    if |w| == 1 {
      assert init == [] && ParseDecimal(init) == 0;
      assert n == ParseDecimal(init) * 10 + DigitValue(last);
      assert w == [DigitChar(n)];
    } else {
      assert init[0] == w[0];
      CanonicalDecimal(init);
      ParseDecimalAtLeastLead(init);
      var m := ParseDecimal(init);
      assert n == m * 10 + DigitValue(last) && m >= 1;
      assert n / 10 == m && n % 10 == DigitValue(last);
      assert w == init + [DigitChar(n % 10)];
    }
  }
}
