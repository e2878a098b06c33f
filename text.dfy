/**
 * The string operations the app borrows from Foundation, written out on
 * `seq<char>`: lower-casing (of ASCII and Polish letters), prefix and
 * substring tests, trimming, splitting on
 * a separator, removing every occurrence of a pattern, and decimal rendering of
 * integers (Swift string interpolation of an `Int`).
 */
module Text {

  // ---------------------------------------------------------------------------
  // Lower-casing
  // ---------------------------------------------------------------------------

  /**
   * The capital letters the model lower-cases: ASCII A-Z and the Polish
   * capitals. `lowercased()` maps the capitals of every script; the others are
   * not modelled.
   */
  predicate IsUpper(c: char) {
    ('A' <= c <= 'Z') ||
    c in {'\U{0104}', '\U{0106}', '\U{0118}', '\U{0141}', '\U{0143}',
          '\U{00D3}', '\U{015A}', '\U{0179}', '\U{017B}'}
  }

  /** One character lower-cased; every other character is left as it is. */
  function LowerChar(c: char): (r: char)
    ensures !IsUpper(r)
    ensures !IsUpper(c) ==> r == c
    ensures IsUpper(c) ==> r != c
  {
    if 'A' <= c <= 'Z' then (c as int + 32) as char
    else match c
      case '\U{0104}' => '\U{0105}'  // Ą
      case '\U{0106}' => '\U{0107}'  // Ć
      case '\U{0118}' => '\U{0119}'  // Ę
      case '\U{0141}' => '\U{0142}'  // Ł
      case '\U{0143}' => '\U{0144}'  // Ń
      case '\U{00D3}' => '\U{00F3}'  // Ó
      case '\U{015A}' => '\U{015B}'  // Ś
      case '\U{0179}' => '\U{017A}'  // Ź
      case '\U{017B}' => '\U{017C}'  // Ż
      case _ => c
  }

  /** `lowercased()` on ASCII and Polish letters, as a character map; other characters are kept. */
  function Lower(s: string): (r: string)
    ensures |r| == |s|
    ensures forall i :: 0 <= i < |r| ==> !IsUpper(r[i])
  {
    seq(|s|, i requires 0 <= i < |s| => LowerChar(s[i]))
  }

  /** Lower-casing twice is lower-casing once. */
  lemma LowerIdempotent(s: string)
    ensures Lower(Lower(s)) == Lower(s)
  {
    var l := Lower(s);
    forall i | 0 <= i < |l| ensures Lower(l)[i] == l[i] {
      assert !IsUpper(l[i]);
    }
  }

  // ---------------------------------------------------------------------------
  // Prefix and substring tests
  // ---------------------------------------------------------------------------

  /** `s.starts(with: p)`. */
  predicate StartsWith(s: string, p: string) {
    |p| <= |s| && s[..|p|] == p
  }

  /** `t` occurs in `s` starting at index `i`. */
  predicate OccursAt(s: string, t: string, i: int) {
    0 <= i && i + |t| <= |s| && s[i..i + |t|] == t
  }

  /**
   * `s.contains(t)`: the candidate start positions are tried left to right.
   * The app only ever searches for a non-empty needle.
   */
  function Contains(s: string, t: string): bool
    decreases |s|
  {
    if |t| > |s| then false
    else if s[..|t|] == t then true
    else Contains(s[1..], t)
  }

  /** The scan finds `t` exactly when `t` occurs somewhere in `s`. */
  lemma {:induction false} ContainsIffOccurs(s: string, t: string)
    ensures Contains(s, t) <==> exists i :: OccursAt(s, t, i)
    decreases |s|
  {
    if |t| > |s| {
    } else if s[..|t|] == t {
      assert OccursAt(s, t, 0);
    } else {
      ContainsIffOccurs(s[1..], t);
      if exists i :: OccursAt(s[1..], t, i) {
        var i :| OccursAt(s[1..], t, i);
        assert s[1..][i..i + |t|] == s[i + 1..i + 1 + |t|];
        assert OccursAt(s, t, i + 1);
      }
      if exists i :: OccursAt(s, t, i) {
        var i :| OccursAt(s, t, i);
        assert i != 0;
        assert s[1..][i - 1..i - 1 + |t|] == s[i..i + |t|];
        assert OccursAt(s[1..], t, i - 1);
      }
    }
  }

  /** A string that occurs at some position is found by the scan. */
  lemma ContainsAt(s: string, t: string, i: int)
    requires OccursAt(s, t, i)
    ensures Contains(s, t)
  {
    ContainsIffOccurs(s, t);
  }

  /** Whatever `t` is found in, so is a longer string built around it. */
  lemma ContainsInContext(a: string, s: string, b: string, t: string)
    requires Contains(s, t)
    ensures Contains(a + s + b, t)
  {
    ContainsIffOccurs(s, t);
    var i :| OccursAt(s, t, i);
    assert (a + s + b)[|a| + i..|a| + i + |t|] == s[i..i + |t|];
    ContainsAt(a + s + b, t, |a| + i);
  }

  // ---------------------------------------------------------------------------
  // Trimming
  // ---------------------------------------------------------------------------

  /**
   * Foundation's `.whitespaces` and `.whitespacesAndNewlines` character sets,
   * restricted to the space, the tab, the no-break and ideographic spaces and
   * the line breaks.
   */
  datatype CharClass = Whitespaces | WhitespacesAndNewlines

  predicate InClass(c: char, k: CharClass) {
    c == ' ' || c == '\t' || c == '\U{00A0}' || c == '\U{3000}' ||
    (k == WhitespacesAndNewlines &&
     ('\n' <= c <= '\r' || c == '\U{0085}' || c == '\U{2028}' || c == '\U{2029}'))
  }

  /** Drops leading characters of class `k`. */
  function TrimStart(s: string, k: CharClass): string
    decreases |s|
  {
    if |s| > 0 && InClass(s[0], k) then TrimStart(s[1..], k) else s
  }

  /** Drops trailing characters of class `k`. */
  function TrimEnd(s: string, k: CharClass): string
    decreases |s|
  {
    if |s| > 0 && InClass(s[|s| - 1], k) then TrimEnd(s[..|s| - 1], k) else s
  }

  /** What `TrimStart` drops is all of class `k`, and what it keeps does not start with one. */
  lemma {:induction false} TrimStartSpec(s: string, k: CharClass)
    ensures var r := TrimStart(s, k);
      |r| <= |s| && r == s[|s| - |r|..] &&
      (forall j :: 0 <= j < |s| - |r| ==> InClass(s[j], k)) &&
      (r == [] || !InClass(r[0], k))
    decreases |s|
  {
    if |s| > 0 && InClass(s[0], k) {
      TrimStartSpec(s[1..], k);
    }
  }

  /** What `TrimEnd` drops is all of class `k`, and what it keeps does not end with one. */
  lemma {:induction false} TrimEndSpec(s: string, k: CharClass)
    ensures var r := TrimEnd(s, k);
      |r| <= |s| && r == s[..|r|] &&
      (forall j :: |r| <= j < |s| ==> InClass(s[j], k)) &&
      (r == [] || !InClass(r[|r| - 1], k))
    decreases |s|
  {
    if |s| > 0 && InClass(s[|s| - 1], k) {
      TrimEndSpec(s[..|s| - 1], k);
    }
  }

  /** `trimmingCharacters(in: k)`. */
  function Trim(s: string, k: CharClass): string {
    TrimEnd(TrimStart(s, k), k)
  }

  /**
   * `r` is `s[i..i + |r|]`, everything cut off on either side is of class `k`,
   * and `r` neither starts nor ends with a character of class `k`.
   */
  predicate TrimmedAt(s: string, k: CharClass, r: string, i: int) {
    0 <= i <= |s| - |r| && r == s[i..i + |r|] &&
    (forall j :: 0 <= j < i ==> InClass(s[j], k)) &&
    (forall j :: i + |r| <= j < |s| ==> InClass(s[j], k)) &&
    (r == [] || (!InClass(r[0], k) && !InClass(r[|r| - 1], k)))
  }

  /** Trimming keeps one contiguous slice and removes only characters of the class. */
  lemma TrimIsSlice(s: string, k: CharClass)
    ensures exists i :: TrimmedAt(s, k, Trim(s, k), i)
  {
    var a := TrimStart(s, k);
    var r := TrimEnd(a, k);
    TrimStartSpec(s, k);
    TrimEndSpec(a, k);
    var i := |s| - |a|;
    assert a == s[i..];
    assert r == s[i..i + |r|];
    forall j | i + |r| <= j < |s| ensures InClass(s[j], k) {
      assert s[j] == a[j - i];
    }
    if r != [] {
      assert r[0] == a[0];
    }
    assert r == Trim(s, k);
    assert 0 <= i <= |s| - |r| && r == s[i..i + |r|];
    assert forall j :: 0 <= j < i ==> InClass(s[j], k);
    assert forall j :: i + |r| <= j < |s| ==> InClass(s[j], k);
    assert r == [] || (!InClass(r[0], k) && !InClass(r[|r| - 1], k));
    assert TrimmedAt(s, k, r, i);
  }

  // ---------------------------------------------------------------------------
  // Splitting and removing a separator
  // ---------------------------------------------------------------------------

  /**
   * `s.components(separatedBy: sep)`: occurrences of `sep` are found left to
   * right without overlap; there is always at least one part.
   */
  function Split(s: string, sep: string): (parts: seq<string>)
    requires |sep| > 0
    ensures |parts| >= 1
    decreases |s|
  {
    if |s| < |sep| then [s]
    else if s[..|sep|] == sep then [""] + Split(s[|sep|..], sep)
    else
      var rest := Split(s[1..], sep);
      [[s[0]] + rest[0]] + rest[1..]
  }

  /** `parts.joined(separator: sep)`. */
  function Join(parts: seq<string>, sep: string): string {
    if |parts| == 0 then ""
    else if |parts| == 1 then parts[0]
    else parts[0] + sep + Join(parts[1..], sep)
  }

  lemma JoinCons(c: char, parts: seq<string>, sep: string)
    requires |parts| >= 1
    ensures Join([[c] + parts[0]] + parts[1..], sep) == [c] + Join(parts, sep)
  {
    var q := [[c] + parts[0]] + parts[1..];
    if |parts| > 1 {
      assert q[1..] == parts[1..];
    }
  }

  /** Joining the parts with the separator gives back the original string. */
  lemma {:induction false} SplitJoin(s: string, sep: string)
    requires |sep| > 0
    ensures Join(Split(s, sep), sep) == s
    decreases |s|
  {
    if |s| < |sep| {
    } else if s[..|sep|] == sep {
      var rest := Split(s[|sep|..], sep);
      SplitJoin(s[|sep|..], sep);
      assert ([""] + rest)[1..] == rest;
      assert s == sep + s[|sep|..];
    } else {
      var rest := Split(s[1..], sep);
      SplitJoin(s[1..], sep);
      JoinCons(s[0], rest, sep);
      assert s == [s[0]] + s[1..];
    }
  }

  /** The first part is a prefix of the input. */
  lemma {:induction false} SplitFirstIsPrefix(s: string, sep: string)
    requires |sep| > 0
    ensures StartsWith(s, Split(s, sep)[0])
    decreases |s|
  {
    if |s| < |sep| {
    } else if s[..|sep|] == sep {
    } else {
      SplitFirstIsPrefix(s[1..], sep);
    }
  }

  /** No part contains the separator. */
  lemma {:induction false} SplitPartsFree(s: string, sep: string)
    requires |sep| > 0
    ensures forall p :: p in Split(s, sep) ==> !Contains(p, sep)
    decreases |s|
  {
    var parts := Split(s, sep);
    if |s| < |sep| {
    } else if s[..|sep|] == sep {
      SplitPartsFree(s[|sep|..], sep);
      assert !Contains("", sep);
    } else {
      var rest := Split(s[1..], sep);
      SplitPartsFree(s[1..], sep);
      SplitFirstIsPrefix(s[1..], sep);
      ContainsIffOccurs(rest[0], sep);
      var head := [s[0]] + rest[0];
      forall i | 0 <= i ensures !OccursAt(head, sep, i) {
        if i + |sep| > |head| {
        } else if i == 0 {
          assert head[..|sep|] == s[..|sep|];
        } else {
          assert rest[0][i - 1..i - 1 + |sep|] == head[i..i + |sep|];
          assert !OccursAt(rest[0], sep, i - 1);
        }
      }
      ContainsIffOccurs(head, sep);
      forall p | p in parts ensures !Contains(p, sep) {
        if p != head {
          assert p in rest[1..];
        }
      }
    }
  }

  /** `s.replacingOccurrences(of: pat, with: "")`, scanning left to right. */
  function RemoveAll(s: string, pat: string): (r: string)
    requires |pat| > 0
    ensures |r| <= |s|
    decreases |s|
  {
    if |s| < |pat| then s
    else if s[..|pat|] == pat then RemoveAll(s[|pat|..], pat)
    else [s[0]] + RemoveAll(s[1..], pat)
  }

  /**
   * Removing every occurrence is the same as splitting on the pattern and
   * gluing the parts back together with nothing between them.
   */
  lemma {:induction false} RemoveAllIsSplitConcat(s: string, pat: string)
    requires |pat| > 0
    ensures RemoveAll(s, pat) == Join(Split(s, pat), "")
    decreases |s|
  {
    if |s| < |pat| {
    } else if s[..|pat|] == pat {
      var rest := Split(s[|pat|..], pat);
      RemoveAllIsSplitConcat(s[|pat|..], pat);
      assert ([""] + rest)[1..] == rest;
    } else {
      var rest := Split(s[1..], pat);
      RemoveAllIsSplitConcat(s[1..], pat);
      JoinCons(s[0], rest, "");
    }
  }

  /** Removing a one-character pattern leaves none of that character. */
  lemma {:induction false} RemoveCharGone(s: string, c: char)
    ensures c !in RemoveAll(s, [c])
    decreases |s|
  {
    if |s| >= 1 {
      RemoveCharGone(s[1..], c);
    }
  }

  /** Removing one character distributes over concatenation. */
  lemma {:induction false} RemoveCharAppend(x: string, y: string, c: char)
    ensures RemoveAll(x + y, [c]) == RemoveAll(x, [c]) + RemoveAll(y, [c])
    decreases |x|
  {
    if |x| > 0 {
      RemoveCharAppend(x[1..], y, c);
      assert (x + y)[1..] == x[1..] + y;
      assert (x + y)[..1] == x[..1];
    } else {
      assert x + y == y;
    }
  }

  /** The non-`c` characters survive, in order. */
  lemma {:induction false} RemoveCharKeeps(s: string, c: char)
    ensures forall d :: d != c ==> (d in s <==> d in RemoveAll(s, [c]))
    decreases |s|
  {
    if |s| >= 1 {
      RemoveCharKeeps(s[1..], c);
      assert s == [s[0]] + s[1..];
    }
  }

  // ---------------------------------------------------------------------------
  // Decimal rendering of integers
  // ---------------------------------------------------------------------------

  predicate IsDigit(c: char) { '0' <= c <= '9' }

  predicate AllDigits(s: string) { forall i :: 0 <= i < |s| ==> IsDigit(s[i]) }

  function DigitChar(d: nat): char
    requires d < 10
  {
    ('0' as int + d) as char
  }

  function DigitValue(c: char): nat
    requires IsDigit(c)
  {
    c as int - '0' as int
  }

  /** The decimal digits of a natural number, without leading zeros. */
  function NatString(n: nat): (r: string)
    ensures |r| >= 1 && AllDigits(r)
    ensures |r| > 1 ==> r[0] != '0'
  {
    if n < 10 then [DigitChar(n)] else NatString(n / 10) + [DigitChar(n % 10)]
  }

  /** Swift's `"\(n)"` for an `Int`: a minus sign before the digits when negative. */
  function IntString(n: int): (r: string)
    ensures |r| >= 1
    ensures n >= 0 <==> IsDigit(r[0])
  {
    if n < 0 then "-" + NatString(-n) else NatString(n)
  }

  /** The value of a string of decimal digits. */
  function DigitsValue(s: string): nat
    requires AllDigits(s)
  {
    if |s| == 0 then 0 else DigitsValue(s[..|s| - 1]) * 10 + DigitValue(s[|s| - 1])
  }

  /** Reading the rendered digits back gives the number. */
  lemma {:induction false} NatStringRoundTrip(n: nat)
    ensures DigitsValue(NatString(n)) == n
  {
    var s := NatString(n);
    if n >= 10 {
      NatStringRoundTrip(n / 10);
      assert s[..|s| - 1] == NatString(n / 10);
    }
  }

  /** Different numbers render differently. */
  lemma IntStringInjective(a: int, b: int)
    requires IntString(a) == IntString(b)
    ensures a == b
  {
    assert a >= 0 <==> b >= 0;
    if a < 0 {
      assert NatString(-a) == IntString(a)[1..];
      assert NatString(-b) == IntString(b)[1..];
      NatStringInjective(-a, -b);
    } else {
      NatStringInjective(a, b);
    }
  }

  /** Different natural numbers render differently. */
  lemma NatStringInjective(x: nat, y: nat)
    requires NatString(x) == NatString(y)
    ensures x == y
  {
    NatStringRoundTrip(x);
    NatStringRoundTrip(y);
  }

  /** The number of leading decimal digits of `s`. */
  function LeadingDigits(s: string): (k: nat)
    ensures k <= |s| && AllDigits(s[..k])
    ensures k < |s| ==> !IsDigit(s[k])
    decreases |s|
  {
    if |s| > 0 && IsDigit(s[0]) then 1 + LeadingDigits(s[1..]) else 0
  }

  /** A rendered natural number followed by a non-digit is read back whole. */
  lemma LeadingDigitsOfNat(n: nat, t: string)
    requires t == [] || !IsDigit(t[0])
    ensures LeadingDigits(NatString(n) + t) == |NatString(n)|
    ensures (NatString(n) + t)[..|NatString(n)|] == NatString(n)
    ensures (NatString(n) + t)[|NatString(n)|..] == t
  {
    var d := NatString(n);
    LeadingDigitsAll(d, t);
  }

  lemma {:induction false} LeadingDigitsAll(d: string, t: string)
    requires AllDigits(d)
    requires t == [] || !IsDigit(t[0])
    ensures LeadingDigits(d + t) == |d|
    decreases |d|
  {
    if |d| > 0 {
      assert (d + t)[1..] == d[1..] + t;
      LeadingDigitsAll(d[1..], t);
    } else {
      assert d + t == t;
    }
  }

  // ---------------------------------------------------------------------------
  // Upper-casing
  // ---------------------------------------------------------------------------

  /**
   * The small letters the model upper-cases: ASCII a-z and the Polish small
   * letters. `uppercased()` maps the small letters of every script, and some
   * to more than one character ("ß" becomes "SS"); those are not modelled.
   */
  predicate IsLower(c: char) {
    ('a' <= c <= 'z') ||
    c in {'\U{0105}', '\U{0107}', '\U{0119}', '\U{0142}', '\U{0144}',
          '\U{00F3}', '\U{015B}', '\U{017A}', '\U{017C}'}
  }

  /** One character upper-cased; every other character is left as it is. */
  function UpperChar(c: char): (r: char)
    ensures !IsLower(r)
    ensures !IsLower(c) ==> r == c
  {
    if 'a' <= c <= 'z' then (c as int - 32) as char
    else match c
      case '\U{0105}' => '\U{0104}'
      case '\U{0107}' => '\U{0106}'
      case '\U{0119}' => '\U{0118}'
      case '\U{0142}' => '\U{0141}'
      case '\U{0144}' => '\U{0143}'
      case '\U{00F3}' => '\U{00D3}'
      case '\U{015B}' => '\U{015A}'
      case '\U{017A}' => '\U{0179}'
      case '\U{017C}' => '\U{017B}'
      case _ => c
  }

  /** `uppercased()` on ASCII and Polish letters, as a character map; other characters are kept. */
  function Upper(s: string): (r: string)
    ensures |r| == |s|
    ensures forall i :: 0 <= i < |r| ==> !IsLower(r[i])
  {
    seq(|s|, i requires 0 <= i < |s| => UpperChar(s[i]))
  }

  // ---------------------------------------------------------------------------
  // Ordering
  // ---------------------------------------------------------------------------

  /** `a < b` on strings: character by character, a proper prefix first. */
  predicate Less(a: string, b: string) {
    if |a| == 0 then |b| > 0
    else if |b| == 0 then false
    else a[0] < b[0] || (a[0] == b[0] && Less(a[1..], b[1..]))
  }

  /** `Less` is a strict total order. */
  lemma {:induction false} LessIrreflexive(a: string)
    ensures !Less(a, a)
  {
    if |a| > 0 {
      LessIrreflexive(a[1..]);
    }
  }

  lemma {:induction false} LessTransitive(a: string, b: string, c: string)
    requires Less(a, b) && Less(b, c)
    ensures Less(a, c)
  {
    if |a| > 0 && |b| > 0 && |c| > 0 && a[0] == b[0] && b[0] == c[0] {
      LessTransitive(a[1..], b[1..], c[1..]);
    }
  }

  lemma {:induction false} LessTotal(a: string, b: string)
    requires a != b
    ensures Less(a, b) || Less(b, a)
  {
    if |a| > 0 && |b| > 0 && a[0] == b[0] {
      assert a == [a[0]] + a[1..] && b == [b[0]] + b[1..];
      LessTotal(a[1..], b[1..]);
    }
  }

  /** Each element is `Less` than the next: sorted with no repeats. */
  predicate StrictlySorted(xs: seq<string>) {
    forall i, j :: 0 <= i < j < |xs| ==> Less(xs[i], xs[j])
  }
}
