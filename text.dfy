/** String building blocks the service worker takes from JavaScript:
    number-to-decimal conversion (`'' + n`), `Array.prototype.join` and
    `String.prototype.includes`. */
module Text {

  /** True iff every character of `s` is an ASCII decimal digit. */
  predicate AllDigits(s: string)
  {
    forall i :: 0 <= i < |s| ==> '0' <= s[i] <= '9'
  }

  function DigitChar(d: nat): (c: char)
    requires d < 10
    ensures '0' <= c <= '9'
    ensures (c as int) - ('0' as int) == d
  {
    "0123456789"[d]
  }

  /** The decimal text of a non-negative integer, as JavaScript writes it
      when concatenating a number to a string: no sign, no leading zero. */
  function NatToString(n: nat): (s: string)
    ensures |s| >= 1 && AllDigits(s)
    ensures s[0] == '0' <==> n == 0
    decreases n
  {
    if n < 10 then [DigitChar(n)] else NatToString(n / 10) + [DigitChar(n % 10)]
  }

  /** The value of a string of decimal digits; the inverse of `NatToString`. */
  function ParseDecimal(s: string): nat
    requires AllDigits(s)
    decreases |s|
  {
    if |s| == 0 then 0
    else ParseDecimal(s[..|s| - 1]) * 10 + ((s[|s| - 1] as int) - ('0' as int))
  }

  /** Reading the decimal text back gives the number that was written. */
  lemma {:induction false} ParseNatToString(n: nat)
    ensures ParseDecimal(NatToString(n)) == n
    decreases n
  {
    if n >= 10 {
      var s := NatToString(n);
      assert s[..|s| - 1] == NatToString(n / 10);
      ParseNatToString(n / 10);
    }
  }

  /** Distinct numbers have distinct decimal texts. */
  lemma NatToStringInjective(m: nat, n: nat)
    requires NatToString(m) == NatToString(n)
    ensures m == n
  {
    ParseNatToString(m);
    ParseNatToString(n);
  }

  /** `parts.join(sep)`: the parts in order with `sep` between neighbours. */
  function Join(parts: seq<string>, sep: string): string
    decreases |parts|
  {
    if |parts| == 0 then ""
    else if |parts| == 1 then parts[0]
    else parts[0] + sep + Join(parts[1..], sep)
  }

  /** Where part `i` starts inside `Join(parts, sep)`: the lengths of the
      earlier parts, each followed by one separator. */
  function Offset(parts: seq<string>, sep: string, i: nat): nat
    requires i <= |parts|
    decreases i
  {
    if i == 0 then 0 else |parts[0]| + |sep| + Offset(parts[1..], sep, i - 1)
  }

  /** Every part appears, unchanged, at its offset in the joined text. */
  lemma {:induction false} JoinAt(parts: seq<string>, sep: string, i: nat)
    requires i < |parts|
    ensures Offset(parts, sep, i) + |parts[i]| <= |Join(parts, sep)|
    ensures Join(parts, sep)[Offset(parts, sep, i)..Offset(parts, sep, i) + |parts[i]|] == parts[i]
    decreases i
  {
    if |parts| > 1 {
      var j, rest := Join(parts, sep), Join(parts[1..], sep);
      assert j == parts[0] + sep + rest;
      var k := |parts[0]| + |sep|;
      if i == 0 {
        assert j[..|parts[0]|] == parts[0];
      } else {
        JoinAt(parts[1..], sep, i - 1);
        var o := Offset(parts[1..], sep, i - 1);
        assert Offset(parts, sep, i) == k + o;
        assert parts[1..][i - 1] == parts[i];
        assert j[k + o..k + o + |parts[i]|] == rest[o..o + |parts[i]|];
      }
    }
  }

  /** Every part but the last is followed by the separator. */
  lemma {:induction false} JoinSepAt(parts: seq<string>, sep: string, i: nat)
    requires i + 1 < |parts|
    ensures Offset(parts, sep, i) + |parts[i]| + |sep| <= |Join(parts, sep)|
    ensures var o := Offset(parts, sep, i) + |parts[i]|;
      Join(parts, sep)[o..o + |sep|] == sep
    decreases i
  {
    var j, rest := Join(parts, sep), Join(parts[1..], sep);
    assert j == parts[0] + sep + rest;
    var k := |parts[0]| + |sep|;
    if i == 0 {
      assert j[|parts[0]|..k] == sep;
    } else {
      JoinSepAt(parts[1..], sep, i - 1);
      var e := Offset(parts[1..], sep, i - 1) + |parts[i]|;
      assert Offset(parts, sep, i) + |parts[i]| == k + e;
      assert parts[1..][i - 1] == parts[i];
      assert j[k + e..k + e + |sep|] == rest[e..e + |sep|];
    }
  }

  /** The joined text is exactly as long as its parts and separators. */
  lemma {:induction false} JoinLength(parts: seq<string>, sep: string)
    requires |parts| > 0
    ensures |Join(parts, sep)| == Offset(parts, sep, |parts| - 1) + |parts[|parts| - 1]|
    decreases |parts|
  {
    if |parts| > 1 {
      JoinLength(parts[1..], sep);
    }
  }

  /** True iff `s` begins with `prefix`. */
  predicate StartsWith(s: string, prefix: string)
  {
    |prefix| <= |s| && s[..|prefix|] == prefix
  }

  /** `s.includes(sub)`: `sub` occurs in `s` starting at some position. */
  function Includes(s: string, sub: string): bool
    decreases |s|
  {
    StartsWith(s, sub) || (|s| > 0 && Includes(s[1..], sub))
  }

  /** True iff `sub` occurs in `s` at position `i`. */
  predicate OccursAt(s: string, sub: string, i: nat)
  {
    i + |sub| <= |s| && s[i..i + |sub|] == sub
  }

  /** `Includes` finds an occurrence exactly when there is one. */
  lemma {:induction false} IncludesIff(s: string, sub: string)
    ensures Includes(s, sub) <==> exists i: nat :: OccursAt(s, sub, i)
    decreases |s|
  {
    if StartsWith(s, sub) {
      assert OccursAt(s, sub, 0);
    } else if |s| == 0 {
      forall i: nat ensures !OccursAt(s, sub, i) {
        if i == 0 { assert !StartsWith(s, sub); }
      }
    } else {
      IncludesIff(s[1..], sub);
      if i: nat :| OccursAt(s[1..], sub, i) {
        assert s[i + 1..i + 1 + |sub|] == s[1..][i..i + |sub|];
        assert OccursAt(s, sub, i + 1);
      }
      assert OccursAt(s, sub, 0) == StartsWith(s, sub);
      forall i: nat | OccursAt(s, sub, i) ensures Includes(s[1..], sub) {
        assert i > 0;
        assert s[1..][i - 1..i - 1 + |sub|] == s[i..i + |sub|];
        assert OccursAt(s[1..], sub, i - 1);
      }
    }
  }
}
