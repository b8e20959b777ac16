/**
 * Text operations the application relies on, over ASCII strings: decimal
 * rendering (`String(n)`, `padStart(2, "0")`), the integer parsers of the
 * two languages (JavaScript's `Number` and `parseInt`, Go's `strconv.Atoi`),
 * splitting on a character, ASCII `TrimSpace`/`ToLower`, and the code-unit
 * order in which both Go and Firestore compare strings.
 */
module Text {
  import opened Optional

  predicate IsDigit(c: char) { '0' <= c <= '9' }

  function DigitValue(c: char): (d: nat)
    requires IsDigit(c)
    ensures d < 10
  {
    (c as int) - ('0' as int)
  }

  function DigitChar(d: nat): (c: char)
    requires d < 10
    ensures IsDigit(c) && DigitValue(c) == d
  {
    (('0' as int) + d) as char
  }

  predicate AllDigits(s: string)
  {
    forall i :: 0 <= i < |s| ==> IsDigit(s[i])
  }

  /** The value of a string of decimal digits; leading zeros are allowed. */
  function DigitsValue(s: string): nat
    requires AllDigits(s)
  {
    if |s| == 0 then 0 else 10 * DigitsValue(s[..|s| - 1]) + DigitValue(s[|s| - 1])
  }

  /** A non-empty digit string without a superfluous leading zero. */
  predicate Canonical(s: string)
  {
    |s| >= 1 && AllDigits(s) && (|s| > 1 ==> s[0] != '0')
  }

  /** Decimal rendering of a natural number (JavaScript `String(n)`, Go `%d`). */
  function NatToString(n: nat): (s: string)
    ensures Canonical(s) && DigitsValue(s) == n
  {
    if n < 10 then [DigitChar(n)]
    else
      var pre := NatToString(n / 10);
      var s := pre + [DigitChar(n % 10)];
      assert s[..|s| - 1] == pre;
      s
  }

  /** Decimal rendering of an integer, with a leading '-' when negative. */
  function IntToString(i: int): (s: string)
    ensures |s| >= 1
    ensures i >= 0 <==> IsDigit(s[0])
  {
    if i < 0 then "-" + NatToString(-i) else NatToString(i)
  }

  /** A canonical digit string is the rendering of its own value. */
  lemma {:induction false} NatToStringOfCanonical(s: string)
    requires Canonical(s)
    ensures NatToString(DigitsValue(s)) == s
  {
    var n := DigitsValue(s);
    if |s| == 1 {
      assert DigitsValue(s[..0]) == 0;
      assert n == DigitValue(s[0]);
      assert [DigitChar(n)] == s;
    } else {
      var pre := s[..|s| - 1];
      assert pre[0] == s[0];
      LeadingNonZero(pre);
      assert n / 10 == DigitsValue(pre) && n % 10 == DigitValue(s[|s| - 1]);
      NatToStringOfCanonical(pre);
      assert s == pre + [s[|s| - 1]];
    }
  }

  lemma {:induction false} LeadingNonZero(s: string)
    requires AllDigits(s) && |s| >= 1 && s[0] != '0'
    ensures DigitsValue(s) >= 1
  {
    if |s| > 1 {
      var pre := s[..|s| - 1];
      assert pre[0] == s[0];
      LeadingNonZero(pre);
    }
  }

  /** A four-digit canonical string reads as a number from 1000 to 9999. */
  lemma Power10Four(s: string)
    requires Canonical(s) && |s| == 4
    ensures 1000 <= DigitsValue(s) <= 9999
  {
    assert DigitsValue(s[..1][..0]) == 0;
    assert DigitsValue(s[..1]) == DigitValue(s[0]);
    var a := DigitsValue(s[..1]);
    assert 1 <= a <= 9;
    assert s[..2][..1] == s[..1];
    var b := DigitsValue(s[..2]);
    assert 10 <= b <= 99;
    assert s[..3][..2] == s[..2];
    var c := DigitsValue(s[..3]);
    assert 100 <= c <= 999;
    assert s[..3] == s[..|s| - 1];
  }

  /** The numbers from 1000 to 9999 are written with four digits. */
  lemma NatToStringFour(n: nat)
    requires 1000 <= n <= 9999
    ensures |NatToString(n)| == 4
  {
    assert |NatToString(n / 1000)| == 1;
    assert |NatToString(n / 100)| == 2;
    assert |NatToString(n / 10)| == 3;
  }

  /** Rendering is injective, so distinct numbers give distinct strings. */
  lemma IntToStringInjective(a: int, b: int)
    requires IntToString(a) == IntToString(b)
    ensures a == b
  {
    if a < 0 && b < 0 {
      assert NatToString(-a) == IntToString(a)[1..];
    }
  }

  /** JavaScript `s.padStart(2, "0")`. */
  function PadStart2(s: string): (r: string)
    ensures |s| >= 2 ==> r == s
    ensures |s| < 2 ==> |r| == 2 && r[2 - |s|..] == s && forall i :: 0 <= i < 2 - |s| ==> r[i] == '0'
  {
    if |s| >= 2 then s else if |s| == 1 then "0" + s else "00"
  }

  /** Two-digit rendering of a number below 100. */
  function TwoDigits(n: nat): (r: string)
    requires n < 100
    ensures |r| == 2 && AllDigits(r) && DigitsValue(r) == n
  {
    var r := PadStart2(NatToString(n));
    assert n >= 10 ==> |NatToString(n / 10)| == 1;
    assert n < 10 ==> r == ['0', DigitChar(n)];
    DigitsValueTwo(r);
    r
  }

  lemma DigitsValueTwo(s: string)
    requires |s| == 2 && AllDigits(s)
    ensures DigitsValue(s) == 10 * DigitValue(s[0]) + DigitValue(s[1])
  {
    assert DigitsValue(s[..1][..0]) == 0;
    assert DigitsValue(s[..1]) == DigitValue(s[0]);
  }

  /** Any two-digit string is the two-digit rendering of its value. */
  lemma TwoDigitsOfDigits(s: string)
    requires |s| == 2 && AllDigits(s)
    ensures DigitsValue(s) < 100 && TwoDigits(DigitsValue(s)) == s
  {
    DigitsValueTwo(s);
    assert s[..1] == [s[0]] && s[..1][..0] == [];
    if s[0] == '0' {
      NatToStringOfCanonical(s[1..]);
      assert DigitsValue(s) == DigitsValue(s[1..]);
      assert s == "0" + s[1..];
    } else {
      NatToStringOfCanonical(s);
    }
  }

  lemma TwoDigitsInjective(a: nat, b: nat)
    requires a < 100 && b < 100 && TwoDigits(a) == TwoDigits(b)
    ensures a == b
  {
  }

  predicate IsSpace(c: char)
  {
    c == ' ' || c == '\t' || c == '\n' || c == '\r' || c == '\U{000B}' || c == '\U{000C}'
  }

  /** The string with leading white space removed. */
  function TrimStart(s: string): (r: string)
    ensures |r| <= |s| && r == s[|s| - |r|..]
    ensures |r| > 0 ==> !IsSpace(r[0])
    ensures forall i :: 0 <= i < |s| - |r| ==> IsSpace(s[i])
  {
    if |s| > 0 && IsSpace(s[0]) then TrimStart(s[1..]) else s
  }

  /** The string with trailing white space removed. */
  function TrimEnd(s: string): (r: string)
    ensures |r| <= |s| && r == s[..|r|]
    ensures |r| > 0 ==> !IsSpace(r[|r| - 1])
    ensures forall i :: |r| <= i < |s| ==> IsSpace(s[i])
  {
    if |s| > 0 && IsSpace(s[|s| - 1]) then TrimEnd(s[..|s| - 1]) else s
  }

  /** Go `strings.TrimSpace` / JavaScript `trim` on ASCII white space. */
  function TrimSpace(s: string): string
  {
    TrimEnd(TrimStart(s))
  }

  function LowerChar(c: char): (l: char)
    ensures !('A' <= l <= 'Z')
  {
    if 'A' <= c <= 'Z' then (c as int + 32) as char else c
  }

  /** Go `strings.ToLower` on ASCII letters. */
  function ToLower(s: string): (r: string)
    ensures |r| == |s| && forall i :: 0 <= i < |s| ==> r[i] == LowerChar(s[i])
  {
    seq(|s|, i requires 0 <= i < |s| => LowerChar(s[i]))
  }

  /** A decimal integer: an optional sign followed by at least one digit, and nothing else. */
  function SignedDigits(s: string): (r: Option<int>)
    ensures r.Some? <==>
      (AllDigits(s) && |s| >= 1) || (|s| >= 2 && (s[0] == '+' || s[0] == '-') && AllDigits(s[1..]))
    ensures AllDigits(s) && |s| >= 1 ==> r == Some(DigitsValue(s))
  {
    if |s| >= 1 && AllDigits(s) then Some(DigitsValue(s))
    else if |s| >= 2 && s[0] == '+' && AllDigits(s[1..]) then Some(DigitsValue(s[1..]))
    else if |s| >= 2 && s[0] == '-' && AllDigits(s[1..]) then Some(0 - DigitsValue(s[1..]))
    else None
  }

  /** Go `strconv.Atoi`; `None` is its error result. */
  function GoAtoi(s: string): (r: Option<int>)
    ensures AllDigits(s) && |s| >= 1 ==> r == Some(DigitsValue(s))
    ensures |s| == 0 ==> r.None?
  {
    SignedDigits(s)
  }

  /**
   * JavaScript `Number(s)` on integer literals: surrounding white space is
   * ignored and the empty string is 0. `None` stands for NaN and for the
   * fractional, exponent, hexadecimal and `Infinity` forms, which the model
   * does not parse.
   */
  function JsNumber(s: string): (r: Option<int>)
    ensures AllDigits(s) && |s| >= 1 ==> r == Some(DigitsValue(s))
  {
    var t := TrimSpace(s);
    if |t| == 0 then Some(0) else SignedDigits(t)
  }

  /** The longest prefix of `s` made of decimal digits. */
  function DigitPrefix(s: string): (p: string)
    ensures AllDigits(p) && |p| <= |s| && p == s[..|p|]
    ensures |p| < |s| ==> !IsDigit(s[|p|])
    ensures AllDigits(s) ==> p == s
  {
    if |s| > 0 && IsDigit(s[0]) then [s[0]] + DigitPrefix(s[1..]) else []
  }

  /** The digit prefix of digits followed by a non-digit is those digits. */
  lemma {:induction false} DigitPrefixOfDigits(d: string, rest: string)
    requires AllDigits(d) && |rest| >= 1 && !IsDigit(rest[0])
    ensures DigitPrefix(d + rest) == d
  {
    if |d| > 0 {
      assert (d + rest)[1..] == d[1..] + rest;
      DigitPrefixOfDigits(d[1..], rest);
    } else {
      assert d + rest == rest;
    }
  }

  predicate IsHexDigit(c: char)
  {
    IsDigit(c) || 'a' <= c <= 'f' || 'A' <= c <= 'F'
  }

  function HexDigitValue(c: char): (d: nat)
    requires IsHexDigit(c)
    ensures d < 16
  {
    if IsDigit(c) then DigitValue(c)
    else if 'a' <= c <= 'f' then (c as int) - ('a' as int) + 10
    else (c as int) - ('A' as int) + 10
  }

  /** The longest prefix of `s` made of hexadecimal digits. */
  function HexPrefix(s: string): (p: string)
    ensures |p| <= |s| && p == s[..|p|]
    ensures forall i :: 0 <= i < |p| ==> IsHexDigit(p[i])
  {
    if |s| > 0 && IsHexDigit(s[0]) then [s[0]] + HexPrefix(s[1..]) else []
  }

  function HexValue(s: string): nat
    requires forall i :: 0 <= i < |s| ==> IsHexDigit(s[i])
  {
    if |s| == 0 then 0 else 16 * HexValue(s[..|s| - 1]) + HexDigitValue(s[|s| - 1])
  }

  /**
   * JavaScript `parseInt(s)` without a radix: leading white space and a sign
   * are skipped, a `0x`/`0X` prefix selects hexadecimal, and the longest run
   * of digits that follows is read; `None` is NaN (no digit at all).
   */
  function JsParseInt(s: string): (r: Option<int>)
    ensures Canonical(s) ==> r == Some(DigitsValue(s))
  {
    var t := TrimStart(s);
    var sign := if |t| > 0 && t[0] == '-' then -1 else 1;
    var u := if |t| > 0 && (t[0] == '-' || t[0] == '+') then t[1..] else t;
    if |u| >= 2 && u[0] == '0' && (u[1] == 'x' || u[1] == 'X') then
      var h := HexPrefix(u[2..]);
      if |h| == 0 then None else Some(sign * HexValue(h))
    else
      var d := DigitPrefix(u);
      if |d| == 0 then None else Some(sign * DigitsValue(d))
  }

  /** On a non-empty string of decimal digits `parseInt` is the digits' value, leading zeros included. */
  lemma JsParseIntOfDigits(s: string)
    requires AllDigits(s) && |s| >= 1
    ensures JsParseInt(s) == Some(DigitsValue(s))
  {
    assert !IsSpace(s[0]);
    assert TrimStart(s) == s;
  }

  /** The pieces of `s` between occurrences of `sep` (JavaScript `split` on one character). */
  function Split(s: string, sep: char): (parts: seq<string>)
    ensures |parts| >= 1
    ensures forall i :: 0 <= i < |parts| ==> sep !in parts[i]
  {
    if |s| == 0 then [""]
    else
      var rest := Split(s[1..], sep);
      if s[0] == sep then [""] + rest else [[s[0]] + rest[0]] + rest[1..]
  }

  /** Joins `parts` with `sep` between consecutive pieces. */
  function Join(parts: seq<string>, sep: char): string
  {
    if |parts| == 0 then "" else if |parts| == 1 then parts[0] else parts[0] + [sep] + Join(parts[1..], sep)
  }

  /** A string of digits holds no separator that is not a digit. */
  lemma DigitsExclude(s: string, sep: char)
    requires AllDigits(s) && !IsDigit(sep)
    ensures sep !in s
  {
  }

  /** Three pieces joined by a separator they do not contain split back into the three pieces. */
  lemma SplitThree(a: string, b: string, c: string, sep: char)
    requires sep !in a && sep !in b && sep !in c
    ensures Split(a + [sep] + b + [sep] + c, sep) == [a, b, c]
  {
    var parts := [a, b, c];
    assert parts[1..] == [b, c] && parts[1..][1..] == [c];
    assert Join([c], sep) == c;
    assert Join([b, c], sep) == b + [sep] + c;
    assert Join(parts, sep) == a + [sep] + (b + [sep] + c);
    assert a + [sep] + (b + [sep] + c) == a + [sep] + b + [sep] + c;
    SplitJoin(parts, sep);
  }

  /** Splitting undoes joining pieces that do not contain the separator. */
  lemma {:induction false} SplitJoin(parts: seq<string>, sep: char)
    requires |parts| >= 1 && forall i :: 0 <= i < |parts| ==> sep !in parts[i]
    ensures Split(Join(parts, sep), sep) == parts
    decreases |parts|, |parts[0]|
  {
    if |parts[0]| == 0 {
      if |parts| > 1 {
        assert Join(parts, sep) == [sep] + Join(parts[1..], sep);
        assert Join(parts, sep)[1..] == Join(parts[1..], sep);
        SplitJoin(parts[1..], sep);
      }
    } else {
      var p0 := parts[0];
      var tail := [p0[1..]] + parts[1..];
      assert forall i :: 0 <= i < |tail| ==> sep !in tail[i] by {
        forall i | 0 <= i < |tail| ensures sep !in tail[i] {
          if i == 0 { assert forall c :: c in p0[1..] ==> c in p0; } else { assert tail[i] == parts[i]; }
        }
      }
      SplitJoin(tail, sep);
      assert tail[1..] == parts[1..];
      if |parts| == 1 {
        assert Join(parts, sep) == p0;
        assert Join(tail, sep) == p0[1..];
      } else {
        assert Join(tail, sep) == p0[1..] + [sep] + Join(parts[1..], sep);
        assert Join(parts, sep) == p0 + [sep] + Join(parts[1..], sep);
      }
      assert Join(parts, sep)[0] == p0[0];
      assert Join(parts, sep)[1..] == Join(tail, sep);
      assert [p0[0]] + p0[1..] == p0;
    }
  }

  /** `a <= b` on strings, by code units (Go and Firestore string order). */
  predicate StrLe(a: string, b: string)
  {
    if |a| == 0 then true
    else if |b| == 0 then false
    else a[0] < b[0] || (a[0] == b[0] && StrLe(a[1..], b[1..]))
  }

  /** `a < b` on strings: `b <= a` fails. */
  predicate StrLt(a: string, b: string)
  {
    !StrLe(b, a)
  }

  /** Code-unit order is total. */
  lemma {:induction false} StrLeTotal(a: string, b: string)
    ensures StrLe(a, b) || StrLe(b, a)
  {
    if |a| > 0 && |b| > 0 && a[0] == b[0] {
      StrLeTotal(a[1..], b[1..]);
    }
  }

  /** Code-unit order is antisymmetric. */
  lemma {:induction false} StrLeAntisymmetric(a: string, b: string)
    requires StrLe(a, b) && StrLe(b, a)
    ensures a == b
  {
    if |a| > 0 {
      StrLeAntisymmetric(a[1..], b[1..]);
      assert a == [a[0]] + a[1..] && b == [b[0]] + b[1..];
    }
  }

  /** Code-unit order is transitive. */
  lemma {:induction false} StrLeTransitive(a: string, b: string, c: string)
    requires StrLe(a, b) && StrLe(b, c)
    ensures StrLe(a, c)
  {
    if |a| > 0 && a[0] == b[0] && b[0] == c[0] {
      StrLeTransitive(a[1..], b[1..], c[1..]);
    }
  }

  /** A non-empty finite set of strings has a least element in code-unit order. */
  lemma {:induction false} LeastExists(ks: set<string>)
    requires ks != {}
    ensures exists k :: k in ks && forall j :: j in ks ==> StrLe(k, j)
    decreases |ks|
  {
    var x :| x in ks;
    StrLeTotal(x, x);
    if ks != {x} {
      LeastExists(ks - {x});
      var m :| m in ks - {x} && forall j :: j in ks - {x} ==> StrLe(m, j);
      StrLeTotal(x, m);
      if StrLe(x, m) {
        forall j | j in ks
          ensures StrLe(x, j)
        {
          if j != x {
            StrLeTransitive(x, m, j);
          }
        }
      } else {
        assert forall j :: j in ks ==> StrLe(m, j);
      }
    }
  }

  lemma StrLeAntisymmetricAll()
    ensures forall a, b :: StrLe(a, b) && StrLe(b, a) ==> a == b
  {
    forall a, b | StrLe(a, b) && StrLe(b, a)
      ensures a == b
    {
      StrLeAntisymmetric(a, b);
    }
  }

  /** The least string of a non-empty set: the first of them in Firestore's document-id order. */
  function Least(ks: set<string>): (k: string)
    requires ks != {}
    ensures k in ks && forall j :: j in ks ==> StrLe(k, j)
  {
    LeastExists(ks);
    StrLeAntisymmetricAll();
    var k :| k in ks && forall j :: j in ks ==> StrLe(k, j);
    k
  }

  function Pow10(n: nat): (p: nat)
    ensures p >= 1
  {
    if n == 0 then 1 else 10 * Pow10(n - 1)
  }

  lemma {:induction false} DigitsBound(s: string)
    requires AllDigits(s)
    ensures DigitsValue(s) < Pow10(|s|)
  {
    if |s| > 0 {
      DigitsBound(s[..|s| - 1]);
    }
  }

  /** The value of a digit string read from its first digit. */
  lemma {:induction false} DigitsFront(s: string)
    requires AllDigits(s) && |s| >= 1
    ensures DigitsValue(s) == DigitValue(s[0]) * Pow10(|s| - 1) + DigitsValue(s[1..])
  {
    if |s| == 1 {
      assert DigitsValue(s[..0]) == 0 && DigitsValue(s[1..]) == 0;
    } else {
      var pre := s[..|s| - 1];
      DigitsFront(pre);
      assert pre[0] == s[0];
      assert s[1..][..|s[1..]| - 1] == pre[1..];
      var d0, p := DigitValue(s[0]), Pow10(|s| - 2);
      assert 10 * (d0 * p) == d0 * (10 * p);
    }
  }

  /** Two digit strings of one length compare as code units exactly as their values compare. */
  lemma {:induction false} StrLeDigits(a: string, b: string)
    requires |a| == |b| && AllDigits(a) && AllDigits(b)
    ensures StrLe(a, b) <==> DigitsValue(a) <= DigitsValue(b)
  {
    if |a| > 0 {
      DigitsFront(a);
      DigitsFront(b);
      DigitsBound(a[1..]);
      DigitsBound(b[1..]);
      var p := Pow10(|a| - 1);
      var da, db := DigitValue(a[0]), DigitValue(b[0]);
      if a[0] == b[0] {
        StrLeDigits(a[1..], b[1..]);
      } else if a[0] < b[0] {
        LeadingDigitDecides(da, db, DigitsValue(a[1..]), DigitsValue(b[1..]), p);
      } else {
        LeadingDigitDecides(db, da, DigitsValue(b[1..]), DigitsValue(a[1..]), p);
      }
    }
  }

  lemma LeadingDigitDecides(da: nat, db: nat, ra: nat, rb: nat, p: nat)
    requires da < db && ra < p
    ensures da * p + ra < db * p + rb
  {
    assert (da + 1) * p <= db * p;
  }
}
