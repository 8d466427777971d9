/**
 * The string built-ins the client code relies on: `toLowerCase` and
 * `toUpperCase` (ASCII letters only), `includes`, the first `/\d+/` match
 * turned into a number by `parseInt`, and the decimal rendering that
 * template literals and `toString` give an integer.
 */
module Strings {
  import opened Base

  // ---------------------------------------------------------------------
  // Case folding

  function LowerChar(c: char): char
  {
    if 'A' <= c <= 'Z' then (c as int + 32) as char else c
  }

  function UpperChar(c: char): char
  {
    if 'a' <= c <= 'z' then (c as int - 32) as char else c
  }

  /** `s.toLowerCase()`, folding the ASCII letters A-Z only. */
  function Lower(s: string): (r: string)
    ensures |r| == |s|
    ensures forall i :: 0 <= i < |s| ==> r[i] == LowerChar(s[i])
  {
    seq(|s|, i requires 0 <= i < |s| => LowerChar(s[i]))
  }

  /** `s.toUpperCase()`, folding the ASCII letters a-z only. */
  function Upper(s: string): (r: string)
    ensures |r| == |s|
    ensures forall i :: 0 <= i < |s| ==> r[i] == UpperChar(s[i])
  {
    seq(|s|, i requires 0 <= i < |s| => UpperChar(s[i]))
  }

  /** Lower-casing is idempotent and erases any earlier upper-casing. */
  lemma LowerAbsorbs(s: string)
    ensures Lower(Lower(s)) == Lower(s)
    ensures Lower(Upper(s)) == Lower(s)
  {
    assert forall i :: 0 <= i < |s| ==> LowerChar(LowerChar(s[i])) == LowerChar(s[i]);
    assert forall i :: 0 <= i < |s| ==> LowerChar(UpperChar(s[i])) == LowerChar(s[i]);
  }

  // ---------------------------------------------------------------------
  // Substring search

  /** `needle` occurs in `hay` starting at position `i`. */
  ghost predicate OccursAt(needle: string, hay: string, i: int)
  {
    0 <= i && i + |needle| <= |hay| && hay[i..i + |needle|] == needle
  }

  /** `hay.includes(needle)`: a left-to-right scan for `needle`. */
  function Includes(hay: string, needle: string): (r: bool)
    ensures needle == [] ==> r
    ensures r ==> |needle| <= |hay|
    decreases |hay|
  {
    if |needle| > |hay| then false
    else if hay[..|needle|] == needle then true
    else Includes(hay[1..], needle)
  }

  /** The scan finds `needle` exactly when it occurs somewhere in `hay`. */
  lemma {:induction false} IncludesIffOccurs(hay: string, needle: string)
    ensures Includes(hay, needle) <==> exists i :: OccursAt(needle, hay, i)
    decreases |hay|
  {
    if |needle| > |hay| {
    } else if hay[..|needle|] == needle {
      assert OccursAt(needle, hay, 0);
    } else {
      IncludesIffOccurs(hay[1..], needle);
      if Includes(hay[1..], needle) {
        var i :| OccursAt(needle, hay[1..], i);
        assert hay[1..][i..i + |needle|] == hay[i + 1..i + 1 + |needle|];
        assert OccursAt(needle, hay, i + 1);
      }
      if i :| OccursAt(needle, hay, i) {
        assert i != 0;
        assert hay[1..][i - 1..i - 1 + |needle|] == hay[i..i + |needle|];
        assert OccursAt(needle, hay[1..], i - 1);
      }
    }
  }

  /**
   * `keywords.some(k => message.toLowerCase().includes(k.toLowerCase()))`,
   * trying the keywords in order.
   */
  function ContainsAny(message: string, keywords: seq<string>): bool
  {
    keywords != [] && (Includes(Lower(message), Lower(keywords[0])) || ContainsAny(message, keywords[1..]))
  }

  /** The keyword test holds exactly when some keyword, lower-cased, occurs in the lower-cased message. */
  lemma {:induction false} ContainsAnyIff(message: string, keywords: seq<string>)
    ensures ContainsAny(message, keywords) <==>
            exists k, i :: k in keywords && OccursAt(Lower(k), Lower(message), i)
    decreases |keywords|
  {
    if keywords != [] {
      var head, lm := keywords[0], Lower(message);
      ContainsAnyIff(message, keywords[1..]);
      IncludesIffOccurs(lm, Lower(head));
      if Includes(lm, Lower(head)) {
        var i :| OccursAt(Lower(head), lm, i);
        assert head in keywords;
      } else if ContainsAny(message, keywords[1..]) {
        var k, i :| k in keywords[1..] && OccursAt(Lower(k), lm, i);
        assert k in keywords;
      }
      if k, i :| k in keywords && OccursAt(Lower(k), lm, i) {
        if k != head {
          assert k in keywords[1..];
        }
      }
    }
  }

  /** Matching ignores the case of the message: a lower- or upper-cased message matches the same keywords. */
  lemma ContainsAnyIgnoresCase(message: string, keywords: seq<string>)
    ensures ContainsAny(Lower(message), keywords) == ContainsAny(message, keywords)
    ensures ContainsAny(Upper(message), keywords) == ContainsAny(message, keywords)
  {
    LowerAbsorbs(message);
  }

  // ---------------------------------------------------------------------
  // Digits

  predicate IsDigit(c: char)
  {
    '0' <= c <= '9'
  }

  predicate AllDigits(s: string)
  {
    forall i :: 0 <= i < |s| ==> IsDigit(s[i])
  }

  function DigitValue(c: char): nat
    requires IsDigit(c)
  {
    c as int - '0' as int
  }

  function DigitChar(d: nat): (c: char)
    requires d < 10
    ensures IsDigit(c) && DigitValue(c) == d
  {
    ('0' as int + d) as char
  }

  /** `parseInt` of a string of decimal digits, read most significant digit first. */
  function DigitsValue(ds: string): nat
    requires AllDigits(ds)
  {
    if ds == [] then 0 else 10 * DigitsValue(ds[..|ds| - 1]) + DigitValue(ds[|ds| - 1])
  }

  /** The positions `i..j` of `s` hold the first maximal run of digits. */
  ghost predicate FirstDigitRun(s: string, i: int, j: int)
  {
    && 0 <= i < j <= |s|
    && (forall k :: 0 <= k < i ==> !IsDigit(s[k]))
    && (forall k :: i <= k < j ==> IsDigit(s[k]))
    && (j == |s| || !IsDigit(s[j]))
  }

  /** Index of the first digit at or after `from`, or `|s|` when there is none. */
  function FirstDigitFrom(s: string, from: nat): (i: nat)
    requires from <= |s|
    ensures from <= i <= |s|
    ensures forall k :: from <= k < i ==> !IsDigit(s[k])
    ensures i < |s| ==> IsDigit(s[i])
    decreases |s| - from
  {
    if from == |s| || IsDigit(s[from]) then from else FirstDigitFrom(s, from + 1)
  }

  /** End of the run of digits that starts at `from`. */
  function DigitRunEnd(s: string, from: nat): (j: nat)
    requires from <= |s|
    ensures from <= j <= |s|
    ensures forall k :: from <= k < j ==> IsDigit(s[k])
    ensures j == |s| || !IsDigit(s[j])
    decreases |s| - from
  {
    if from == |s| || !IsDigit(s[from]) then from else DigitRunEnd(s, from + 1)
  }

  /**
   * `message.match(/\d+/)` followed by `parseInt(match[0])`: the value of the
   * first maximal run of decimal digits, or `None` when there is no digit.
   */
  function ExtractNumber(message: string): (r: Option<nat>)
    ensures r.None? <==> forall k :: 0 <= k < |message| ==> !IsDigit(message[k])
    ensures r.Some? ==> exists i, j :: FirstDigitRun(message, i, j) && AllDigits(message[i..j])
                                       && r.value == DigitsValue(message[i..j])
  {
    var i := FirstDigitFrom(message, 0);
    if i == |message| then None
    else
      var j := DigitRunEnd(message, i);
      assert FirstDigitRun(message, i, j);
      Some(DigitsValue(message[i..j]))
  }

  /** The first maximal run of digits is unique. */
  lemma FirstDigitRunUnique(s: string, i: int, j: int, i': int, j': int)
    requires FirstDigitRun(s, i, j) && FirstDigitRun(s, i', j')
    ensures i == i' && j == j'
  {
    assert IsDigit(s[i]) && IsDigit(s[i']);
    assert j < |s| ==> !IsDigit(s[j]);
    assert j' < |s| ==> !IsDigit(s[j']);
  }

  // ---------------------------------------------------------------------
  // Decimal rendering

  /** Decimal numeral of a natural number, as `${n}` or `n.toString()` writes it. */
  function NatToString(n: nat): (s: string)
    ensures s != [] && AllDigits(s)
    ensures |s| > 1 ==> s[0] != '0'
  {
    if n < 10 then [DigitChar(n)] else NatToString(n / 10) + [DigitChar(n % 10)]
  }

  /** Decimal numeral of an integer, with a leading '-' when negative. */
  function IntToString(n: int): (s: string)
    ensures s != []
    ensures n >= 0 ==> s == NatToString(n)
    ensures n < 0 ==> s == "-" + NatToString(-n)
  {
    if n < 0 then "-" + NatToString(-n) else NatToString(n)
  }

  /** Reading back the numeral gives the number: rendering and `parseInt` are inverse. */
  lemma {:induction false} NatToStringRoundTrip(n: nat)
    ensures DigitsValue(NatToString(n)) == n
    decreases n
  {
    if n >= 10 {
      NatToStringRoundTrip(n / 10);
      var s := NatToString(n);
      assert s[..|s| - 1] == NatToString(n / 10);
    }
  }

  /** A numeral with no digit on either side is what `ExtractNumber` finds. */
  lemma ExtractNumberFindsNumeral(prefix: string, n: nat, suffix: string)
    requires forall k :: 0 <= k < |prefix| ==> !IsDigit(prefix[k])
    requires suffix == [] || !IsDigit(suffix[0])
    ensures ExtractNumber(prefix + NatToString(n) + suffix) == Some(n)
  {
    var d := NatToString(n);
    var s := prefix + d + suffix;
    var i, j := |prefix|, |prefix| + |d|;
    assert FirstDigitRun(s, i, j);
    assert s[i..j] == d;
    NatToStringRoundTrip(n);
    var r := ExtractNumber(s);
    var i', j' :| FirstDigitRun(s, i', j') && AllDigits(s[i'..j']) && r.value == DigitsValue(s[i'..j']);
    FirstDigitRunUnique(s, i, j, i', j');
  }
}
