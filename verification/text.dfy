/** String helpers the components rely on: decimal rendering of numbers inside template
    literals, `toLowerCase`, `includes` on strings and `Array.prototype.join`. */
module Text {

  predicate IsDigit(c: char)
  {
    '0' <= c <= '9'
  }

  predicate AllDigits(s: string)
  {
    forall i :: 0 <= i < |s| ==> IsDigit(s[i])
  }

  function DigitChar(d: nat): (c: char)
    requires d < 10
    ensures IsDigit(c)
  {
    (48 + d) as char
  }

  /** The number a string of decimal digits denotes. */
  function DigitsValue(s: string): nat
    requires AllDigits(s)
  {
    if |s| == 0 then 0 else DigitsValue(s[..|s| - 1]) * 10 + (s[|s| - 1] as int - 48)
  }

  /** Decimal rendering of a natural number, as JavaScript prints it: digits only, no
      leading zero, and reading the digits back gives the number. */
  function NatToString(n: nat): (r: string)
    ensures |r| >= 1 && AllDigits(r)
    ensures DigitsValue(r) == n
    ensures r[0] == '0' ==> n == 0
  {
    if n < 10 then [DigitChar(n)]
    else
      var prefix := NatToString(n / 10);
      var r := prefix + [DigitChar(n % 10)];
      assert r[..|r| - 1] == prefix;
      r
  }

  /** Decimal rendering of an integer, with a leading '-' when negative. */
  function IntToString(n: int): (r: string)
    ensures |r| >= 1
    ensures n >= 0 <==> r[0] != '-'
  {
    if n < 0 then "-" + NatToString(-n) else NatToString(n)
  }

  /** Distinct numbers render as distinct strings. */
  lemma IntToStringInjective(a: int, b: int)
    requires IntToString(a) == IntToString(b)
    ensures a == b
  {
    if a < 0 && b < 0 {
      assert NatToString(-a) == IntToString(a)[1..];
      assert NatToString(-b) == IntToString(b)[1..];
    }
  }

  /** `toLowerCase` on one character (letters A-Z only). */
  function LowerChar(c: char): char
  {
    if 'A' <= c <= 'Z' then (c as int + 32) as char else c
  }

  /** `toLowerCase` on a string, character by character. */
  function ToLower(s: string): (r: string)
    ensures |r| == |s|
    ensures forall i :: 0 <= i < |s| ==> r[i] == LowerChar(s[i])
  {
    seq(|s|, i requires 0 <= i < |s| => LowerChar(s[i]))
  }

  /** `hay.includes(needle)`: `needle` occurs as a contiguous block of `hay`. */
  predicate Contains(hay: string, needle: string)
    ensures needle == "" ==> Contains(hay, needle)
    ensures Contains(hay, needle) ==> |needle| <= |hay|
    decreases |hay|
  {
    needle <= hay || (|hay| > 0 && Contains(hay[1..], needle))
  }

  /** Any block of `hay` equal to `needle` is found by `Contains`. */
  lemma {:induction false} ContainsAt(hay: string, needle: string, i: nat)
    requires i + |needle| <= |hay|
    ensures hay[i..i + |needle|] == needle ==> Contains(hay, needle)
  {
    if i > 0 {
      ContainsAt(hay[1..], needle, i - 1);
      assert hay[1..][i - 1..i - 1 + |needle|] == hay[i..i + |needle|];
    }
  }

  /** `needle` sits in `hay` starting at position `i`. */
  predicate BlockAt(hay: string, needle: string, i: nat)
  {
    i + |needle| <= |hay| && hay[i..i + |needle|] == needle
  }

  /** Only blocks equal to `needle` are found by `Contains`. */
  lemma {:induction false} ContainsSound(hay: string, needle: string)
    requires Contains(hay, needle)
    ensures exists i: nat :: BlockAt(hay, needle, i)
  {
    if needle <= hay {
      assert BlockAt(hay, needle, 0);
    } else {
      ContainsSound(hay[1..], needle);
      var j: nat :| BlockAt(hay[1..], needle, j);
      assert hay[j + 1..j + 1 + |needle|] == hay[1..][j..j + |needle|];
      assert BlockAt(hay, needle, j + 1);
    }
  }

  /** `hay.includes(needle)` holds exactly when `needle` occurs as a block of `hay`. */
  lemma ContainsIff(hay: string, needle: string)
    ensures Contains(hay, needle) <==> exists i: nat :: BlockAt(hay, needle, i)
  {
    if Contains(hay, needle) {
      ContainsSound(hay, needle);
    }
    if exists i: nat :: BlockAt(hay, needle, i) {
      var i: nat :| BlockAt(hay, needle, i);
      ContainsAt(hay, needle, i);
    }
  }

  /** `parts.join(sep)`. */
  function Join(parts: seq<string>, sep: string): (r: string)
    ensures |parts| == 0 ==> r == ""
    ensures |parts| > 0 ==> parts[0] <= r
    ensures |parts| == 1 ==> r == parts[0]
  {
    if |parts| == 0 then ""
    else if |parts| == 1 then parts[0]
    else parts[0] + sep + Join(parts[1..], sep)
  }

  /** Joining one more part appends the separator and that part: with `Join([]) == ""` and
      `Join([p]) == p`, this pins every join down to its parts in order. */
  lemma {:induction false} JoinAppend(parts: seq<string>, x: string, sep: string)
    requires |parts| > 0
    ensures Join(parts + [x], sep) == Join(parts, sep) + sep + x
  {
    var all := parts + [x];
    if |parts| == 1 {
      assert all[1..] == [x];
    } else {
      assert all[1..] == parts[1..] + [x];
      JoinAppend(parts[1..], x, sep);
    }
  }
}
