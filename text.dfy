/** Strings as the Python code builds them: substring search, suffixes and the
    decimal numerals `str()` and f-strings write for integers. */
module Text {
  import opened Wrappers

  /** `sub` occurs in `s` starting at position `i`. */
  predicate OccursAt(s: string, sub: string, i: int)
  {
    0 <= i && i + |sub| <= |s| && s[i..i + |sub|] == sub
  }

  /** Python's `sub in s` for strings. */
  predicate Contains(s: string, sub: string)
  {
    exists i | 0 <= i <= |s| :: OccursAt(s, sub, i)
  }

  /** Python's `s.endswith(suffix)`. */
  predicate EndsWith(s: string, suffix: string)
  {
    |suffix| <= |s| && s[|s| - |suffix|..] == suffix
  }

  /** Whatever stands between two other strings occurs in their concatenation. */
  lemma ContainsMiddle(before: string, sub: string, after: string)
    ensures Contains(before + sub + after, sub)
  {
    var s := before + sub + after;
    assert s[|before|..|before| + |sub|] == sub;
    assert OccursAt(s, sub, |before|);
  }

  /** Concatenation of a list of pieces, as an f-string or `+` chain joins its parts. */
  function Concat(pieces: seq<string>): string
  {
    if pieces == [] then "" else pieces[0] + Concat(pieces[1..])
  }

  /** An occurrence inside a tail is still an occurrence after anything is put in front. */
  lemma ContainsShift(before: string, t: string, sub: string)
    requires Contains(t, sub)
    ensures Contains(before + t, sub)
  {
    var i :| 0 <= i <= |t| && OccursAt(t, sub, i);
    assert (before + t)[|before| + i..|before| + i + |sub|] == t[i..i + |sub|];
    assert OccursAt(before + t, sub, |before| + i);
  }

  /** A string occurs at the start of anything it begins. */
  lemma ContainsPrefix(t: string, after: string)
    ensures Contains(t + after, t)
  {
    assert (t + after)[0..|t|] == t;
    assert OccursAt(t + after, t, 0);
  }

  /** An occurrence inside a string is still one once text is put on both sides. */
  lemma ContainsWithin(before: string, t: string, after: string, sub: string)
    requires Contains(t, sub)
    ensures Contains(before + t + after, sub)
  {
    var i :| 0 <= i <= |t| && OccursAt(t, sub, i);
    var s := before + t + after;
    assert s[|before| + i..|before| + i + |sub|] == t[i..i + |sub|];
    assert OccursAt(s, sub, |before| + i);
  }

  /** Every piece occurs in the concatenation of the pieces. */
  lemma {:induction false} ConcatContains(pieces: seq<string>, k: nat)
    requires k < |pieces|
    ensures Contains(Concat(pieces), pieces[k])
  {
    if k == 0 {
      ContainsMiddle("", pieces[0], Concat(pieces[1..]));
      assert "" + pieces[0] + Concat(pieces[1..]) == Concat(pieces);
    } else {
      ConcatContains(pieces[1..], k - 1);
      ContainsShift(pieces[0], Concat(pieces[1..]), pieces[k]);
    }
  }

  /** The concatenation begins with the first piece and ends with the last one. */
  lemma {:induction false} ConcatEnds(pieces: seq<string>)
    requires |pieces| >= 1
    ensures pieces[0] <= Concat(pieces)
    ensures EndsWith(Concat(pieces), pieces[|pieces| - 1])
  {
    if |pieces| == 1 {
      assert Concat(pieces) == pieces[0] + "";
    } else {
      ConcatEnds(pieces[1..]);
      var rest := Concat(pieces[1..]);
      var last := pieces[|pieces| - 1];
      assert (pieces[0] + rest)[|pieces[0] + rest| - |last|..] == rest[|rest| - |last|..];
    }
  }

  predicate IsDigit(c: char)
  {
    '0' <= c <= '9'
  }

  predicate AllDigits(s: string)
  {
    forall i :: 0 <= i < |s| ==> IsDigit(s[i])
  }

  function DigitChar(d: nat): (c: char)
    requires d < 10
    ensures IsDigit(c) && c as int - '0' as int == d
  {
    ('0' as int + d) as char
  }

  /** The decimal numeral of `n`: digits only, and no leading zero unless `n` is 0. */
  function NatToDecimal(n: nat): (s: string)
    ensures |s| >= 1 && AllDigits(s)
    ensures s[0] == '0' ==> n == 0
  {
    if n < 10 then [DigitChar(n)] else NatToDecimal(n / 10) + [DigitChar(n % 10)]
  }

  /** The number a string of decimal digits denotes. */
  function DigitsValue(s: string): nat
    requires AllDigits(s)
  {
    if s == [] then 0 else 10 * DigitsValue(s[..|s| - 1]) + (s[|s| - 1] as int - '0' as int)
  }

  lemma {:induction false} DigitsValueOfDecimal(n: nat)
    ensures DigitsValue(NatToDecimal(n)) == n
  {
    if n >= 10 {
      var s := NatToDecimal(n);
      assert s[..|s| - 1] == NatToDecimal(n / 10);
      DigitsValueOfDecimal(n / 10);
    }
  }

  /** Reads back an optionally signed decimal numeral; `None` for anything else. */
  function ParseInt(s: string): Option<int>
  {
    if |s| >= 2 && s[0] == '-' && AllDigits(s[1..]) then Some(-(DigitsValue(s[1..]) as int))
    else if |s| >= 1 && AllDigits(s) then Some(DigitsValue(s))
    else None
  }

  /** `str(n)` for a Python int: a minus sign for negative values, then the digits. */
  function IntToDecimal(n: int): (s: string)
    ensures |s| >= 1
    ensures (s[0] == '-') == (n < 0)
    ensures ParseInt(s) == Some(n)
    ensures n >= 0 ==> AllDigits(s)
    ensures n < 0 ==> |s| >= 2 && AllDigits(s[1..])
    ensures n > 0 ==> s[0] != '0'
    ensures n == 0 ==> s == "0"
    ensures n < 0 ==> s[1] != '0'
  {
    if n < 0 then
      var digits := NatToDecimal(-n);
      DigitsValueOfDecimal(-n);
      assert ("-" + digits)[1..] == digits;
      "-" + digits
    else
      DigitsValueOfDecimal(n);
      NatToDecimal(n)
  }
}
