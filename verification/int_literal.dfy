/** Python's `int(s)` on a string in base 10, and `str(n)` as its inverse.
    Only ASCII is modelled: the whitespace `int()` skips is space, tab, line
    feed, vertical tab, form feed and carriage return, the digits are
    '0'..'9', and underscores between digits are not accepted. */
module IntLiteral {
  import opened Wrappers

  /** The ASCII characters `int()` skips around a literal: space, tab, line
      feed, vertical tab, form feed and carriage return. (The separators
      0x1C..0x1F, which `str.isspace()` accepts, are not skipped by `int()`.) */
  predicate IsSpace(c: char) {
    c == ' ' || 9 <= c as int <= 13
  }

  predicate AllSpace(s: string) {
    forall i :: 0 <= i < |s| ==> IsSpace(s[i])
  }

  /** `s` with its leading whitespace removed. */
  function TrimStart(s: string): string
  {
    if |s| > 0 && IsSpace(s[0]) then TrimStart(s[1..]) else s
  }

  /** `s` with its trailing whitespace removed. */
  function TrimEnd(s: string): string
  {
    if |s| > 0 && IsSpace(s[|s| - 1]) then TrimEnd(s[..|s| - 1]) else s
  }

  /** `s` without the whitespace `int()` skips at either end: the text it converts. */
  function Strip(s: string): string
  {
    TrimEnd(TrimStart(s))
  }

  predicate IsDigit(c: char) {
    '0' <= c <= '9'
  }

  predicate IsSign(c: char) {
    c == '+' || c == '-'
  }

  /** One or more decimal digits. */
  predicate IsDigits(t: string) {
    |t| > 0 && forall i :: 0 <= i < |t| ==> IsDigit(t[i])
  }

  /** The strings `int()` accepts: after stripping whitespace, an optional
      sign followed by at least one digit (leading zeros allowed). */
  function IsIntLiteral(s: string): (valid: bool)
    ensures AllSpace(s) ==> !valid
    ensures valid ==> |Strip(s)| > 0 && IsDigit(Strip(s)[|Strip(s)| - 1])
  {
    AllSpaceTrimsToEmpty(s);
    var t := Strip(s);
    IsDigits(t) || (|t| > 0 && IsSign(t[0]) && IsDigits(t[1..]))
  }

  /** A string of whitespace alone (the empty string included) strips to nothing. */
  lemma {:induction false} AllSpaceTrimsToEmpty(s: string)
    ensures AllSpace(s) ==> TrimStart(s) == ""
  {
    if |s| > 0 && AllSpace(s) {
      AllSpaceTrimsToEmpty(s[1..]);
    }
  }

  function DigitValue(c: char): nat
    requires IsDigit(c)
  {
    c as int - '0' as int
  }

  /** The value of a digit string, most significant digit first. */
  function DigitsValue(t: string): nat
    requires forall i :: 0 <= i < |t| ==> IsDigit(t[i])
  {
    if |t| == 0 then 0
    else DigitsValue(t[..|t| - 1]) * 10 + DigitValue(t[|t| - 1])
  }

  /** `int(s)` on a string it accepts: the sign of the value is the sign
      written, a value below zero needs a leading minus, and an unsigned or
      plus-signed literal never reads as a negative number. */
  function ParseInt(s: string): (n: int)
    requires IsIntLiteral(s)
    ensures n < 0 ==> Strip(s)[0] == '-'
    ensures Strip(s)[0] != '-' ==> n >= 0
  {
    var t := Strip(s);
    var magnitude: int := if IsDigits(t) then DigitsValue(t) else DigitsValue(t[1..]);
    if t[0] == '-' then -magnitude else magnitude
  }

  /** The index of the first token `int()` rejects, if any: a comprehension
      `[int(v) for v in values]` raises at that token and converts none after it. */
  function FirstNonInt(tokens: seq<string>): (k: Option<nat>)
    ensures k.None? <==> forall i :: 0 <= i < |tokens| ==> IsIntLiteral(tokens[i])
    ensures k.Some? ==> k.value < |tokens| && !IsIntLiteral(tokens[k.value])
    ensures k.Some? ==> forall i :: 0 <= i < k.value ==> IsIntLiteral(tokens[i])
  {
    FirstNonIntFrom(tokens, 0)
  }

  /** `FirstNonInt` over the tokens from index `from` on. */
  function FirstNonIntFrom(tokens: seq<string>, from: nat): (k: Option<nat>)
    requires from <= |tokens|
    ensures k.None? <==> forall i :: from <= i < |tokens| ==> IsIntLiteral(tokens[i])
    ensures k.Some? ==> from <= k.value < |tokens| && !IsIntLiteral(tokens[k.value])
    ensures k.Some? ==> forall i :: from <= i < k.value ==> IsIntLiteral(tokens[i])
    decreases |tokens| - from
  {
    if from == |tokens| then None
    else if !IsIntLiteral(tokens[from]) then Some(from)
    else FirstNonIntFrom(tokens, from + 1)
  }

  /** `[int(v) for v in tokens]` when every token is accepted. */
  function ParseAll(tokens: seq<string>): (ns: seq<int>)
    requires forall i :: 0 <= i < |tokens| ==> IsIntLiteral(tokens[i])
    ensures |ns| == |tokens|
    ensures forall i :: 0 <= i < |tokens| ==> ns[i] == ParseInt(tokens[i])
  {
    if |tokens| == 0 then [] else [ParseInt(tokens[0])] + ParseAll(tokens[1..])
  }

  function DigitChar(d: nat): char
    requires d < 10
  {
    ('0' as int + d) as char
  }

  /** `str(n)` for a natural number: decimal digits without leading zeros. */
  function FormatNat(n: nat): (t: string)
    ensures IsDigits(t)
    ensures |t| > 1 ==> t[0] != '0'
  {
    if n < 10 then [DigitChar(n)] else FormatNat(n / 10) + [DigitChar(n % 10)]
  }

  /** `str(n)`: how an integer is written, for instance in a spreadsheet cell. */
  function FormatInt(n: int): (s: string)
    ensures |s| > 0 && IsDigit(s[|s| - 1])
    ensures forall i :: 0 <= i < |s| ==> s[i] == '-' || IsDigit(s[i])
  {
    if n < 0 then "-" + FormatNat(-n) else FormatNat(n)
  }

  /** `[str(n) for n in ns]`. */
  function FormatAll(ns: seq<int>): (tokens: seq<string>)
    ensures |tokens| == |ns|
    ensures forall i :: 0 <= i < |ns| ==> tokens[i] == FormatInt(ns[i])
  {
    if |ns| == 0 then [] else [FormatInt(ns[0])] + FormatAll(ns[1..])
  }

  /** Reading back the digits of a natural number gives the number. */
  lemma {:induction false} DigitsValueFormatNat(n: nat)
    ensures DigitsValue(FormatNat(n)) == n
  {
    if n >= 10 {
      var t := FormatNat(n);
      DigitsValueFormatNat(n / 10);
      assert t[..|t| - 1] == FormatNat(n / 10);
    }
  }

  /** A string with no whitespace at either end is its own strip. */
  lemma StripUnpadded(s: string)
    requires |s| > 0 && !IsSpace(s[0]) && !IsSpace(s[|s| - 1])
    ensures Strip(s) == s
  {
  }

  /** `int(str(n)) == n`: every integer is written as a literal that reads back as itself. */
  lemma ParseFormat(n: int)
    ensures IsIntLiteral(FormatInt(n))
    ensures ParseInt(FormatInt(n)) == n
  {
    var s := FormatInt(n);
    StripUnpadded(s);
    if n < 0 {
      DigitsValueFormatNat(-n);
      assert s[1..] == FormatNat(-n);
    } else {
      DigitsValueFormatNat(n);
    }
  }

  /** Converting the written form of every integer gives back the integers, in order. */
  lemma ParseAllFormatAll(ns: seq<int>)
    ensures forall i :: 0 <= i < |ns| ==> IsIntLiteral(FormatAll(ns)[i])
    ensures ParseAll(FormatAll(ns)) == ns
  {
    var tokens := FormatAll(ns);
    forall i | 0 <= i < |ns|
      ensures IsIntLiteral(tokens[i]) && ParseInt(tokens[i]) == ns[i]
    {
      ParseFormat(ns[i]);
    }
  }

  /** Leading whitespace does not change what `TrimStart` leaves. */
  lemma {:induction false} TrimStartSkipsSpace(pre: string, s: string)
    requires AllSpace(pre)
    ensures TrimStart(pre + s) == TrimStart(s)
  {
    if |pre| > 0 {
      assert IsSpace((pre + s)[0]);
      assert (pre + s)[1..] == pre[1..] + s;
      TrimStartSkipsSpace(pre[1..], s);
    } else {
      assert pre + s == s;
    }
  }

  /** Trailing whitespace does not change what `TrimEnd` leaves. */
  lemma {:induction false} TrimEndSkipsSpace(s: string, post: string)
    requires AllSpace(post)
    ensures TrimEnd(s + post) == TrimEnd(s)
  {
    if |post| > 0 {
      var p := post[..|post| - 1];
      assert IsSpace((s + post)[|s + post| - 1]);
      assert (s + post)[..|s + post| - 1] == s + p;
      TrimEndSkipsSpace(s, p);
    } else {
      assert s + post == s;
    }
  }

  /** Trailing whitespace does not change what `Strip` leaves. */
  lemma {:induction false} StripSkipsTrailingSpace(s: string, post: string)
    requires AllSpace(post)
    ensures Strip(s + post) == Strip(s)
  {
    if |s| == 0 {
      assert s + post == post;
      TrimStartSkipsSpace(post, "");
      assert post + "" == post;
    } else if IsSpace(s[0]) {
      assert (s + post)[1..] == s[1..] + post;
      StripSkipsTrailingSpace(s[1..], post);
    } else {
      TrimEndSkipsSpace(s, post);
    }
  }

  /** `int()` ignores whitespace around a literal: padding changes neither
      whether a string is accepted nor the value it reads as. */
  lemma ParseIntIgnoresPadding(pre: string, s: string, post: string)
    requires AllSpace(pre) && AllSpace(post)
    ensures IsIntLiteral(pre + s + post) <==> IsIntLiteral(s)
    ensures IsIntLiteral(s) ==> ParseInt(pre + s + post) == ParseInt(s)
  {
    assert pre + s + post == pre + (s + post);
    TrimStartSkipsSpace(pre, s + post);
    StripSkipsTrailingSpace(s, post);
    assert Strip(pre + s + post) == Strip(s);
  }

  /** A leading minus negates the value of a digit string, and a leading plus keeps it. */
  lemma ParseIntSign(t: string)
    requires IsDigits(t)
    ensures IsIntLiteral("-" + t) && ParseInt("-" + t) == -ParseInt(t)
    ensures IsIntLiteral("+" + t) && ParseInt("+" + t) == ParseInt(t)
  {
  }

  /** A leading zero does not change the value of a digit string. */
  lemma {:induction false} DigitsValueLeadingZero(t: string)
    requires forall i :: 0 <= i < |t| ==> IsDigit(t[i])
    ensures DigitsValue("0" + t) == DigitsValue(t)
  {
    if |t| > 0 {
      var u := "0" + t;
      assert u[..|u| - 1] == "0" + t[..|t| - 1];
      DigitsValueLeadingZero(t[..|t| - 1]);
    } else {
      assert "0" + t == "0";
    }
  }

  /** `int()` accepts leading zeros in base 10, and they do not change the value. */
  lemma LeadingZero(t: string)
    requires IsDigits(t)
    ensures IsIntLiteral("0" + t) && ParseInt("0" + t) == ParseInt(t)
  {
    DigitsValueLeadingZero(t);
    StripUnpadded("0" + t);
    StripUnpadded(t);
  }

  /** `int()` rejects the empty string, a lone sign and a word. */
  lemma RejectsNonLiterals()
    ensures !IsIntLiteral("") && !IsIntLiteral("-") && !IsIntLiteral("+")
    ensures !IsIntLiteral("thirty")
    ensures !IsIntLiteral([28 as char] + "5")
  {
  }
}
