/** Text helpers standing in for the two Swift standard-library operations
    the logger relies on: `Array.joined(separator:)` and the decimal text
    that string interpolation produces for an `Int`. */
module Text {

  /** The total length of the tokens. */
  function TotalLength(tokens: seq<string>): nat
  {
    if tokens == [] then 0 else |tokens[0]| + TotalLength(tokens[1..])
  }

  /** The tokens with `sep` between each pair of neighbours, as
      `joined(separator:)` builds it: no separator before the first token
      or after the last, and the empty string for no tokens. The joined
      text holds every character of the tokens and exactly one separator
      per pair of neighbours. */
  function Join(tokens: seq<string>, sep: string): (r: string)
    ensures |tokens| == 0 ==> r == ""
    ensures |tokens| > 0 ==> |r| == TotalLength(tokens) + (|tokens| - 1) * |sep|
  {
    if |tokens| == 0 then ""
    else if |tokens| == 1 then tokens[0]
    else tokens[0] + sep + Join(tokens[1..], sep)
  }

  /** Appending a token to a non-empty list appends one separator and the
      token to the joined text. */
  lemma {:induction false} JoinAppend(tokens: seq<string>, t: string, sep: string)
    requires |tokens| > 0
    ensures Join(tokens + [t], sep) == Join(tokens, sep) + sep + t
  {
    if |tokens| > 1 {
      assert (tokens + [t])[1..] == tokens[1..] + [t];
      JoinAppend(tokens[1..], t, sep);
    }
  }

  /** The joined text of a non-empty list starts with its first token, and
      is exactly that token when there is no other. */
  lemma JoinFirst(tokens: seq<string>, sep: string)
    requires |tokens| > 0
    ensures tokens[0] <= Join(tokens, sep)
    ensures |tokens| == 1 ==> Join(tokens, sep) == tokens[0]
  {
  }

  /** Regrouping a concatenation. This and `AppendEmpty` only keep proofs
      about long texts cheap for the solver, which otherwise compares them
      character by character; they say nothing about the logger. */
  lemma AppendAssoc(a: string, b: string, c: string)
    ensures a + b + c == a + (b + c)
  {
  }

  lemma AppendEmpty(a: string)
    ensures a + "" == a
  {
  }

  function DigitChar(d: nat): char
    requires d < 10
  {
    ('0' as int + d) as char
  }

  predicate IsDigits(s: string)
  {
    forall i :: 0 <= i < |s| ==> '0' <= s[i] <= '9'
  }

  /** The decimal digits of `n`, most significant first. */
  function NatToString(n: nat): string
    decreases n
  {
    if n < 10 then [DigitChar(n)] else NatToString(n / 10) + [DigitChar(n % 10)]
  }

  /** The text Swift's string interpolation gives an `Int`: its decimal
      digits, preceded by `-` when it is negative. The text is never empty
      and starts with `-` exactly when the number is negative. */
  function IntToString(i: int): (r: string)
    ensures |r| >= 1 && (r[0] == '-') == (i < 0)
  {
    NatToStringDigits(if i < 0 then -i else i);
    if i < 0 then "-" + NatToString(-i) else NatToString(i)
  }

  /** The decimal text of `n` is a non-empty string of digits with no
      leading zero, except for `0` itself. */
  lemma {:induction false} NatToStringDigits(n: nat)
    ensures var s := NatToString(n); |s| >= 1 && IsDigits(s) && (s[0] == '0') == (n == 0)
    decreases n
  {
    if n >= 10 {
      NatToStringDigits(n / 10);
    }
  }

  /** The number a string of decimal digits denotes. */
  function DigitsValue(s: string): nat
    requires IsDigits(s)
  {
    if s == [] then 0 else 10 * DigitsValue(s[..|s| - 1]) + (s[|s| - 1] as int - '0' as int)
  }

  /** Reading the decimal text of `n` back gives `n`: the rendering loses
      nothing. */
  lemma {:induction false} NatToStringValue(n: nat)
    ensures IsDigits(NatToString(n)) && DigitsValue(NatToString(n)) == n
    decreases n
  {
    NatToStringDigits(n);
    if n >= 10 {
      var s := NatToString(n);
      assert s[..|s| - 1] == NatToString(n / 10);
      NatToStringValue(n / 10);
    }
  }

  /** Distinct naturals have distinct decimal texts. */
  lemma NatToStringInjective(a: nat, b: nat)
    requires NatToString(a) == NatToString(b)
    ensures a == b
  {
    NatToStringValue(a);
    NatToStringValue(b);
  }

  /** Distinct integers are rendered as distinct texts, so identifiers and
      status codes in a log line can be told apart. */
  lemma IntToStringInjective(i: int, j: int)
    requires IntToString(i) == IntToString(j)
    ensures i == j
  {
    if i < 0 {
      assert NatToString(-i) == IntToString(i)[1..];
      assert NatToString(-j) == IntToString(j)[1..];
      NatToStringInjective(-i, -j);
    } else {
      NatToStringInjective(i, j);
    }
  }
}
