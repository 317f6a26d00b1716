/** The text both ends of every exchange use: printf's %d, atoi and strtok.

    Strings are sequences of characters without the terminating NUL. Buffer sizes are not
    modelled, nor is an atoi whose number does not fit an int. */
module Text {

  datatype Token = NoToken | Token(text: string, rest: string)

  predicate IsDigit(c: char) { '0' <= c <= '9' }

  predicate IsSpace(c: char) { c == ' ' || '\t' <= c <= '\r' }

  function DigitChar(d: nat): (c: char)
    requires d < 10
    ensures IsDigit(c) && c as int - '0' as int == d
  {
    (d + '0' as int) as char
  }

  // ----- %d -----

  function NatText(n: nat): (s: string)
    ensures s != []
  {
    if n < 10 then [DigitChar(n)] else NatText(n / 10) + [DigitChar(n % 10)]
  }

  function IntText(n: int): (s: string)
    ensures s != []
  {
    if n < 0 then "-" + NatText(-n) else NatText(n)
  }

  lemma {:induction false} NatTextDigits(n: nat)
    ensures forall i :: 0 <= i < |NatText(n)| ==> IsDigit(NatText(n)[i])
  {
    if n < 10 {
    } else {
      NatTextDigits(n / 10);
    }
  }

  function Power10(d: nat): nat { if d == 0 then 1 else 10 * Power10(d - 1) }

  /** A number below 10^d prints in at most d digits, and from 10^(d-1) on in exactly d. */
  lemma {:induction false} NatTextLength(n: nat, d: nat)
    requires d >= 1 && n < Power10(d)
    ensures |NatText(n)| <= d
    ensures d == 1 || n >= Power10(d - 1) ==> |NatText(n)| == d
  {
    if n < 10 {
      if d > 1 {
        Power10Positive(d - 1);
      }
    } else {
      assert d > 1;
      NatTextLength(n / 10, d - 1);
    }
  }

  lemma {:induction false} Power10Positive(d: nat)
    ensures Power10(d) >= 1
    ensures d >= 1 ==> Power10(d) >= 10
  {
    if d == 0 {
    } else {
      Power10Positive(d - 1);
    }
  }

  lemma IntTextChars(n: int)
    ensures forall i :: 0 <= i < |IntText(n)| ==> IsDigit(IntText(n)[i]) || IntText(n)[i] == '-'
  {
    NatTextDigits(if n < 0 then -n else n);
  }

  // ----- atoi -----

  function LeadingDigits(s: string, acc: nat): nat
    decreases |s|
  {
    if s == [] || !IsDigit(s[0]) then acc
    else LeadingDigits(s[1..], 10 * acc + (s[0] as int - '0' as int))
  }

  function Atoi(s: string): int
    decreases |s|
  {
    if s == [] then 0
    else if IsSpace(s[0]) then Atoi(s[1..])
    else if s[0] == '-' then 0 - LeadingDigits(s[1..], 0)
    else if s[0] == '+' then LeadingDigits(s[1..], 0)
    else LeadingDigits(s, 0)
  }

  lemma {:induction false} LeadingDigitsSplit(s: string, d: char, rest: string, acc: nat)
    requires forall i :: 0 <= i < |s| ==> IsDigit(s[i])
    requires IsDigit(d) && (rest == [] || !IsDigit(rest[0]))
    ensures LeadingDigits(s + [d] + rest, acc) == 10 * LeadingDigits(s, acc) + (d as int - '0' as int)
    decreases |s|
  {
    var t := s + [d] + rest;
    if s == [] {
      assert t[1..] == rest;
    } else {
      assert t[1..] == s[1..] + [d] + rest;
      LeadingDigitsSplit(s[1..], d, rest, 10 * acc + (s[0] as int - '0' as int));
    }
  }

  lemma {:induction false} LeadingDigitsOfText(n: nat, rest: string)
    requires rest == [] || !IsDigit(rest[0])
    ensures LeadingDigits(NatText(n) + rest, 0) == n
    decreases n
  {
    if n < 10 {
      assert (NatText(n) + rest)[1..] == rest;
    } else {
      LeadingDigitsOfText(n / 10, []);
      NatTextDigits(n / 10);
      assert NatText(n / 10) + [] == NatText(n / 10);
      LeadingDigitsSplit(NatText(n / 10), DigitChar(n % 10), rest, 0);
    }
  }

  /** A proper prefix of a printed number denotes a smaller number. */
  lemma {:induction false} PrefixIsLess(n: nat, k: nat)
    requires 1 <= k <= |NatText(n)|
    ensures LeadingDigits(NatText(n)[..k], 0) <= n
    ensures k < |NatText(n)| ==> LeadingDigits(NatText(n)[..k], 0) < n
  {
    if k == |NatText(n)| {
      LeadingDigitsOfText(n, []);
      assert NatText(n)[..k] == NatText(n) == NatText(n) + [];
    } else {
      assert NatText(n)[..k] == NatText(n / 10)[..k];
      PrefixIsLess(n / 10, k);
    }
  }

  lemma AtoiOfMinus(s: string)
    ensures Atoi("-" + s) == 0 - LeadingDigits(s, 0)
  {
    assert ("-" + s)[1..] == s;
  }

  lemma AtoiOfDigits(s: string)
    requires s != [] && IsDigit(s[0])
    ensures Atoi(s) == LeadingDigits(s, 0)
  {
  }

  /** atoi reads back what %d printed, whatever non-digit text follows it. */
  lemma AtoiOfIntText(n: int, rest: string)
    requires rest == [] || !IsDigit(rest[0])
    ensures Atoi(IntText(n) + rest) == n
  {
    var digits := NatText(if n < 0 then -n else n);
    LeadingDigitsOfText(if n < 0 then -n else n, rest);
    if n < 0 {
      AppendAssociates("-", digits, rest);
      AtoiOfMinus(digits + rest);
    } else {
      NatTextDigits(n);
      AtoiOfDigits(digits + rest);
    }
  }

  /** Four, or five, digits denote the usual decimal number. */
  lemma FourDigits(s: string, a: nat, b: nat, c: nat, d: nat)
    requires a < 10 && b < 10 && c < 10 && d < 10 && s == [DigitChar(a), DigitChar(b), DigitChar(c), DigitChar(d)]
    ensures Atoi(s) == 1000 * a + 100 * b + 10 * c + d
  {
    AtoiOfDigits(s);
    assert s[1..] == [DigitChar(b), DigitChar(c), DigitChar(d)];
    assert s[1..][1..] == [DigitChar(c), DigitChar(d)];
    LeadingPair(DigitChar(c), DigitChar(d), 10 * a + b);
    assert LeadingDigits(s, 0) == LeadingDigits(s[1..], a) == LeadingDigits(s[1..][1..], 10 * a + b);
  }

  lemma LeadingPair(c: char, d: char, acc: nat)
    requires IsDigit(c) && IsDigit(d)
    ensures LeadingDigits([c, d], acc) == 100 * acc + 10 * (c as int - '0' as int) + (d as int - '0' as int)
  {
    assert [c, d][1..] == [d] && [d][1..] == [];
    assert LeadingDigits([d], 10 * acc + (c as int - '0' as int))
        == 10 * (10 * acc + (c as int - '0' as int)) + (d as int - '0' as int);
  }

  lemma FiveDigits(s: string, a: nat, b: nat, c: nat, d: nat, e: nat)
    requires a < 10 && b < 10 && c < 10 && d < 10 && e < 10
    requires s == [DigitChar(a), DigitChar(b), DigitChar(c), DigitChar(d), DigitChar(e)]
    ensures Atoi(s) == 10000 * a + 1000 * b + 100 * c + 10 * d + e
  {
    AtoiOfDigits(s);
    assert s[1..] == [DigitChar(b), DigitChar(c), DigitChar(d), DigitChar(e)];
    assert s[1..][1..] == [DigitChar(c), DigitChar(d), DigitChar(e)];
    assert s[1..][1..][1..] == [DigitChar(d), DigitChar(e)];
    LeadingPair(DigitChar(d), DigitChar(e), 100 * a + 10 * b + c);
    assert LeadingDigits(s, 0) == LeadingDigits(s[1..], a) == LeadingDigits(s[1..][1..], 10 * a + b);
  }

  lemma AppendAssociates(a: string, b: string, c: string)
    ensures a + b + c == a + (b + c)
  {
  }

  lemma AtoiInverse(n: int)
    ensures Atoi(IntText(n)) == n
  {
    AtoiOfIntText(n, []);
    assert IntText(n) + [] == IntText(n);
  }

  /** A printed int that has lost characters at its end no longer denotes the same int. */
  lemma PrefixIsDifferent(n: int, k: nat)
    requires 1 <= k < |IntText(n)|
    ensures Atoi(IntText(n)[..k]) != n
  {
    var digits := NatText(if n < 0 then -n else n);
    if n >= 0 {
      NatTextDigits(n);
      PrefixIsLess(n, k);
      AtoiOfDigits(digits[..k]);
    } else {
      assert IntText(n)[..k] == "-" + digits[..k - 1];
      AtoiOfMinus(digits[..k - 1]);
      if k > 1 {
        PrefixIsLess(-n, k - 1);
      }
    }
  }

  // ----- strtok -----

  function SkipSeparators(s: string, sep: char): (r: string)
    ensures |r| <= |s| && (r != [] ==> r[0] != sep)
    decreases |s|
  {
    if s == [] || s[0] != sep then s else SkipSeparators(s[1..], sep)
  }

  function TokenEnd(s: string, sep: char): (n: nat)
    ensures n <= |s|
    decreases |s|
  {
    if s == [] || s[0] == sep then 0 else 1 + TokenEnd(s[1..], sep)
  }

  /** One strtok call on the text that earlier calls left over. */
  function Strtok(s: string, sep: char): (t: Token)
    ensures t.Token? ==> t.text != [] && |t.rest| < |s|
  {
    var r := SkipSeparators(s, sep);
    if r == [] then NoToken
    else
      var n := TokenEnd(r, sep);
      Token(r[..n], if n < |r| then r[n + 1..] else [])
  }

  /** Every token that calling strtok until it returns NULL yields. */
  function Tokens(s: string, sep: char): seq<string>
    decreases |s|
  {
    match Strtok(s, sep)
    case NoToken => []
    case Token(text, rest) => [text] + Tokens(rest, sep)
  }

  lemma TokensStep(s: string, sep: char)
    ensures match Strtok(s, sep)
            case NoToken => Tokens(s, sep) == []
            case Token(text, rest) =>
              Tokens(s, sep) != [] && Tokens(s, sep)[0] == text && Tokens(s, sep)[1..] == Tokens(rest, sep)
  {
  }

  function Join(ts: seq<string>, sep: char): string
  {
    if ts == [] then []
    else if |ts| == 1 then ts[0]
    else ts[0] + [sep] + Join(ts[1..], sep)
  }

  predicate TokenText(t: string, sep: char) { t != [] && sep !in t }

  lemma {:induction false} TokenEndUnique(s: string, sep: char, n: nat)
    requires n <= |s| && (forall i :: 0 <= i < n ==> s[i] != sep) && (n < |s| ==> s[n] == sep)
    ensures TokenEnd(s, sep) == n
    decreases |s|
  {
    if n == 0 {
    } else {
      TokenEndUnique(s[1..], sep, n - 1);
    }
  }

  lemma StrtokHead(t: string, sep: char, rest: string)
    requires TokenText(t, sep)
    ensures Strtok(t + [sep] + rest, sep) == Token(t, rest)
    ensures Strtok(t, sep) == Token(t, [])
  {
    var s := t + [sep] + rest;
    TokenEndUnique(s, sep, |t|);
    TokenEndUnique(t, sep, |t|);
    assert s[..|t|] == t && s[|t| + 1..] == rest;
    assert t[..|t|] == t;
  }

  /** Separators in front, and two or more in a row, delimit no empty token. */
  lemma StrtokSkips(s: string, sep: char)
    ensures Strtok([sep] + s, sep) == Strtok(s, sep)
    ensures Tokens([sep] + s, sep) == Tokens(s, sep)
  {
    assert ([sep] + s)[1..] == s;
  }

  /** Splitting a joined list gives the list back. */
  lemma {:induction false} TokensOfJoin(ts: seq<string>, sep: char)
    requires forall i :: 0 <= i < |ts| ==> TokenText(ts[i], sep)
    ensures Tokens(Join(ts, sep), sep) == ts
    decreases |ts|
  {
    if |ts| == 0 {
    } else if |ts| == 1 {
      StrtokHead(ts[0], sep, []);
      assert Tokens([], sep) == [];
    } else {
      StrtokHead(ts[0], sep, Join(ts[1..], sep));
      TokensOfJoin(ts[1..], sep);
    }
  }

  /** Text of a list of integers, and the integers a list of tokens denotes. */
  function IntTexts(xs: seq<int>): (ts: seq<string>)
    ensures |ts| == |xs| && forall i :: 0 <= i < |xs| ==> ts[i] == IntText(xs[i])
  {
    seq(|xs|, i requires 0 <= i < |xs| => IntText(xs[i]))
  }

  function AtoiAll(ts: seq<string>): (xs: seq<int>)
    ensures |xs| == |ts| && forall i :: 0 <= i < |ts| ==> xs[i] == Atoi(ts[i])
  {
    seq(|ts|, i requires 0 <= i < |ts| => Atoi(ts[i]))
  }

  lemma AtoiAllCons(t: string, ts: seq<string>)
    ensures AtoiAll([t] + ts) == [Atoi(t)] + AtoiAll(ts)
  {
  }

  predicate Separator(sep: char) { !IsDigit(sep) && sep != '-' }

  /** A list of integers printed with %d and a separator is read back by strtok and atoi. */
  lemma IntListRoundTrip(xs: seq<int>, sep: char)
    requires Separator(sep)
    ensures Tokens(Join(IntTexts(xs), sep), sep) == IntTexts(xs)
    ensures AtoiAll(IntTexts(xs)) == xs
  {
    forall i | 0 <= i < |xs| ensures TokenText(IntTexts(xs)[i], sep) {
      IntTextChars(xs[i]);
    }
    TokensOfJoin(IntTexts(xs), sep);
    forall i | 0 <= i < |xs| ensures Atoi(IntTexts(xs)[i]) == xs[i] {
      AtoiInverse(xs[i]);
    }
  }
}
