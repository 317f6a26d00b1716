/** The text messages between slaves and master: the periodic report and the slot grant. */
module Reports {
  import opened Text

  const SPEEDS: nat := 9

  // ----- sums the parser keeps -----

  function Sum(xs: seq<int>): int
  {
    if xs == [] then 0 else Sum(xs[..|xs| - 1]) + xs[|xs| - 1]
  }

  function NonZero(xs: seq<int>): (n: nat)
    ensures n <= |xs|
  {
    if xs == [] then 0
    else NonZero(xs[..|xs| - 1]) + (if xs[|xs| - 1] != 0 then 1 else 0)
  }

  /** C's division truncates towards zero. */
  function Quotient(a: int, b: nat): int
    requires b > 0
  {
    if a >= 0 then a / b else -((-a) / b)
  }

  /** The speed the master stores for a report: the mean of the non-zero speeds, or what it had
      before when all are zero. */
  function Speed(before: int, xs: seq<int>): int
  {
    if NonZero(xs) == 0 then before else Quotient(Sum(xs), NonZero(xs))
  }

  lemma SumAppend(xs: seq<int>, x: int)
    ensures Sum([]) == 0 && Sum(xs + [x]) == Sum(xs) + x
    ensures NonZero([]) == 0 && NonZero(xs + [x]) == NonZero(xs) + (if x != 0 then 1 else 0)
  {
    assert (xs + [x])[..|xs|] == xs;
  }

  lemma {:induction false} SumBetween(xs: seq<int>, lo: int, hi: int)
    requires forall i :: 0 <= i < |xs| && xs[i] != 0 ==> lo <= xs[i] <= hi
    ensures lo * NonZero(xs) <= Sum(xs) <= hi * NonZero(xs)
  {
    if xs == [] {
    } else {
      var n := NonZero(xs[..|xs| - 1]);
      SumBetween(xs[..|xs| - 1], lo, hi);
      assert lo * (n + 1) == lo * n + lo && hi * (n + 1) == hi * n + hi;
    }
  }

  lemma MulLe(x: int, y: int, b: nat)
    requires x <= y
    ensures x * b <= y * b
  {
    assert (y - x) * b >= 0;
  }

  /** The quotient is the exact one rounded towards zero, for either sign. */
  lemma QuotientTruncates(a: int, b: nat)
    requires b > 0
    ensures a >= 0 ==> Quotient(a, b) * b <= a < (Quotient(a, b) + 1) * b
    ensures a <= 0 ==> (Quotient(a, b) - 1) * b < a <= Quotient(a, b) * b
  {
    Euclid(if a >= 0 then a else -a, b);
  }

  lemma Euclid(n: nat, b: nat)
    requires b > 0
    ensures n / b * b <= n < (n / b + 1) * b
    ensures (-(n / b)) * b == -(n / b * b) && (-(n / b) - 1) * b == -((n / b + 1) * b)
  {
    var q := n / b;
    assert n == q * b + n % b;
    assert (q + 1) * b == q * b + b;
  }

  lemma QuotientBetween(a: nat, b: nat, lo: nat, hi: nat)
    requires b > 0 && lo * b <= a <= hi * b
    ensures lo <= Quotient(a, b) <= hi
    ensures Quotient(a, b) * b <= a < (Quotient(a, b) + 1) * b
  {
    var q := a / b;
    assert q * b <= a < q * b + b;
    if q + 1 <= lo {
      MulLe(q + 1, lo, b);
    } else if hi + 1 <= q {
      MulLe(hi + 1, q, b);
    }
  }

  /** The stored speed is the floor of the mean of the non-zero speeds, so it lies between the
      slowest and the fastest of them; when all are zero it is left alone. */
  lemma SpeedIsFloorMean(before: int, xs: seq<int>, lo: nat, hi: nat)
    requires forall i :: 0 <= i < |xs| ==> xs[i] >= 0
    requires forall i :: 0 <= i < |xs| && xs[i] != 0 ==> lo <= xs[i] <= hi
    ensures NonZero(xs) == 0 <==> forall i :: 0 <= i < |xs| ==> xs[i] == 0
    ensures NonZero(xs) == 0 ==> Speed(before, xs) == before
    ensures NonZero(xs) > 0 ==>
              && lo <= Speed(before, xs) <= hi
              && Speed(before, xs) * NonZero(xs) <= Sum(xs) < (Speed(before, xs) + 1) * NonZero(xs)
  {
    NonZeroPositive(xs);
    if NonZero(xs) > 0 {
      SumBetween(xs, lo, hi);
      SumNonNegative(xs);
      QuotientBetween(Sum(xs), NonZero(xs), lo, hi);
    }
  }

  lemma {:induction false} SumNonNegative(xs: seq<int>)
    requires forall i :: 0 <= i < |xs| ==> xs[i] >= 0
    ensures Sum(xs) >= 0
  {
    if xs == [] {
    } else {
      SumNonNegative(xs[..|xs| - 1]);
    }
  }

  lemma {:induction false} NonZeroPositive(xs: seq<int>)
    ensures NonZero(xs) == 0 <==> forall i :: 0 <= i < |xs| ==> xs[i] == 0
  {
    if xs == [] {
    } else {
      var ys := xs[..|xs| - 1];
      NonZeroPositive(ys);
      assert forall i :: 0 <= i < |ys| ==> ys[i] == xs[i];
    }
  }

  // ----- the report -----

  function ReportText(node: int, size: int, reduce: int, speeds: seq<int>): string
  {
    Join(IntTexts([node, size, reduce] + speeds), '.')
  }

  /** int_arry_toa: the nine speeds, separated by dots. */
  method IntArrayToText(p: array<int>) returns (str: string)
    requires p.Length == SPEEDS
    ensures str == Join(IntTexts(p[..]), '.')
  {
    str := "";
    for k := 0 to SPEEDS
      invariant str == JoinOpen(IntTexts(p[..k]), '.', k < SPEEDS)
    {
      var cNum := IntText(p[k]);
      assert IntTexts(p[..k + 1]) == IntTexts(p[..k]) + [cNum];
      str := str + cNum;
      if k < 8 {
        str := str + ".";
      }
      JoinOpenStep(IntTexts(p[..k]), cNum, '.', k < 8);
    }
    JoinOpenClosed(IntTexts(p[..]), '.');
    assert p[..SPEEDS] == p[..];
  }

  /** A list under construction: every element but possibly the last followed by the separator. */
  function JoinOpen(ts: seq<string>, sep: char, open: bool): string
  {
    if ts == [] then ""
    else JoinOpen(ts[..|ts| - 1], sep, true) + ts[|ts| - 1] + (if open then [sep] else [])
  }

  lemma JoinOpenStep(ts: seq<string>, t: string, sep: char, open: bool)
    ensures JoinOpen(ts + [t], sep, open) == JoinOpen(ts, sep, true) + t + (if open then [sep] else [])
  {
    assert (ts + [t])[..|ts|] == ts;
  }

  lemma {:induction false} JoinOpenFront(t: string, ts: seq<string>, sep: char, open: bool)
    requires ts != []
    ensures JoinOpen([t] + ts, sep, open) == t + [sep] + JoinOpen(ts, sep, open)
    decreases |ts|
  {
    var all := [t] + ts;
    assert all[..|all| - 1] == [t] + ts[..|ts| - 1];
    assert all[|all| - 1] == ts[|ts| - 1];
    if |ts| == 1 {
      assert all[..1] == [t] && [t][..0] == [];
      assert JoinOpen([t], sep, true) == t + [sep];
      assert ts[..0] == [];
    } else {
      JoinOpenFront(t, ts[..|ts| - 1], sep, true);
    }
  }

  lemma {:induction false} JoinOpenClosed(ts: seq<string>, sep: char)
    ensures JoinOpen(ts, sep, false) == Join(ts, sep)
    decreases |ts|
  {
    if |ts| == 1 {
      assert ts[..0] == [];
      assert JoinOpen([], sep, true) == "";
    } else if |ts| > 1 {
      assert ts == [ts[0]] + ts[1..];
      JoinOpenFront(ts[0], ts[1..], sep, false);
      JoinOpenClosed(ts[1..], sep);
    }
  }

  lemma JoinPrefix(t: string, us: seq<string>, sep: char)
    requires us != []
    ensures Join([t] + us, sep) == t + [sep] + Join(us, sep)
  {
    assert ([t] + us)[1..] == us;
  }

  lemma ReportParts(node: int, size: int, reduce: int, speeds: seq<int>)
    requires speeds != []
    ensures ReportText(node, size, reduce, speeds)
         == IntText(node) + "." + (IntText(size) + "." + (IntText(reduce) + "." + Join(IntTexts(speeds), '.')))
  {
    var ts := IntTexts(speeds);
    var us := [IntText(reduce)] + ts;
    var vs := [IntText(size)] + us;
    assert IntTexts([node, size, reduce] + speeds) == [IntText(node)] + vs;
    JoinPrefix(IntText(reduce), ts, '.');
    JoinPrefix(IntText(size), us, '.');
    JoinPrefix(IntText(node), vs, '.');
  }

  /** sprintf(buff,"%d.%d.%d.%s",n,size,reduce,str) with str from int_arry_toa. */
  method PrintReport(node: int, size: int, reduce: int, speeds: array<int>) returns (buff: string)
    requires speeds.Length == SPEEDS
    ensures buff == ReportText(node, size, reduce, speeds[..])
  {
    var str := IntArrayToText(speeds);
    buff := IntText(node) + "." + (IntText(size) + "." + (IntText(reduce) + "." + str));
    ReportParts(node, size, reduce, speeds[..]);
  }

  /** What process_report reads out of a message: the numbers its tokens denote. */
  function Fields(content: string): seq<int>
  {
    AtoiAll(Tokens(content, '.'))
  }

  /** The fields of a printed report are the node, the size, the reducer and the speeds sent. */
  lemma ReportRoundTrip(node: int, size: int, reduce: int, speeds: seq<int>)
    ensures Fields(ReportText(node, size, reduce, speeds)) == [node, size, reduce] + speeds
  {
    IntListRoundTrip([node, size, reduce] + speeds, '.');
  }

  // ----- the grant -----

  /** sprintf(config1,"node%d,%d,%d",k,tAlloc[k],pri_reducer). */
  function GrantText(k: int, slot: int, reducer: int): string
  {
    "node" + IntText(k) + "," + IntText(slot) + "," + IntText(reducer)
  }

  /** What the slave takes from it: the second token is the slot, the third the reducer. */
  function GrantFields(s: string): seq<int>
  {
    AtoiAll(Tokens(s, ','))
  }

  lemma GrantRoundTrip(k: int, slot: int, reducer: int)
    ensures Tokens(GrantText(k, slot, reducer), ',')[..1] == ["node" + IntText(k)]
    ensures |GrantFields(GrantText(k, slot, reducer))| == 3
    ensures GrantFields(GrantText(k, slot, reducer))[1] == slot
    ensures GrantFields(GrantText(k, slot, reducer))[2] == reducer
  {
    var ts := ["node" + IntText(k), IntText(slot), IntText(reducer)];
    assert ts[1..] == [ts[1], ts[2]] && ts[1..][1..] == [ts[2]];
    assert Join(ts[1..], ',') == ts[1] + [','] + ts[2];
    assert Join(ts, ',') == GrantText(k, slot, reducer);
    IntTextChars(k);
    IntTextChars(slot);
    IntTextChars(reducer);
    TokensOfJoin(ts, ',');
    AtoiInverse(slot);
    AtoiInverse(reducer);
  }

  /** The receive buffer of 31 bytes never cuts a grant short. */
  lemma GrantFits(k: nat, slot: nat, reducer: nat)
    requires k < 10 && slot <= 2000000 && reducer < 10
    ensures |GrantText(k, slot, reducer)| <= 15
  {
    assert Power10(1) == 10;
    assert Power10(7) == 10000000 by {
      assert Power10(3) == 1000;
      assert Power10(5) == 100000;
    }
    NatTextLength(k, 1);
    NatTextLength(slot, 7);
    NatTextLength(reducer, 1);
  }
}
