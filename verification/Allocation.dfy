/** The publisher of allocations: it takes a fixed shift off the reducer's window, prints the
    array and sends it; every station reads it back. */
module Allocation {
  import opened Text
  import opened Tdma

  const CLUSTER: nat := 5               // clusterSize
  const SHIFT := 800                    // 200*(clusterSize-1)
  const RECEIVED: nat := 31             // bytes a station receives of one message

  /** arrToSend for a reducer on node r. */
  function Reshaped(base: seq<int>, r: int): (a: seq<int>)
    requires |base| == WINDOWS
    ensures |a| == WINDOWS
  {
    seq(WINDOWS, k requires 0 <= k < WINDOWS =>
      if k == 0 then 0 else if k >= r then base[k] - SHIFT else base[k])
  }

  method Reshape(tAlloc: array<int>, rNodeId: int) returns (arrToSend: array<int>)
    requires tAlloc.Length == WINDOWS
    ensures fresh(arrToSend) && arrToSend[..] == Reshaped(tAlloc[..], rNodeId)
  {
    arrToSend := new int[WINDOWS](_ => 0);
    for k := 1 to CLUSTER + 1
      invariant arrToSend[0] == 0
      invariant forall i :: 1 <= i < k ==> arrToSend[i] == if i >= rNodeId then tAlloc[i] - SHIFT else tAlloc[i]
    {
      if k >= rNodeId {
        arrToSend[k] := tAlloc[k] - 200 * (CLUSTER - 1);
      } else {
        arrToSend[k] := tAlloc[k];
      }
    }
  }

  function Window(a: seq<int>, k: nat): int
    requires 1 <= k < |a|
  {
    a[k] - a[k - 1]
  }

  /** Every other node keeps the length of its window and the reducer loses exactly the shift. */
  lemma OnlyReducerShrinks(base: seq<int>, r: nat, k: nat)
    requires |base| == WINDOWS && base[0] == 0 && 1 <= r <= CLUSTER && 1 <= k <= CLUSTER
    ensures Window(Reshaped(base, r), k) == Window(base, k) - (if k == r then SHIFT else 0)
  {
  }

  /** The published array is an allocation in which the reducer can still send if and only if its
      window exceeded the shift and the guard together. */
  lemma ReshapeUsableIff(base: seq<int>, r: nat)
    requires |base| == WINDOWS && Allocation(base) && 1 <= r <= CLUSTER
    ensures Allocation(Reshaped(base, r)) && (exists now: int :: MaySend(Reshaped(base, r), r, now))
       <==> Window(base, r) > SHIFT + GUARD
    ensures Window(base, r) > SHIFT + GUARD ==> Reshaped(base, r)[CLUSTER] > 0
  {
    var a := Reshaped(base, r);
    OnlyReducerShrinks(base, r, r);
    if Window(base, r) > SHIFT + GUARD {
      assert MaySend(a, r, a[r - 1] + GUARD);
      forall i, j | 0 <= i <= j < |a| ensures a[i] <= a[j] {
        if i < r <= j {
          assert base[i] <= base[r - 1] && base[r] <= base[j];
        }
      }
      assert base[0] <= base[r - 1] && base[r] <= base[CLUSTER];
    }
  }

  // ----- on the wire -----

  /** Arrays.toString without brackets and blanks. */
  function Printed(a: seq<int>): string { Join(IntTexts(a), ',') }

  function Received(text: string): string { text[..Min(|text|, RECEIVED)] }

  lemma PrintedNumbers(a: seq<int>)
    ensures Numbers(Printed(a)) == a
  {
    IntListRoundTrip(a, ',');
  }

  /** The numbers in the first n characters of a printed array. */
  function Cut(a: seq<int>, n: nat): (xs: seq<int>)
    ensures |xs| <= |a|
  {
    if a == [] || n == 0 then []
    else
      var t := IntText(a[0]);
      if n <= |t| then [Atoi(t[..n])] else [a[0]] + Cut(a[1..], n - |t| - 1)
  }

  lemma PrintedStep(a: seq<int>)
    ensures Printed(a) == if a == [] then []
                          else if |a| == 1 then IntText(a[0])
                          else IntText(a[0]) + [','] + Printed(a[1..])
  {
    if a != [] {
      assert IntTexts(a)[1..] == IntTexts(a[1..]);
    }
  }

  /** Numbers of a text that is one token, or one token, a comma and more text. */
  lemma NumbersOfToken(t: string)
    requires TokenText(t, ',')
    ensures Numbers(t) == [Atoi(t)]
  {
    hide Strtok, Numbers;
    StrtokHead(t, ',', []);
    NumbersStep(t);
    NumbersOfNone();
  }

  lemma NumbersOfNone()
    ensures Numbers([]) == []
  {
  }

  lemma NumbersOfHead(t: string, rest: string)
    requires TokenText(t, ',')
    ensures Numbers(t + [','] + rest) == [Atoi(t)] + Numbers(rest)
  {
    hide Strtok, Numbers;
    StrtokHead(t, ',', rest);
    NumbersStep(t + [','] + rest);
  }

  /** A prefix of a joined text ends inside its first token, or behind the comma. */
  lemma PrefixOfJoined(t: string, rest: string, n: nat)
    requires n <= |t| + 1 + |rest|
    ensures n <= |t| ==> (t + [','] + rest)[..n] == t[..n]
    ensures n > |t| ==> (t + [','] + rest)[..n] == t + [','] + rest[..n - |t| - 1]
  {
  }

  lemma {:induction false} CutNumbers(a: seq<int>, n: nat)
    requires n <= |Printed(a)|
    ensures Numbers(Printed(a)[..n]) == Cut(a, n)
    decreases |a|
  {
    hide Numbers, IntText, Printed, Atoi;
    PrintedStep(a);
    if a == [] || n == 0 {
      NumbersOfNone();
    } else {
      var t := IntText(a[0]);
      IntTextChars(a[0]);
      AtoiInverse(a[0]);
      if |a| > 1 {
        PrefixOfJoined(t, Printed(a[1..]), n);
      }
      if n <= |t| {
        NumbersOfToken(t[..n]);
      } else {
        NumbersOfHead(t, Printed(a[1..])[..n - |t| - 1]);
        CutNumbers(a[1..], n - |t| - 1);
      }
    }
  }

  lemma {:induction false} CutWholeIff(a: seq<int>, n: nat)
    requires n <= |Printed(a)|
    ensures Cut(a, n) == a <==> n == |Printed(a)|
    decreases |a|
  {
    if a == [] {
    } else if n > 0 {
      var t := IntText(a[0]);
      PrintedStep(a);
      if n < |t| {
        PrefixIsDifferent(a[0], n);
      } else if n == |t| {
        AtoiInverse(a[0]);
        assert t[..n] == t;
      } else {
        CutWholeIff(a[1..], n - |t| - 1);
        assert a == [a[0]] + a[1..];
      }
    }
  }

  /** A station that receives 31 bytes reads the published numbers if and only if their text has
      at most 31 characters. */
  lemma RecoveredIff(a: seq<int>)
    ensures Numbers(Received(Printed(a))) == a <==> |Printed(a)| <= RECEIVED
  {
    var n := Min(|Printed(a)|, RECEIVED);
    CutNumbers(a, n);
    CutWholeIff(a, n);
  }

  lemma {:induction false} JoinLast(ts: seq<string>, t: string, c: char, sep: char)
    ensures Join(ts + [t + [c]], sep) == Join(ts + [t], sep) + [c]
    decreases |ts|
  {
    if ts == [] {
    } else {
      JoinLast(ts[1..], t, c, sep);
      assert (ts + [t])[1..] == ts[1..] + [t] && (ts + [t + [c]])[1..] == ts[1..] + [t + [c]];
    }
  }

  /** The first family beyond that bound: a text one character too long loses the last digit of
      its last number, and the stations divide time into an epoch ten times too short. */
  lemma OneTooMany(a: seq<int>, last: nat)
    requires |Printed(a + [last])| == RECEIVED + 1 && last >= 10
    ensures Numbers(Received(Printed(a + [last]))) == a + [last / 10] != a + [last]
  {
    var d := DigitChar(last % 10);
    assert IntTexts(a + [last]) == IntTexts(a) + [NatText(last / 10) + [d]];
    assert IntTexts(a + [last / 10]) == IntTexts(a) + [NatText(last / 10)];
    JoinLast(IntTexts(a), NatText(last / 10), d, ',');
    assert Received(Printed(a + [last])) == Printed(a + [last / 10]);
    PrintedNumbers(a + [last / 10]);
    RecoveredIff(a + [last]);
    assert (a + [last])[|a|] == last;
  }

  // ----- which bases reach the stations whole -----

  /** The base the publisher has built in. */
  const BASE: seq<int> := [0, 2000, 3500, 5000, 6500, 8000]

  /** A base with a long epoch, for which it does not. */
  const LONG_BASE: seq<int> := [0, 20000, 40000, 60000, 80000, 180800]

  /** Characters of a printed array: the numbers, and a comma between any two. */
  lemma {:induction false} PrintedLength(a: seq<int>)
    ensures |Printed(a)| == Lengths(a) + (if a == [] then 0 else |a| - 1)
  {
    PrintedStep(a);
    if a == [] {
    } else {
      PrintedLength(a[1..]);
    }
  }

  function Lengths(a: seq<int>): nat
  {
    if a == [] then 0 else |IntText(a[0])| + Lengths(a[1..])
  }

  lemma SixLengths(a: int, b: int, c: int, d: int, e: int, f: int)
    ensures |Printed([a, b, c, d, e, f])|
         == |IntText(a)| + |IntText(b)| + |IntText(c)| + |IntText(d)| + |IntText(e)| + |IntText(f)| + 5
  {
    hide Printed, IntText;
    PrintedLength([a, b, c, d, e, f]);
    LengthsOf(f, []);
    LengthsOf(e, [f]);
    LengthsOf(d, [e, f]);
    LengthsOf(c, [d, e, f]);
    LengthsOf(b, [c, d, e, f]);
    LengthsOf(a, [b, c, d, e, f]);
  }

  lemma LengthsOf(x: int, a: seq<int>)
    ensures Lengths([x] + a) == |IntText(x)| + Lengths(a)
  {
    assert ([x] + a)[1..] == a;
  }

  lemma IntTextLength(n: nat, d: nat, low: nat, high: nat)
    requires d >= 1 && high == Power10(d) && low == (if d == 1 then 0 else Power10(d - 1)) && low <= n < high
    ensures |IntText(n)| == d
  {
    NatTextLength(n, d);
  }

  /** With the built-in base the text fits, the result is an allocation, and the reducer keeps
      room to send, whichever node it runs on. */
  lemma BuiltInBaseFits(r: nat)
    requires 1 <= r <= CLUSTER
    ensures Allocation(BASE) && Window(BASE, r) > SHIFT + GUARD
    ensures |Printed(Reshaped(BASE, r))| <= 26
    ensures Numbers(Received(Printed(Reshaped(BASE, r)))) == Reshaped(BASE, r)
  {
    hide Printed, IntText, Numbers, Received;
    var a := Reshaped(BASE, r);
    IntTextLength(0, 1, 0, 10);
    forall k | 1 <= k <= CLUSTER ensures |IntText(a[k])| == 4 {
      assert Power10(2) == 100;
      IntTextLength(a[k], 4, 1000, 10000);
    }
    assert a == [0, a[1], a[2], a[3], a[4], a[5]];
    SixLengths(0, a[1], a[2], a[3], a[4], a[5]);
    RecoveredIff(a);
  }

  const CUT_SHORT: seq<int> := [0, 20000, 40000, 60000, 80000, 18000]

  /** With the other base, and the reducer on node 5, the stations receive a tenth of the epoch;
      then only node 1 ever passes the send test. */
  lemma LongBaseIsCut()
    ensures Allocation(LONG_BASE) && Window(LONG_BASE, CLUSTER) > SHIFT + GUARD
    ensures Reshaped(LONG_BASE, CLUSTER) == [0, 20000, 40000, 60000, 80000, 180000]
    ensures Numbers(Received(Printed(Reshaped(LONG_BASE, CLUSTER)))) == CUT_SHORT
    ensures forall i, t: nat :: 2 <= i <= CLUSTER ==> !MaySend(CUT_SHORT, i, Now(t, 18000))
  {
    hide Printed, IntText, Numbers, Received;
    assert Power10(2) == 100 && Power10(4) == 10000;
    IntTextLength(0, 1, 0, 10);
    IntTextLength(20000, 5, 10000, 100000);
    IntTextLength(40000, 5, 10000, 100000);
    IntTextLength(60000, 5, 10000, 100000);
    IntTextLength(80000, 5, 10000, 100000);
    IntTextLength(180000, 6, 100000, 1000000);
    SixLengths(0, 20000, 40000, 60000, 80000, 180000);
    assert [0, 20000, 40000, 60000, 80000] + [180000] == [0, 20000, 40000, 60000, 80000, 180000];
    OneTooMany([0, 20000, 40000, 60000, 80000], 180000);
  }

  /** From publisher to air: a station holds the numbers that survive the cut, in front of what
      it had, and the last of them as epoch; that is exactly the published allocation, with its
      last entry as epoch, whenever the text fits. */
  method Deliver(base: array<int>, r: int, station: Station)
    requires base.Length == WINDOWS && station.Valid() && station.tAlloc != base
    modifies station.tAlloc, station`epoch
    ensures var a := Reshaped(base[..], r);
            var xs := Numbers(Received(Printed(a)));
            && 1 <= |xs| <= WINDOWS && (xs == a <==> |Printed(a)| <= RECEIVED)
            && station.tAlloc[..] == xs + old(station.tAlloc[..])[|xs|..] && station.epoch == xs[|xs| - 1]
            && (|Printed(a)| <= RECEIVED ==> station.tAlloc[..] == a && station.epoch == a[CLUSTER])
  {
    hide Printed, Numbers, Received, Reshaped;
    var arrToSend := Reshape(base, r);
    var text := Printed(arrToSend[..]);
    RecoveredIff(arrToSend[..]);
    SomeNumbers(arrToSend[..]);
    station.RecvConfig(Received(text));
  }

  lemma SomeNumbers(a: seq<int>)
    requires a != []
    ensures 1 <= |Numbers(Received(Printed(a)))| <= |a|
  {
    PrintedStep(a);
    CutNumbers(a, Min(|Printed(a)|, RECEIVED));
  }

  /** Two stations that have received the same published allocation, their clocks at most 500
      microseconds apart, never both send. */
  lemma DeliveredIsSafe(base: seq<int>, r: nat, i: nat, j: nat, ti: nat, tj: nat)
    requires |base| == WINDOWS && Allocation(base) && 1 <= r <= CLUSTER && Window(base, r) > SHIFT + GUARD
    requires Skew(ti, tj) <= GUARD
    ensures Reshaped(base, r)[CLUSTER] > 0
    ensures !Collide(Reshaped(base, r), Reshaped(base, r)[CLUSTER], i, j, ti, tj)
  {
    ReshapeUsableIff(base, r);
    NoCollision(Reshaped(base, r), Reshaped(base, r)[CLUSTER], i, j, ti, tj);
  }

  /** The whole path: an allocation is published to two stations, node i and node j, and both are
      asked at one moment, when their clocks show ti and tj. They never both send. */
  method PublishAndAsk(base: array<int>, r: nat, a: Station, b: Station, i: nat, j: nat, ti: nat, tj: nat)
    returns (sendA: bool, sendB: bool)
    requires base.Length == WINDOWS && a.Valid() && b.Valid() && a.tAlloc != b.tAlloc && base !in {a.tAlloc, b.tAlloc}
    requires Allocation(base[..]) && 1 <= r <= CLUSTER && Window(base[..], r) > SHIFT + GUARD
    requires |Printed(Reshaped(base[..], r))| <= RECEIVED
    requires 1 <= i < WINDOWS && 1 <= j < WINDOWS && i != j && Skew(ti, tj) <= GUARD
    modifies a.tAlloc, a`epoch, b.tAlloc, b`epoch
    ensures !(sendA && sendB)
  {
    ReshapeUsableIff(base[..], r);
    Deliver(base, r, a);
    Deliver(base, r, b);
    sendA, sendB := AskBoth(a, b, i, j, ti, tj);
  }
}
