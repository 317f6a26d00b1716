/** The static time-division scheme: node i sends only inside its window of the epoch, less a
    guard of 500 units at the start. Node clocks differ, and each node reduces its own clock
    twice: to microseconds within the second, then modulo the epoch. */
module Tdma {
  import opened Text

  const GUARD := 500
  const SECOND: nat := 1000000
  const WINDOWS: nat := 6       // tAlloc[0..5]

  /** now = tv_usec % epoch on a node whose clock shows t microseconds. */
  function Now(t: nat, epoch: nat): nat
    requires epoch > 0
  {
    (t % SECOND) % epoch
  }

  predicate MaySend(tAlloc: seq<int>, i: nat, now: int)
    requires 1 <= i < |tAlloc|
  {
    now - tAlloc[i] < 0 && now - (tAlloc[i - 1] + GUARD) >= 0
  }

  predicate NonDecreasing(tAlloc: seq<int>)
  {
    forall i, j :: 0 <= i <= j < |tAlloc| ==> tAlloc[i] <= tAlloc[j]
  }

  predicate Allocation(tAlloc: seq<int>)
  {
    |tAlloc| > 0 && tAlloc[0] == 0 && NonDecreasing(tAlloc)
  }

  // ----- arithmetic of two nearby clocks -----

  lemma ModUnique(x: int, m: nat, q: int, r: nat)
    requires m > 0 && x == q * m + r && r < m
    ensures x % m == r
  {
    var q', r' := x / m, x % m;
    assert q' * m + r' == x;
    assert (q' - q) * m == r - r';
    if q' - q >= 1 {
      MulAtLeast(q' - q, m);
    } else if q' - q <= -1 {
      MulAtLeast(q - q', m);
    }
  }

  lemma MulAtLeast(k: int, m: nat)
    requires k >= 1
    ensures k * m >= m
  {
    assert (k - 1) * m >= 0;
    assert k * m == (k - 1) * m + m;
  }

  /** Moving d forward either moves the remainder d forward, or has passed a multiple of m less
      than d ago. */
  lemma {:induction false} ModShift(u: nat, d: nat, m: nat)
    requires m > 0
    ensures (u + d) % m == u % m + d || (u + d) % m < d
    decreases d
  {
    var a := u % m;
    assert u == (u / m) * m + a;
    if a + d < m {
      ModUnique(u + d, m, u / m, a + d);
    } else if d > m {
      assert (u + d) % m < m;
    } else {
      assert ((u / m) + 1) * m == (u / m) * m + m;
      ModUnique(u + d, m, u / m + 1, a + d - m);
    }
  }

  /** Of two readings d apart, either the later is d further into the epoch, or it comes less
      than d after a fresh start: of an epoch, of a second that cut an epoch short, or both. */
  lemma NowShift(t: nat, d: nat, epoch: nat)
    requires epoch > 0
    ensures Now(t + d, epoch) == Now(t, epoch) + d || Now(t + d, epoch) < d
  {
    ModShift(t, d, SECOND);
    var u := t % SECOND;
    if (t + d) % SECOND == u + d {
      ModShift(u, d, epoch);
    } else {
      var v := (t + d) % SECOND;
      assert v < d;
      ModAtMost(v, epoch);
    }
  }

  lemma ModAtMost(v: nat, m: nat)
    requires m > 0
    ensures v % m <= v
  {
    assert v == (v / m) * m + v % m;
    if v / m >= 1 { MulAtLeast(v / m, m); }
  }

  // ----- no collision -----

  /** Nodes i and j, whose clocks show ti and tj at the same moment, both pass the send test. */
  predicate Collide(tAlloc: seq<int>, epoch: nat, i: nat, j: nat, ti: nat, tj: nat)
    requires epoch > 0
  {
    && 1 <= i < |tAlloc| && 1 <= j < |tAlloc| && i != j
    && MaySend(tAlloc, i, Now(ti, epoch)) && MaySend(tAlloc, j, Now(tj, epoch))
  }

  function Skew(ti: nat, tj: nat): nat { if ti <= tj then tj - ti else ti - tj }

  lemma NoCollisionOrdered(tAlloc: seq<int>, epoch: nat, i: nat, j: nat, ti: nat, tj: nat)
    requires Allocation(tAlloc) && epoch > 0 && ti <= tj <= ti + GUARD
    ensures !Collide(tAlloc, epoch, i, j, ti, tj)
  {
    NowShift(ti, tj - ti, epoch);
    if 1 <= i < |tAlloc| && 1 <= j < |tAlloc| {
      assert tAlloc[0] <= tAlloc[j - 1];
      if i < j {
        assert tAlloc[i] <= tAlloc[j - 1];
      } else if j < i {
        assert tAlloc[j] <= tAlloc[i - 1];
      }
    }
  }

  /** Two different nodes whose clocks differ by at most 500 microseconds never both pass the
      test, wherever in the epoch, and across whatever boundaries, the readings fall. */
  lemma NoCollision(tAlloc: seq<int>, epoch: nat, i: nat, j: nat, ti: nat, tj: nat)
    requires Allocation(tAlloc) && epoch > 0 && Skew(ti, tj) <= GUARD
    ensures !Collide(tAlloc, epoch, i, j, ti, tj)
  {
    if ti <= tj {
      NoCollisionOrdered(tAlloc, epoch, i, j, ti, tj);
    } else {
      NoCollisionOrdered(tAlloc, epoch, j, i, tj, ti);
    }
  }

  ghost predicate SafeUnder(tAlloc: seq<int>, epoch: nat, skew: nat)
    requires epoch > 0
  {
    forall i: nat, j: nat, ti: nat, tj: nat :: Skew(ti, tj) <= skew ==> !Collide(tAlloc, epoch, i, j, ti, tj)
  }

  // ----- the exact tolerance -----

  /** The first moment of node i's window in the epoch; and whether it has any. */
  function First(tAlloc: seq<int>, i: nat): int
    requires 1 <= i < |tAlloc|
  {
    tAlloc[i - 1] + GUARD
  }

  predicate Usable(tAlloc: seq<int>, i: nat)
  {
    1 <= i < |tAlloc| && First(tAlloc, i) < tAlloc[i]
  }

  /** The last moment of a second at which node i may send. The second ends in the middle of an
      epoch, which may cut the node's window short or leave it out. */
  function LastInSecond(tAlloc: seq<int>, epoch: nat, i: nat): int
    requires 1 <= i < |tAlloc| && epoch > 0
  {
    var r := SECOND % epoch;
    if First(tAlloc, i) >= r then SECOND - r - epoch + tAlloc[i] - 1
    else SECOND - r + (if tAlloc[i] <= r then tAlloc[i] else r) - 1
  }

  /** The shortest time from a moment of node i to a later one of node j: within an epoch, into
      the next one if the second has room for it, or into the next second. */
  function Gap(tAlloc: seq<int>, epoch: nat, i: nat, j: nat): int
    requires 1 <= i < |tAlloc| && 1 <= j < |tAlloc| && epoch > 0
  {
    var second := SECOND + First(tAlloc, j) - LastInSecond(tAlloc, epoch, i);
    var near := First(tAlloc, j) - (tAlloc[i] - 1) + (if i < j then 0 else epoch);
    if (i < j || epoch + First(tAlloc, j) < SECOND) && near < second then near else second
  }

  predicate FitsEpoch(tAlloc: seq<int>, epoch: nat)
  {
    Allocation(tAlloc) && 0 < epoch <= SECOND && tAlloc[|tAlloc| - 1] <= epoch
  }

  /** Of two numbers, both are in the same block of m, or the later is in a later block. */
  lemma Blocks(x: nat, y: nat, m: nat)
    requires m > 0 && x <= y
    ensures || (x / m == y / m && y - x == y % m - x % m)
            || (x / m < y / m && y - x >= m + y % m - x % m && y >= m + y % m)
  {
    var p, q := x / m, y / m;
    assert x == p * m + x % m && y == q * m + y % m;
    if p < q {
      assert (q - p) * m == q * m - p * m;
      MulAtLeast(q - p, m);
      MulAtLeast(q, m);
    } else if q < p {
      assert (p - q) * m == p * m - q * m;
      MulAtLeast(p - q, m);
    }
  }

  lemma Within(tAlloc: seq<int>, epoch: nat, i: nat)
    requires FitsEpoch(tAlloc, epoch) && 1 <= i < |tAlloc|
    ensures 0 <= tAlloc[i - 1] <= tAlloc[i] <= epoch
  {
    assert tAlloc[0] <= tAlloc[i - 1] && tAlloc[i] <= tAlloc[|tAlloc| - 1];
  }

  /** No moment of node i in a second is later than that. */
  lemma NoLaterMoment(tAlloc: seq<int>, epoch: nat, i: nat, u: nat)
    requires FitsEpoch(tAlloc, epoch) && 1 <= i < |tAlloc| && u < SECOND && MaySend(tAlloc, i, u % epoch)
    ensures u <= LastInSecond(tAlloc, epoch, i)
  {
    Within(tAlloc, epoch, i);
    Blocks(u, SECOND, epoch);
  }

  lemma LastMomentSends(tAlloc: seq<int>, epoch: nat, i: nat)
    requires FitsEpoch(tAlloc, epoch) && Usable(tAlloc, i)
    ensures 0 <= LastInSecond(tAlloc, epoch, i) < SECOND
    ensures MaySend(tAlloc, i, Now(LastInSecond(tAlloc, epoch, i), epoch))
  {
    Within(tAlloc, epoch, i);
    var r, q := SECOND % epoch, SECOND / epoch;
    assert SECOND == q * epoch + r;
    assert q >= 1;
    MulAtLeast(q, epoch);
    var last := LastInSecond(tAlloc, epoch, i);
    if First(tAlloc, i) >= r {
      assert (q - 1) * epoch == q * epoch - epoch;
      ModUnique(last, epoch, q - 1, tAlloc[i] - 1);
    } else {
      ModUnique(last, epoch, q, last - q * epoch);
    }
  }

  lemma FirstMomentSends(tAlloc: seq<int>, epoch: nat, i: nat)
    requires FitsEpoch(tAlloc, epoch) && Usable(tAlloc, i)
    ensures 0 <= First(tAlloc, i) < epoch
    ensures MaySend(tAlloc, i, Now(First(tAlloc, i), epoch)) && MaySend(tAlloc, i, Now(tAlloc[i] - 1, epoch))
    ensures MaySend(tAlloc, i, Now(SECOND + First(tAlloc, i), epoch))
    ensures epoch + First(tAlloc, i) < SECOND ==> MaySend(tAlloc, i, Now(epoch + First(tAlloc, i), epoch))
  {
    Within(tAlloc, epoch, i);
    var first := First(tAlloc, i);
    SmallMod(first, epoch);
    SmallMod(tAlloc[i] - 1, epoch);
    ModUnique(SECOND + first, SECOND, 1, first);
    ModUnique(epoch + first, epoch, 1, first);
    ModUnique(first, epoch, 0, first);
  }

  lemma SmallMod(t: nat, epoch: nat)
    requires t < epoch <= SECOND
    ensures Now(t, epoch) == t
  {
    ModUnique(t, epoch, 0, t);
  }

  /** Two moments of nodes i and j are never closer than the gap ... */
  lemma GapIsLeast(tAlloc: seq<int>, epoch: nat, i: nat, j: nat, ti: nat, tj: nat)
    requires FitsEpoch(tAlloc, epoch) && ti <= tj && Collide(tAlloc, epoch, i, j, ti, tj)
    ensures tj - ti >= Gap(tAlloc, epoch, i, j)
  {
    var u, v := ti % SECOND, tj % SECOND;
    Within(tAlloc, epoch, i);
    Within(tAlloc, epoch, j);
    Blocks(ti, tj, SECOND);
    if ti / SECOND < tj / SECOND {
      NoLaterMoment(tAlloc, epoch, i, u);
      ModAtMost(v, epoch);
    } else {
      Blocks(u, v, epoch);
      if j < i {
        assert tAlloc[j] <= tAlloc[i - 1];
      }
    }
  }

  /** ... and two of them are exactly that far apart. */
  lemma GapIsAttained(tAlloc: seq<int>, epoch: nat, i: nat, j: nat) returns (ti: nat, tj: nat)
    requires FitsEpoch(tAlloc, epoch) && Usable(tAlloc, i) && Usable(tAlloc, j) && i != j
    ensures ti <= tj == ti + Gap(tAlloc, epoch, i, j) && Collide(tAlloc, epoch, i, j, ti, tj)
  {
    FirstMomentSends(tAlloc, epoch, i);
    FirstMomentSends(tAlloc, epoch, j);
    LastMomentSends(tAlloc, epoch, i);
    if i < j {
      assert tAlloc[i] <= tAlloc[j - 1];
    }
    var last, first := LastInSecond(tAlloc, epoch, i), First(tAlloc, j);
    if Gap(tAlloc, epoch, i, j) == SECOND + first - last {
      ti, tj := last, SECOND + first;
    } else if i < j {
      ti, tj := tAlloc[i] - 1, first;
    } else {
      Within(tAlloc, epoch, i);
      ti, tj := tAlloc[i] - 1, epoch + first;
    }
  }

  /** The schedule tolerates a clock skew if and only if it is below the gap of every two nodes
      that have time to send. */
  lemma ToleranceIff(tAlloc: seq<int>, epoch: nat, skew: nat)
    requires FitsEpoch(tAlloc, epoch)
    ensures SafeUnder(tAlloc, epoch, skew) <==>
              forall i, j :: Usable(tAlloc, i) && Usable(tAlloc, j) && i != j ==> skew < Gap(tAlloc, epoch, i, j)
  {
    if i, j :| Usable(tAlloc, i) && Usable(tAlloc, j) && i != j && skew >= Gap(tAlloc, epoch, i, j) {
      var ti, tj := GapIsAttained(tAlloc, epoch, i, j);
      assert Skew(ti, tj) <= skew;
    } else {
      forall i: nat, j: nat, ti: nat, tj: nat | Skew(ti, tj) <= skew
        ensures !Collide(tAlloc, epoch, i, j, ti, tj)
      {
        if Collide(tAlloc, epoch, i, j, ti, tj) {
          if ti <= tj { GapIsLeast(tAlloc, epoch, i, j, ti, tj); } else { GapIsLeast(tAlloc, epoch, j, i, tj, ti); }
        }
      }
    }
  }

  /** No gap is below 501, and it is 501 between neighbours that can both send: then the guard is
      exact, and the schedule tolerates a skew if and only if it is at most 500. */
  lemma GuardIsExact(tAlloc: seq<int>, epoch: nat, i: nat, skew: nat)
    requires FitsEpoch(tAlloc, epoch) && Usable(tAlloc, i) && Usable(tAlloc, i + 1)
    ensures SafeUnder(tAlloc, epoch, skew) <==> skew <= GUARD
  {
    ToleranceIff(tAlloc, epoch, skew);
    if skew <= GUARD {
      forall a: nat, b: nat, ta: nat, tb: nat | Skew(ta, tb) <= skew ensures !Collide(tAlloc, epoch, a, b, ta, tb) {
        NoCollision(tAlloc, epoch, a, b, ta, tb);
      }
    } else {
      assert Gap(tAlloc, epoch, i, i + 1) <= GUARD + 1;
    }
  }

  // ----- receiving an allocation -----

  function Numbers(config: string): seq<int>
  {
    AtoiAll(Tokens(config, ','))
  }

  function Min(a: nat, b: nat): nat { if a <= b then a else b }

  class Station {
    const tAlloc: array<int>
    var epoch: int

    ghost predicate Valid() { tAlloc.Length == WINDOWS }

    constructor ()
      ensures Valid() && fresh(tAlloc) && tAlloc[..] == [0, 2000, 3500, 5000, 6500, 8000] && epoch == 8000
    {
      tAlloc := new int[WINDOWS] [0, 2000, 3500, 5000, 6500, 8000];
      epoch := 8000;
    }

    /** recv_config on one message: up to six numbers overwrite the allocation from the front,
        and the last one written becomes the epoch. A message without a number would make the
        original read tAlloc[-1]. */
    method RecvConfig(config: string)
      requires Valid() && Numbers(config) != []
      modifies tAlloc, this`epoch
      ensures var xs := Numbers(config);
              var n := Min(|xs|, WINDOWS);
              tAlloc[..] == xs[..n] + old(tAlloc[..])[n..] && epoch == xs[n - 1]
    {
      hide Strtok, Numbers, Atoi;
      ghost var xs := Numbers(config);
      ghost var rest := config;
      NumbersStep(config);
      var token := Strtok(config, ',');
      var k := 0;
      while token.Token? && k <= 5
        invariant 0 <= k <= Min(|xs|, WINDOWS)
        invariant token == Strtok(rest, ',') && Numbers(rest) == xs[k..]
        invariant forall i :: 0 <= i < k ==> tAlloc[i] == xs[i]
        invariant forall i :: k <= i < WINDOWS ==> tAlloc[i] == old(tAlloc[i])
        decreases WINDOWS - k
      {
        NumbersStep(rest);
        assert xs[k..][0] == xs[k] && xs[k..][1..] == xs[k + 1..];
        tAlloc[k] := Atoi(token.text);
        k := k + 1;
        rest := token.rest;
        token := Strtok(token.rest, ',');
      }
      NumbersStep(rest);
      epoch := tAlloc[k - 1];
    }

    /** The send test of the main loop. */
    method ReadyToSend(me: nat, tvUsec: nat) returns (send: bool)
      requires Valid() && 1 <= me < WINDOWS && epoch > 0
      ensures send == MaySend(tAlloc[..], me, tvUsec % epoch)
    {
      var now := tvUsec % epoch;
      send := now - tAlloc[me] < 0 && now - (tAlloc[me - 1] + 500) >= 0;
    }
  }

  /** Two stations with the same allocation and epoch, asked at one moment when their clocks show
      ti and tj, at most 500 microseconds apart, do not both send. */
  method AskBoth(a: Station, b: Station, i: nat, j: nat, ti: nat, tj: nat) returns (sendA: bool, sendB: bool)
    requires a.Valid() && b.Valid() && a.tAlloc[..] == b.tAlloc[..] && a.epoch == b.epoch > 0
    requires Allocation(a.tAlloc[..]) && Skew(ti, tj) <= GUARD
    requires 1 <= i < WINDOWS && 1 <= j < WINDOWS && i != j
    ensures !(sendA && sendB)
    ensures sendA <==> a.tAlloc[i - 1] + 500 <= ti % 1000000 % a.epoch < a.tAlloc[i]
    ensures sendB <==> b.tAlloc[j - 1] + 500 <= tj % 1000000 % b.epoch < b.tAlloc[j]
  {
    sendA := a.ReadyToSend(i, ti % SECOND);
    sendB := b.ReadyToSend(j, tj % SECOND);
    NoCollision(a.tAlloc[..], a.epoch, i, j, ti, tj);
  }

  lemma NumbersStep(s: string)
    ensures match Strtok(s, ',')
            case NoToken => Numbers(s) == []
            case Token(text, rest) =>
              Numbers(s) != [] && Numbers(s)[0] == Atoi(text) && Numbers(s)[1..] == Numbers(rest)
  {
    var t := Strtok(s, ',');
    if t.Token? {
      AtoiAllCons(t.text, Tokens(t.rest, ','));
    }
  }
}
