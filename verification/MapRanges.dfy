/** Which map tasks the publisher monitors for the reducer on node r: a range of task numbers
    computed with two integer divisions. */
module MapRanges {
  import opened Text

  datatype Job = Job(fileSize: nat, blockSize: nat, clusterSize: nat, cpus: nat)

  predicate Sized(j: Job) { j.blockSize > 0 && j.clusterSize > 0 }

  /** fileSize/(blockSize*clusterSize) - cpus: how many maps each node is watched for. */
  function Width(j: Job): int
    requires Sized(j)
  {
    ProductPositive(j.blockSize, j.clusterSize);
    j.fileSize / (j.blockSize * j.clusterSize) - j.cpus
  }

  lemma ProductPositive(a: nat, b: nat)
    requires a > 0 && b > 0
    ensures a * b > 0
  {
    assert (a - 1) * b >= 0;
    assert a * b == (a - 1) * b + b;
  }

  function Begin(j: Job, r: int): int
    requires Sized(j)
  {
    j.clusterSize * j.cpus + (j.clusterSize - r) * Width(j)
  }

  function End(j: Job, r: int): int
    requires Sized(j)
  {
    Begin(j, r) + Width(j) - 1
  }

  predicate Watched(j: Job, r: int, number: int)
    requires Sized(j)
  {
    Begin(j, r) <= number <= End(j, r)
  }

  lemma Ordered(x: int, y: int, w: int)
    requires x <= y && w >= 0
    ensures x * w <= y * w
  {
    assert (y - x) * w >= 0;
    assert (y - x) * w == y * w - x * w;
  }

  /** No task is watched for two reducers. */
  lemma RangesDisjoint(j: Job, r: nat, r': nat, n: int)
    requires Sized(j) && Width(j) >= 0 && r < r'
    ensures !(Watched(j, r, n) && Watched(j, r', n))
  {
    var w, c := Width(j), j.clusterSize;
    Ordered(c - r' + 1, c - r, w);
    assert (c - r' + 1) * w == (c - r') * w + w;
  }

  /** The reducer a task number in the covered stretch belongs to. */
  function Owner(j: Job, n: int): int
    requires Sized(j) && Width(j) > 0
  {
    j.clusterSize - (n - j.clusterSize * j.cpus) / Width(j)
  }

  predicate Covered(j: Job, n: int)
    requires Sized(j)
  {
    j.clusterSize * j.cpus <= n < j.clusterSize * (Width(j) + j.cpus)
  }

  lemma OwnerWatches(j: Job, n: int)
    requires Sized(j) && Width(j) >= 0 && Covered(j, n)
    ensures Width(j) > 0 && 1 <= Owner(j, n) <= j.clusterSize && Watched(j, Owner(j, n), n)
  {
    var w, c := Width(j), j.clusterSize;
    assert c * (w + j.cpus) == c * w + c * j.cpus;
    if w > 0 {
      var m := n - c * j.cpus;
      var g := m / w;
      assert m == g * w + m % w;
      if g >= c {
        Ordered(c, g, w);
      }
      assert (c - (c - g)) * w == g * w;
    }
  }

  lemma WatchedCovered(j: Job, r: nat, n: int)
    requires Sized(j) && Width(j) >= 0 && 1 <= r <= j.clusterSize && Watched(j, r, n)
    ensures Covered(j, n)
  {
    var w, c := Width(j), j.clusterSize;
    Ordered(0, c - r, w);
    Ordered(c - r + 1, c, w);
    assert (c - r + 1) * w == (c - r) * w + w;
    assert c * (w + j.cpus) == c * w + c * j.cpus;
  }

  /** The ranges of reducers 1..clusterSize tile: a task number is watched for exactly one of
      them when it lies in [clusterSize*cpus, clusterSize*(w+cpus)), and for none otherwise. */
  lemma RangesTile(j: Job, n: int)
    requires Sized(j) && Width(j) >= 0
    ensures (exists r :: 1 <= r <= j.clusterSize && Watched(j, r, n)) <==> Covered(j, n)
    ensures forall r, r' ::
              1 <= r <= j.clusterSize && 1 <= r' <= j.clusterSize && Watched(j, r, n) && Watched(j, r', n) ==> r == r'
  {
    if Covered(j, n) {
      OwnerWatches(j, n);
    }
    forall r | 1 <= r <= j.clusterSize && Watched(j, r, n) ensures Covered(j, n) {
      WatchedCovered(j, r, n);
    }
    forall r, r' | 1 <= r <= j.clusterSize && 1 <= r' <= j.clusterSize && Watched(j, r, n) && Watched(j, r', n)
      ensures r == r'
    {
      if r < r' { RangesDisjoint(j, r, r', n); }
      if r' < r { RangesDisjoint(j, r', r, n); }
    }
  }

  /** Which reducer gets which: the ranges run down, a greater node watching smaller numbers. */
  lemma RangesRunDown(j: Job, r: nat, r': nat, n: int, n': int)
    requires Sized(j) && Width(j) >= 0 && r < r' && Watched(j, r, n) && Watched(j, r', n')
    ensures n' < n
  {
    var w, c := Width(j), j.clusterSize;
    Ordered(c - r' + 1, c - r, w);
    assert (c - r' + 1) * w == (c - r') * w + w;
  }

  /** Each range in full: the node's distance from the last one in steps of w, w long. */
  lemma RangeIs(j: Job, r: int, n: int)
    requires Sized(j) && j.blockSize * j.clusterSize > 0
    ensures var w := j.fileSize / (j.blockSize * j.clusterSize) - j.cpus;
            var first := j.clusterSize * j.cpus;
            Watched(j, r, n) <==> first + (j.clusterSize - r) * w <= n < first + (j.clusterSize - r + 1) * w
  {
    var w := Width(j);
    assert (j.clusterSize - r + 1) * w == (j.clusterSize - r) * w + w;
  }

  /** The last node's range begins with the first task that no node has a processor for at once. */
  lemma LastNodeFirst(j: Job)
    requires Sized(j) && Width(j) > 0
    ensures Watched(j, j.clusterSize, j.clusterSize * j.cpus)
    ensures forall n :: Watched(j, j.clusterSize, n) ==> n >= j.clusterSize * j.cpus
  {
    assert (j.clusterSize - j.clusterSize) * Width(j) == 0;
  }

  /** Sixty blocks of size 1, five nodes with two processors: node 1 watches tasks 50 to 59. */
  lemma SixtyBlocks(n: int)
    ensures Watched(Job(60, 1, 5, 2), 1, n) <==> 50 <= n <= 59
    ensures Watched(Job(60, 1, 5, 2), 5, n) <==> 10 <= n <= 19
  {
  }

  /** Despite the two floor divisions no range reaches past the last block of the file. */
  lemma RangesWithinFile(j: Job, n: int)
    requires Sized(j) && Covered(j, n)
    ensures 0 <= n < j.fileSize / j.blockSize
  {
    var c, b := j.clusterSize, j.blockSize;
    ProductPositive(b, c);
    var q := j.fileSize / (b * c);
    assert q * (b * c) <= j.fileSize;
    assert (c * q) * b == q * (b * c);
    QuotientAtLeast(j.fileSize, b, c * q);
    Ordered(0, c, j.cpus);
  }

  lemma QuotientAtLeast(x: nat, b: nat, k: int)
    requires b > 0 && k * b <= x
    ensures k <= x / b
  {
    var q := x / b;
    assert x < (q + 1) * b;
    if q + 1 <= k {
      Ordered(q + 1, k, b);
    }
  }

  // ----- the loop over the tasks -----

  datatype Task = Task(isMap: bool, id: string)

  /** The last five digits of a task id. */
  function Number(t: Task): int
    requires |t.id| >= 5
  {
    Atoi(t.id[|t.id| - 5..])
  }

  predicate Selected(j: Job, r: int, t: Task)
    requires Sized(j)
  {
    t.isMap && |t.id| >= 5 && Watched(j, r, Number(t))
  }

  /** The ids collected for one reducer are those of its map tasks, in order. */
  function Selection(j: Job, r: int, tasks: seq<Task>): seq<string>
    requires Sized(j)
  {
    if tasks == [] then []
    else
      var t := tasks[|tasks| - 1];
      Selection(j, r, tasks[..|tasks| - 1]) + (if Selected(j, r, t) then [t.id] else [])
  }

  /** An id ending in five digits has that number. */
  lemma NumberReads(t: Task, prefix: string, a: nat, b: nat, c: nat, d: nat, e: nat)
    requires a < 10 && b < 10 && c < 10 && d < 10 && e < 10
    requires t.id == prefix + [DigitChar(a), DigitChar(b), DigitChar(c), DigitChar(d), DigitChar(e)]
    ensures Number(t) == 10000 * a + 1000 * b + 100 * c + 10 * d + e
  {
    var digits := [DigitChar(a), DigitChar(b), DigitChar(c), DigitChar(d), DigitChar(e)];
    assert t.id[|t.id| - 5..] == digits;
    FiveDigits(digits, a, b, c, d, e);
  }

  /** What is collected: exactly the ids of map tasks with a number in the range ... */
  lemma {:induction false} SelectionMembers(j: Job, r: int, tasks: seq<Task>, id: string)
    requires Sized(j)
    ensures id in Selection(j, r, tasks) <==>
              exists i :: 0 <= i < |tasks| && tasks[i].isMap && tasks[i].id == id
                          && |id| >= 5 && Watched(j, r, Atoi(id[|id| - 5..]))
  {
    if tasks == [] {
    } else {
      var front, last := tasks[..|tasks| - 1], tasks[|tasks| - 1];
      SelectionMembers(j, r, front, id);
      if i :| 0 <= i < |front| && front[i].isMap && front[i].id == id {
        assert tasks[i].isMap && tasks[i].id == id;
      }
    }
  }

  /** ... in the order of the tasks, once for each. */
  lemma {:induction false} SelectionInOrder(j: Job, r: int, a: seq<Task>, b: seq<Task>)
    requires Sized(j)
    ensures Selection(j, r, a + b) == Selection(j, r, a) + Selection(j, r, b)
    decreases |b|
  {
    if b == [] {
      assert a + b == a;
    } else {
      SelectionInOrder(j, r, a, b[..|b| - 1]);
      assert (a + b)[..|a + b| - 1] == a + b[..|b| - 1];
    }
  }

  method Monitored(j: Job, rNodeId: int, tasks: seq<Task>) returns (ids: seq<string>)
    requires Sized(j) && forall i :: 0 <= i < |tasks| && tasks[i].isMap ==> |tasks[i].id| >= 5
    ensures ids == Selection(j, rNodeId, tasks)
  {
    ProductPositive(j.blockSize, j.clusterSize);
    var begin := j.fileSize / (j.blockSize * j.clusterSize) - j.cpus;
    begin := j.clusterSize * j.cpus + (j.clusterSize - rNodeId) * begin;
    var end := begin + (j.fileSize / (j.blockSize * j.clusterSize) - j.cpus) - 1;
    ids := [];
    for i := 0 to |tasks|
      invariant ids == Selection(j, rNodeId, tasks[..i])
    {
      assert tasks[..i + 1][..i] == tasks[..i];
      var task := tasks[i];
      if task.isMap {
        var number := Atoi(task.id[|task.id| - 5..]);
        if number >= begin && number <= end {
          ids := ids + [task.id];
        }
      }
    }
    assert tasks[..|tasks|] == tasks;
  }

  /** Collected for two reducers: every task watched for the one on the greater node has a smaller
      number than every task watched for the other. */
  method MonitoredForTwo(j: Job, r: nat, r': nat, tasks: seq<Task>) returns (ids: seq<string>, ids': seq<string>)
    requires Sized(j) && Width(j) >= 0 && r < r'
    requires forall i :: 0 <= i < |tasks| && tasks[i].isMap ==> |tasks[i].id| >= 5
    ensures forall a, b :: a in ids && b in ids' ==>
              |a| >= 5 && |b| >= 5 && Atoi(b[|b| - 5..]) < Atoi(a[|a| - 5..])
  {
    ids := Monitored(j, r, tasks);
    ids' := Monitored(j, r', tasks);
    forall a, b | a in ids && b in ids'
      ensures |a| >= 5 && |b| >= 5 && Atoi(b[|b| - 5..]) < Atoi(a[|a| - 5..])
    {
      SelectionMembers(j, r, tasks, a);
      SelectionMembers(j, r', tasks, b);
      RangesRunDown(j, r, r', Atoi(a[|a| - 5..]), Atoi(b[|b| - 5..]));
    }
  }
}
