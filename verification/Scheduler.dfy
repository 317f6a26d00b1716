/** The master's decisions: whom to serve next, for how long, and what it learns from reports. */
module Scheduler {
  import opened Text
  import opened Reports

  const NODES: nat := 10        // arrays of ten; entries 1..9 are nodes
  const BUSY_SLOT := 2000000
  const IDLE_SLOT := 50000

  type Table = s: seq<int> | |s| == NODES witness seq(NODES, _ => 0)

  /** The check loop: some node has reported data. */
  predicate Busy(p: Table)
  {
    exists i :: 1 <= i < NODES && p[i] != 0
  }

  // ----- the cyclic scan -----

  /** pri++, wrapping past node 9 to node 2. */
  function Advance(pri: nat): nat
  {
    if pri + 1 > 9 then 2 else pri + 1
  }

  /** The k-th candidate of a scan that starts at c. */
  function Candidate(c: nat, k: nat): nat
  {
    if k == 0 then c else Advance(Candidate(c, k - 1))
  }

  /** How far ahead of the last pick a node is: 1 for the next, 8 for the same node again. */
  function Ahead(last: nat, j: nat): int
  {
    if last < j then j - last else j - last + 8
  }

  lemma {:induction false} CandidateRange(c: nat, k: nat)
    requires 1 <= c <= 9
    ensures 1 <= Candidate(c, k) <= 9
    ensures k > 0 ==> Candidate(c, k) >= 2
  {
    if k == 0 {
    } else {
      CandidateRange(c, k - 1);
    }
  }

  /** The candidates 2..9 come round: node j is reached. */
  lemma {:induction false} CandidateReaches(c: nat, j: nat)
    requires 1 <= c <= 9 && 2 <= j <= 9
    ensures Candidate(c, if c <= j then j - c else j - c + 8) == j
  {
    CandidateWalk(c, if c <= j then j - c else j - c + 8);
  }

  lemma {:induction false} CandidateWalk(c: nat, k: nat)
    requires 1 <= c <= 9 && k <= 8
    ensures Candidate(c, k) == if c + k <= 9 then c + k else c + k - 8
  {
    if k == 0 {
    } else {
      CandidateWalk(c, k - 1);
    }
  }

  ghost predicate ScanStops(p: Table, c: nat)
    requires 1 <= c <= 9
  {
    exists k: nat :: StopsAt(p, c, k)
  }

  ghost predicate StopsAt(p: Table, c: nat, k: nat)
    requires 1 <= c <= 9
  {
    1 <= Candidate(c, k) <= 9 && p[Candidate(c, k)] > 0
  }

  /** On a table that does not change, the scan loop ends exactly when a node in 2..9 has data, or
      it starts on node 1 and that has. (When it ends on a changing table is
      ProtocolTheorems.ScanGoesOnIff.) */
  lemma ScanStopsIff(p: Table, c: nat)
    requires 1 <= c <= 9
    ensures ScanStops(p, c) <==> p[c] > 0 || exists j :: 2 <= j <= 9 && p[j] > 0
  {
    if p[c] > 0 {
      assert StopsAt(p, c, 0);
    }
    if j :| 2 <= j <= 9 && p[j] > 0 {
      CandidateReaches(c, j);
      assert StopsAt(p, c, if c <= j then j - c else j - c + 8);
    }
    if ScanStops(p, c) {
      var k: nat :| StopsAt(p, c, k);
      CandidateRange(c, k);
      assert p[Candidate(c, k)] > 0;
    }
  }

  /** to is the cyclically next node after last with data. */
  predicate NextBusy(p: Table, last: nat, to: nat)
  {
    && 2 <= to <= 9 && p[to] > 0
    && forall j :: 2 <= j <= 9 && p[j] > 0 ==> Ahead(last, to) <= Ahead(last, j)
  }

  predicate PickState(last: nat) { last <= 9 }

  // ----- allocation -----

  function Exclusive(tAlloc: Table, pri: nat): (t: Table)
    requires pri < NODES
    ensures forall i :: 1 <= i < NODES ==> t[i] == if i == pri then BUSY_SLOT else 0
  {
    seq(NODES, i requires 0 <= i < NODES => if i == 0 then tAlloc[0] else if i == pri then BUSY_SLOT else 0)
  }

  function Shared(tAlloc: Table): (t: Table)
    ensures forall i :: 1 <= i < NODES ==> t[i] == IDLE_SLOT
  {
    seq(NODES, i requires 0 <= i < NODES => if i == 0 then tAlloc[0] else IDLE_SLOT)
  }

  /** Node i runs a reducer of the job to be favoured. */
  predicate Favoured(reducer: Table, job: int, progress: int, i: nat)
    requires i < NODES
  {
    reducer[i] != 0 && job != 0 && progress < 100 && reducer[i] == job
  }

  /** The last favoured node up to i, or 0 when there is none. */
  function LastFavoured(reducer: Table, job: int, progress: int, i: nat): (r: nat)
    requires i < NODES
    ensures r <= i && (r > 0 ==> Favoured(reducer, job, progress, r))
    ensures forall j :: r < j <= i ==> !Favoured(reducer, job, progress, j)
  {
    if i == 0 then 0
    else if Favoured(reducer, job, progress, i) then i
    else LastFavoured(reducer, job, progress, i - 1)
  }

  // ----- job progress -----

  datatype Entry = NoEntry | Entry(job: int, progress: int)

  /** A line "job:percent" of the jobProgress file; strtol agrees with atoi here. */
  function ParseEntry(line: string): Entry
  {
    match Strtok(line, ':')
    case NoToken => NoEntry
    case Token(job, rest) =>
      match Strtok(rest, ':')
      case NoToken => NoEntry
      case Token(progress, _) => Entry(Atoi(job), Atoi(progress))
  }

  /** The line a job and its percentage are written as is read back as just that, with whatever
      ends the line after it. */
  lemma EntryRoundTrip(job: int, progress: int, rest: string)
    requires ':' !in rest && (rest == [] || !IsDigit(rest[0]))
    ensures ParseEntry(IntText(job) + ":" + IntText(progress) + rest) == Entry(job, progress)
  {
    var first, second := IntText(job), IntText(progress) + rest;
    IntTextChars(job);
    IntTextChars(progress);
    assert first + ":" + IntText(progress) + rest == first + [':'] + second;
    StrtokHead(first, ':', second);
    StrtokHead(second, ':', []);
    AtoiInverse(job);
    AtoiOfIntText(progress, rest);
  }

  function Entries(lines: seq<string>): (es: seq<Entry>)
    ensures |es| == |lines| && forall i :: 0 <= i < |lines| ==> es[i] == ParseEntry(lines[i])
  {
    seq(|lines|, i requires 0 <= i < |lines| => ParseEntry(lines[i]))
  }

  /** Among the first n lines: the first job with the greatest positive progress. */
  ghost predicate LeadingJob(es: seq<Entry>, n: nat, job: int, progress: int)
    requires n <= |es|
  {
    && progress >= 0
    && (forall i :: 0 <= i < n && es[i].Entry? ==> es[i].progress <= progress)
    && (progress == 0 ==> job == 0)
    && (progress > 0 ==> exists i: nat :: i < n && LeadsAt(es, i, job, progress))
  }

  predicate LeadsAt(es: seq<Entry>, i: nat, job: int, progress: int)
  {
    && i < |es| && es[i] == Entry(job, progress)
    && forall j :: 0 <= j < i && es[j].Entry? ==> es[j].progress < progress
  }

  lemma LeadingJobStep(es: seq<Entry>, n: nat, job: int, progress: int)
    requires n < |es| && LeadingJob(es, n, job, progress)
    ensures if es[n].Entry? && es[n].progress > progress then LeadingJob(es, n + 1, es[n].job, es[n].progress)
            else LeadingJob(es, n + 1, job, progress)
  {
    if es[n].Entry? && es[n].progress > progress {
      assert LeadsAt(es, n, es[n].job, es[n].progress);
    }
  }

  class Master {
    const p: array<int>         // backlog each node reported
    const sp: array<int>        // its mean link speed
    const reducer: array<int>   // the job whose reducer it runs
    const tAlloc: array<int>    // slot lengths of the round
    var pri: nat                // last node picked

    ghost predicate Valid()
      reads this
    {
      && p.Length == sp.Length == reducer.Length == tAlloc.Length == NODES
      && p != sp && p != reducer && p != tAlloc && sp != reducer && sp != tAlloc && reducer != tAlloc
    }

    constructor ()
      ensures Valid() && fresh(p) && fresh(sp) && fresh(reducer) && fresh(tAlloc) && pri == 0
      ensures p[..] == sp[..] == reducer[..] == seq(NODES, _ => 0)
    {
      p := new int[NODES](_ => 0);
      sp := new int[NODES](_ => 0);
      reducer := new int[NODES](_ => 0);
      tAlloc := new int[NODES](i => if i < 2 then 0 else IDLE_SLOT);
      pri := 0;
    }

    method HasData() returns (check: bool)
      requires Valid()
      ensures check <==> exists i :: 1 <= i <= 9 && p[i] != 0
    {
      check := false;
      var i := 1;
      while i < NODES && !check
        invariant 1 <= i <= NODES
        invariant !check ==> forall k :: 1 <= k < i ==> p[k] == 0
        invariant check ==> 1 <= i < NODES && p[i] != 0
        decreases NODES - i, !check
      {
        if p[i] != 0 {
          check := true;
        } else {
          i := i + 1;
        }
      }
    }

    /** The pick, with p unchanging during the scan and such that the scan ends. Node 1 is picked
        only by the very first scan, which starts there. */
    method Pick()
      requires Valid() && PickState(pri) && ScanStops(p[..], Advance(pri))
      modifies this`pri
      ensures Valid() && PickState(pri)
      ensures if old(pri) == 0 && p[1] > 0 then pri == 1 else NextBusy(p[..], old(pri), pri)
      ensures p[pri] > 0
      ensures old(pri) < pri ==> forall j :: old(pri) < j < pri ==> p[j] <= 0
      ensures pri <= old(pri) ==> pri >= 2 && (forall j :: old(pri) < j <= 9 ==> p[j] <= 0)
                                  && forall j :: 2 <= j < pri ==> p[j] <= 0
    {
      ghost var last, goal := pri, Goal();
      pri := pri + 1;
      if pri > 9 {
        pri := 2;
      }
      while p[pri] <= 0
        invariant 1 <= pri <= 9 && (pri == 1 ==> last == 0)
        invariant pri > 1 && last == 0 ==> p[1] <= 0
        invariant (last == 0 && p[1] > 0) || (2 <= goal <= 9 && p[goal] > 0)
        invariant forall j :: 2 <= j <= 9 && p[j] > 0 ==> Ahead(last, pri) <= Ahead(last, j)
        decreases Ahead(last, goal) - Ahead(last, pri)
      {
        pri := pri + 1;
        if pri >= 10 {
          pri := 2;
        }
      }
    }

    /** Some node the scan is sure to reach. */
    ghost function Goal(): (goal: nat)
      requires Valid() && PickState(pri) && ScanStops(p[..], Advance(pri))
      reads this, p
      ensures (pri == 0 && p[1] > 0) || (2 <= goal <= 9 && p[goal] > 0)
    {
      ScanStopsIff(p[..], Advance(pri));
      if j: nat :| 2 <= j <= 9 && p[j] > 0 then j else 9
    }

    /** A busy round: the picked node gets the whole slot, every other node nothing. */
    method AllocateBusy(job: int, progress: int) returns (priReducer: nat)
      requires Valid() && 1 <= pri <= 9
      modifies tAlloc
      ensures tAlloc[..] == Exclusive(old(tAlloc[..]), pri)
      ensures forall i :: 1 <= i <= 9 ==> tAlloc[i] == if i == pri then 2000000 else 0
      ensures priReducer == LastFavoured(reducer[..], job, progress, NODES - 1)
      ensures 0 <= priReducer <= 9
      ensures priReducer > 0 ==> job != 0 && progress < 100 && reducer[priReducer] == job
      ensures job != 0 && progress < 100 ==> forall i :: priReducer < i <= 9 ==> reducer[i] != job
    {
      priReducer := 0;
      for i := 1 to NODES
        invariant tAlloc[0] == old(tAlloc[0])
        invariant forall k :: 1 <= k < i ==> tAlloc[k] == if k == pri then BUSY_SLOT else 0
        invariant priReducer == LastFavoured(reducer[..], job, progress, i - 1)
      {
        if reducer[i] != 0 {
          if job != 0 && progress < 100 && reducer[i] == job {
            priReducer := i;
          }
        }
        if i == pri {
          tAlloc[pri] := BUSY_SLOT;
        } else {
          tAlloc[i] := 0;
        }
      }
      forall i | priReducer < i <= 9 && job != 0 && progress < 100 ensures reducer[i] != job {
        assert !Favoured(reducer[..], job, progress, i);
      }
    }

    /** An idle round: every node gets a short slot. */
    method AllocateIdle()
      requires Valid()
      modifies tAlloc
      ensures tAlloc[..] == Shared(old(tAlloc[..]))
      ensures forall i :: 1 <= i <= 9 ==> tAlloc[i] == 50000
    {
      for i := 1 to NODES
        invariant tAlloc[0] == old(tAlloc[0])
        invariant forall k :: 1 <= k < i ==> tAlloc[k] == IDLE_SLOT
      {
        tAlloc[i] := IDLE_SLOT;
      }
    }

    /** The loop over the lines of jobProgress. */
    static method JobPriority(lines: seq<string>) returns (priJob: int, maxProgress: int)
      ensures maxProgress >= 0 && (maxProgress == 0 ==> priJob == 0)
      ensures forall n :: 0 <= n < |lines| && ParseEntry(lines[n]).Entry? ==>
                ParseEntry(lines[n]).progress <= maxProgress
      ensures maxProgress > 0 ==>
                exists n :: 0 <= n < |lines| && ParseEntry(lines[n]) == Entry(priJob, maxProgress) &&
                  forall m :: 0 <= m < n && ParseEntry(lines[m]).Entry? ==> ParseEntry(lines[m]).progress < maxProgress
    {
      priJob, maxProgress := 0, 0;
      var jobTemp := 0;
      for n := 0 to |lines|
        invariant LeadingJob(Entries(lines), n, priJob, maxProgress)
      {
        LeadingJobStep(Entries(lines), n, priJob, maxProgress);
        var token := Strtok(lines[n], ':');
        if token.Token? {
          jobTemp := Atoi(token.text);
          token := Strtok(token.rest, ':');
        }
        if token.Token? {
          if Atoi(token.text) > maxProgress {
            maxProgress := Atoi(token.text);
            priJob := jobTemp;
          }
        }
      }
      ghost var es := Entries(lines);
      if maxProgress > 0 {
        ghost var n: nat :| n < |lines| && LeadsAt(es, n, priJob, maxProgress);
        assert ParseEntry(lines[n]) == Entry(priJob, maxProgress);
        forall m | 0 <= m < n && ParseEntry(lines[m]).Entry? ensures ParseEntry(lines[m]).progress < maxProgress {
          assert es[m] == ParseEntry(lines[m]);
        }
      }
    }

    /** process_report: the tokens of one message into the tables. A message without tokens is
        ignored; one with fewer than three crashes the original, and the node number indexes
        its arrays unchecked. */
    method ProcessReport(content: string)
      requires Valid()
      requires Fields(content) == [] || (|Fields(content)| >= 3 && 0 <= Fields(content)[0] < NODES)
      modifies p, sp, reducer
      ensures Fields(content) == [] ==> p[..] == old(p[..]) && reducer[..] == old(reducer[..]) && sp[..] == old(sp[..])
      ensures Fields(content) != [] ==>
                var f := Fields(content);
                && p[..] == old(p[..])[f[0] := f[1]]
                && reducer[..] == old(reducer[..])[f[0] := f[2]]
                && sp[..] == old(sp[..])[f[0] := Speed(old(sp[..])[f[0]], f[3..])]
    {
      var token := Strtok(content, '.');
      if token.NoToken? {
        return;
      }
      ghost var f := Fields(content);
      ThreeFields(content);
      var nodeId := Atoi(token.text);
      token := Strtok(token.rest, '.');
      p[nodeId] := Atoi(token.text);
      token := Strtok(token.rest, '.');
      reducer[nodeId] := Atoi(token.text);
      var speed, count := SumSpeeds(token.rest);
      if count != 0 {
        sp[nodeId] := Quotient(speed, count);
      }
    }

    /** The rest of the tokens: their sum, and how many are not zero. */
    static method SumSpeeds(tokens: string) returns (speed: int, count: nat)
      ensures speed == Sum(Fields(tokens)) && count == NonZero(Fields(tokens))
    {
      var token := Strtok(tokens, '.');
      ghost var rest, done := tokens, [];
      speed, count := 0, 0;
      while token.Token?
        invariant token == Strtok(rest, '.') && Fields(tokens) == done + Fields(rest)
        invariant speed == Sum(done) && count == NonZero(done)
        decreases |rest|
      {
        FieldsAdvance(Fields(tokens), done, rest);
        var tk := Atoi(token.text);
        speed := speed + tk;
        if tk != 0 {
          count := count + 1;
        }
        SumAppend(done, tk);
        rest, done := token.rest, done + [tk];
        token := Strtok(token.rest, '.');
      }
      FieldsAdvance(Fields(tokens), done, rest);
    }
  }

  lemma FieldsStep(s: string)
    ensures match Strtok(s, '.')
            case NoToken => Fields(s) == []
            case Token(text, rest) => Fields(s) == [Atoi(text)] + Fields(rest)
  {
    var t := Strtok(s, '.');
    if t.Token? {
      AtoiAllCons(t.text, Tokens(t.rest, '.'));
    }
  }

  lemma FieldsAdvance(all: seq<int>, done: seq<int>, s: string)
    requires all == done + Fields(s)
    ensures match Strtok(s, '.')
            case NoToken => all == done
            case Token(text, rest) => all == done + [Atoi(text)] + Fields(rest)
  {
    FieldsStep(s);
  }

  /** Three tokens in a row, and the fields after them. */
  lemma ThreeFields(s: string)
    requires |Fields(s)| >= 3
    ensures var a := Strtok(s, '.');
            a.Token? &&
            var b := Strtok(a.rest, '.');
            b.Token? &&
            var c := Strtok(b.rest, '.');
            c.Token? && Fields(s) == [Atoi(a.text), Atoi(b.text), Atoi(c.text)] + Fields(c.rest)
  {
    FieldsStep(s);
    var a := Strtok(s, '.');
    FieldsStep(a.rest);
    var b := Strtok(a.rest, '.');
    FieldsStep(b.rest);
  }

  /** Reporting end to end: a report printed by a slave for node n leaves exactly its size,
      reducer and mean speed in the master's tables, at n and nowhere else. */
  method ReportReaches(m: Master, node: nat, size: int, reduce: int, speeds: array<int>)
    requires m.Valid() && node < NODES && speeds.Length == SPEEDS
    requires speeds != m.p && speeds != m.sp && speeds != m.reducer
    modifies m.p, m.sp, m.reducer
    ensures m.p[..] == old(m.p[..])[node := size]
    ensures m.reducer[..] == old(m.reducer[..])[node := reduce]
    ensures m.sp[..] == old(m.sp[..])[node := Speed(old(m.sp[..])[node], speeds[..])]
  {
    var content := PrintReport(node, size, reduce, speeds);
    ReportRoundTrip(node, size, reduce, speeds[..]);
    assert ([node, size, reduce] + speeds[..])[3..] == speeds[..];
    m.ProcessReport(content);
  }
}
