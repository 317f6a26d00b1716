/** Link speeds: every node counts the packets it hears from each other node, broadcasts the
    counts once a second, and keeps the best count each other node has heard from it. The table
    goes through a text file to the reporter. */
module LinkSpeed {
  import opened Text
  import opened Reports

  const LEAST := 100           // a count must exceed this to be believed
  const PROBE_PORT := 5201
  const PROBE_LENGTH := 1000

  /** Node numbers are 1..9; the wired address of node n ends in 100+n, the wireless one in n. */
  predicate IsStation(n: nat) { 1 <= n <= SPEEDS }

  function Wired(n: nat): nat { 100 + n }

  // ----- the table as a function of what was heard -----

  /** A broadcast from the node whose wired address ends in remote, and the count in it that is
      meant for this node. */
  datatype Heard = Heard(remote: int, count: int)

  function Better(best: int, count: int): int
  {
    if count > best && count > LEAST then count else best
  }

  /** What one broadcast makes of entry i. */
  function Raised(me: nat, best: int, h: Heard, i: nat): int
  {
    if h.remote == Wired(i + 1) && i + 1 != me then Better(best, h.count) else best
  }

  function Best(me: nat, heard: seq<Heard>, i: nat): int
  {
    if heard == [] then 0
    else Raised(me, Best(me, heard[..|heard| - 1], i), heard[|heard| - 1], i)
  }

  lemma BestAppend(me: nat, heard: seq<Heard>, h: Heard, i: nat)
    ensures Best(me, heard + [h], i) == Raised(me, Best(me, heard, i), h, i)
  {
    assert (heard + [h])[..|heard|] == heard;
  }

  /** The table entry is the greatest believable count heard from that node, or 0 if there was
      none: an upper bound of them all that is itself one of them. */
  lemma {:induction false} BestIsMaximum(me: nat, heard: seq<Heard>, i: nat)
    ensures Best(me, heard, i) >= 0
    ensures forall k :: 0 <= k < |heard| && heard[k].remote == 101 + i && i + 1 != me && heard[k].count > 100 ==>
              heard[k].count <= Best(me, heard, i)
    ensures Best(me, heard, i) != 0 ==>
              exists k :: 0 <= k < |heard| && heard[k].remote == 101 + i && i + 1 != me && heard[k].count > 100
                          && heard[k].count == Best(me, heard, i)
  {
    if heard == [] {
    } else {
      var front := heard[..|heard| - 1];
      BestIsMaximum(me, front, i);
      if Best(me, heard, i) == Best(me, front, i) != 0 {
        var k :| 0 <= k < |front| && front[k].remote == 101 + i && front[k].count == Best(me, front, i)
                 && front[k].count > 100;
        assert heard[k] == front[k];
      }
    }
  }

  // ----- taking one count out of a broadcast -----

  /** strtok on a comma leaves the text before the first comma that follows a token. */
  function CutAtComma(content: string): string
  {
    var r := SkipSeparators(content, ',');
    content[..|content| - |r| + TokenEnd(r, ',')]
  }

  function CountFor(content: string, lastDigit: nat): int
    requires lastDigit >= 1 && Tokens(content, '.') != []
  {
    var ts := Tokens(content, '.');
    Atoi(ts[if lastDigit <= |ts| then lastDigit - 1 else |ts| - 1])
  }

  /** get_digit_from_content: walk to the lastDigit-th token, or the last there is. */
  method GetDigitFromContent(content: string, lastDigit: nat) returns (n: int)
    requires lastDigit >= 1 && Tokens(content, '.') != []
    ensures n == CountFor(content, lastDigit)
    ensures var ts := Tokens(content, '.');
            n == if lastDigit <= |ts| then Atoi(ts[lastDigit - 1]) else Atoi(ts[|ts| - 1])
  {
    hide Tokens, Strtok, Atoi;
    ghost var ts := Tokens(content, '.');
    ghost var rest := content;
    var token := Strtok(content, '.');
    var digit := "";
    var i := 0;
    while i < lastDigit && token.Token?
      invariant i <= lastDigit && i <= |ts|
      invariant token == Strtok(rest, '.') && Tokens(rest, '.') == ts[i..]
      invariant i > 0 ==> digit == ts[i - 1]
      decreases lastDigit - i
    {
      TokensStep(rest, '.');
      digit := token.text;
      rest := token.rest;
      token := Strtok(token.rest, '.');
      i := i + 1;
    }
    TokensStep(rest, '.');
    n := Atoi(digit);
  }

  lemma {:induction false} NoComma(s: string)
    requires ',' !in s
    ensures SkipSeparators(s, ',') == s && TokenEnd(s, ',') == |s|
    ensures CutAtComma(s) == s
    decreases |s|
  {
    if s == [] {
    } else {
      NoComma(s[1..]);
    }
  }

  /** What follows the first comma is cut off. */
  lemma CommaCuts(front: string, rest: string)
    requires front != [] && ',' !in front
    ensures CutAtComma(front + [','] + rest) == front
  {
    var content := front + [','] + rest;
    assert SkipSeparators(content, ',') == content;
    TokenEndUnique(content, ',', |front|);
    assert content[..|front|] == front;
  }

  lemma {:induction false} JoinHasNo(ts: seq<string>, sep: char, c: char)
    requires c != sep && forall i :: 0 <= i < |ts| ==> c !in ts[i]
    ensures c !in Join(ts, sep)
    decreases |ts|
  {
    if |ts| <= 1 {
    } else {
      JoinHasNo(ts[1..], sep, c);
    }
  }

  /** The count a broadcast of nine counters holds for node me is its counter number me. */
  lemma BroadcastRoundTrip(counters: seq<int>, me: nat)
    requires |counters| == SPEEDS && IsStation(me)
    ensures var text := Join(IntTexts(counters), '.');
            && CutAtComma(text) == text && Tokens(text, '.') != []
            && CountFor(text, me) == counters[me - 1]
  {
    forall i | 0 <= i < SPEEDS ensures ',' !in IntTexts(counters)[i] {
      IntTextChars(counters[i]);
    }
    JoinHasNo(IntTexts(counters), '.', ',');
    NoComma(Join(IntTexts(counters), '.'));
    IntListRoundTrip(counters, '.');
    AtoiInverse(counters[me - 1]);
  }

  // ----- the receiving side -----

  class LinkTable {
    const me: nat
    const fromOthers: array<int>
    var log: string             // speed_log.txt
    ghost var heard: seq<Heard>

    ghost predicate Valid()
      reads this, fromOthers
    {
      && IsStation(me) && fromOthers.Length == SPEEDS
      && (forall i :: 0 <= i < SPEEDS ==> fromOthers[i] == Best(me, heard, i))
      && (Known() ==> log == Join(IntTexts(fromOthers[..]), '.'))
    }

    /** Some speed is known. */
    ghost predicate Known()
      reads fromOthers
    {
      exists i :: 0 <= i < fromOthers.Length && fromOthers[i] != 0
    }

    constructor (me: nat)
      requires IsStation(me)
      ensures Valid() && this.me == me && heard == [] && fresh(fromOthers)
    {
      this.me := me;
      fromOthers := new int[SPEEDS](_ => 0);
      log := "";
      heard := [];
    }

    /** One broadcast: its own is ignored; from another station the count for this one may raise
        that station's entry, and the file is rewritten once any entry is non-zero. */
    method RecvBroadcast(remote: int, content: string)
      requires Valid() && Tokens(CutAtComma(content), '.') != []
      modifies this`log, this`heard, fromOthers
      ensures Valid()
      ensures heard == if remote == Wired(me) then old(heard)
                       else old(heard) + [Heard(remote, CountFor(CutAtComma(content), me))]
      ensures forall i :: 0 <= i < 9 ==>
                var n := CountFor(CutAtComma(content), me);
                fromOthers[i] == if remote != 100 + me && remote == 101 + i && n > 100 && n > old(fromOthers[i])
                                 then n else old(fromOthers[i])
    {
      if remote == Wired(me) {
        return;
      }
      var number1 := GetDigitFromContent(CutAtComma(content), me);
      ghost var h := Heard(remote, number1);
      forall i | 0 <= i < SPEEDS ensures Best(me, heard + [h], i) == Raised(me, Best(me, heard, i), h, i) {
        BestAppend(me, heard, h, i);
      }
      Raise(remote, number1);
      heard := heard + [h];
      WriteLog();
    }

    /** The loop over the nine wired addresses. */
    method Raise(remote: int, number1: int)
      requires fromOthers.Length == SPEEDS
      modifies fromOthers
      ensures forall i :: 0 <= i < SPEEDS ==> fromOthers[i] == Raised(me, old(fromOthers[i]), Heard(remote, number1), i)
    {
      for i := 0 to SPEEDS
        invariant forall k :: 0 <= k < i ==> fromOthers[k] == Raised(me, old(fromOthers[k]), Heard(remote, number1), k)
        invariant forall k :: i <= k < SPEEDS ==> fromOthers[k] == old(fromOthers[k])
      {
        if Wired(i + 1) == remote && Wired(me) != Wired(i + 1) {
          if number1 > fromOthers[i] && number1 > LEAST {
            fromOthers[i] := number1;
          }
        }
      }
    }

    /** The file is written when the entries do not add up to nothing. */
    method WriteLog()
      requires IsStation(me) && fromOthers.Length == SPEEDS
      requires forall i :: 0 <= i < SPEEDS ==> fromOthers[i] == Best(me, heard, i)
      modifies this`log
      ensures Valid()
    {
      var check := 0;
      for i := 0 to SPEEDS
        invariant check >= 0 && (check == 0 <==> forall k :: 0 <= k < i ==> fromOthers[k] == 0)
      {
        BestIsMaximum(me, heard, i);
        check := check + fromOthers[i];
      }
      if check != 0 {
        log := IntArrayToText(fromOthers);
      }
    }
  }

  // ----- the reporter's side -----

  /** get_link_quality: skip the first token, take the next eight. */
  method GetLinkQuality(line: string, speed: array<int>)
    requires speed.Length == SPEEDS
    modifies speed
    ensures speed[0] == old(speed[0])
    ensures forall i :: 1 <= i < SPEEDS ==>
              speed[i] == if i < |Tokens(line, '.')| then Atoi(Tokens(line, '.')[i]) else old(speed[i])
  {
    hide Tokens, Strtok, Atoi;
    ghost var ts := Tokens(line, '.');
    ghost var rest := line;
    var token := Strtok(line, '.');
    TokensStep(line, '.');
    for i := 1 to SPEEDS
      invariant speed[0] == old(speed[0])
      invariant forall k :: 1 <= k < i ==> speed[k] == if k < |ts| then Atoi(ts[k]) else old(speed[k])
      invariant forall k :: i <= k < SPEEDS ==> speed[k] == old(speed[k])
      invariant if token.NoToken? then |ts| < i else i <= |ts| && Tokens(token.rest, '.') == ts[i..]
    {
      if token.Token? {
        TokensStep(token.rest, '.');
        token := Strtok(token.rest, '.');
        if token.Token? {
          speed[i] := Atoi(token.text);
        }
      }
    }
  }

  /** Table to file to reporter: once any speed is known, the reporter reads for nodes 2 to 9
      exactly the greatest believable counts heard, and nothing for node 1. */
  method SpeedsReachReporter(t: LinkTable, speed: array<int>)
    requires t.Valid() && t.Known() && speed.Length == SPEEDS && speed != t.fromOthers && speed[0] == 0
    modifies speed
    ensures speed[0] == 0
    ensures forall i :: 1 <= i < SPEEDS ==> speed[i] == Best(t.me, t.heard, i)
  {
    ghost var table := t.fromOthers[..];
    IntListRoundTrip(table, '.');
    GetLinkQuality(t.log, speed);
    forall i | 1 <= i < SPEEDS ensures speed[i] == table[i] {
      assert AtoiAll(IntTexts(table))[i] == table[i];
    }
  }

  // ----- the sending side -----

  function TotalOf(sent: seq<seq<int>>, i: nat): int
    requires forall k :: 0 <= k < |sent| ==> |sent[k]| == SPEEDS
    requires i < SPEEDS
  {
    if sent == [] then 0 else TotalOf(sent[..|sent| - 1], i) + sent[|sent| - 1][i]
  }

  class Meter {
    const me: nat
    const bData: array<int>
    ghost var counted: seq<nat>        // packets counted since the start, per station
    ghost var sent: seq<seq<int>>      // counters broadcast so far

    /** Nothing counted is lost or broadcast twice. */
    ghost predicate Valid()
      reads this, bData
    {
      && bData.Length == SPEEDS && |counted| == SPEEDS
      && (forall k :: 0 <= k < |sent| ==> |sent[k]| == SPEEDS)
      && (forall i :: 0 <= i < SPEEDS ==> bData[i] >= 0 && counted[i] == bData[i] + TotalOf(sent, i))
    }

    constructor (me: nat)
      ensures Valid() && this.me == me && fresh(bData) && counted == seq(SPEEDS, _ => 0) && sent == []
    {
      this.me := me;
      bData := new int[SPEEDS](_ => 0);
      counted, sent := seq(SPEEDS, _ => 0), [];
    }

    /** A captured TCP packet: long probe packets from another station are counted. */
    method Capture(src: nat, totalLength: nat, destPort: nat)
      requires Valid()
      modifies bData, this`counted
      ensures Valid()
      ensures counted == if src != me && 1 <= src <= 9 && totalLength > 1000 && destPort == 5201
                         then old(counted)[src - 1 := old(counted)[src - 1] + 1] else old(counted)
    {
      ghost var before := counted;
      if src != me {
        for i := 0 to SPEEDS
          invariant Valid()
          invariant counted == if IsStation(src) && src - 1 < i && totalLength > PROBE_LENGTH && destPort == PROBE_PORT
                               then before[src - 1 := before[src - 1] + 1] else before
        {
          if src + 100 == Wired(i + 1) {
            if totalLength > PROBE_LENGTH && destPort == PROBE_PORT {
              bData[i] := bData[i] + 1;
              counted := counted[i := counted[i] + 1];
            }
          }
        }
      }
    }

    /** Once a second: the counters as text, unless all are zero, and back to zero. */
    method Publish() returns (published: bool, text: string)
      requires Valid()
      modifies bData, this`sent
      ensures Valid() && counted == old(counted)
      ensures published <==> exists i :: 0 <= i < SPEEDS && old(bData[i]) != 0
      ensures published ==> sent == old(sent) + [old(bData[..])] && text == Join(IntTexts(old(bData[..])), '.')
      ensures published ==> forall i :: 0 <= i < SPEEDS ==> bData[i] == 0
      ensures !published ==> sent == old(sent) && bData[..] == old(bData[..])
    {
      text := IntArrayToText(bData);
      published := AnyCounted();
      if published {
        SentAppend(sent, bData[..]);
        sent := sent + [bData[..]];
        Reset();
      }
    }

    /** The counters add up to something. */
    method AnyCounted() returns (any: bool)
      requires Valid()
      ensures any <==> exists i :: 0 <= i < SPEEDS && bData[i] != 0
    {
      var sum := 0;
      for i := 0 to SPEEDS
        invariant sum >= 0 && (sum == 0 <==> forall k :: 0 <= k < i ==> bData[k] == 0)
      {
        sum := sum + bData[i];
      }
      any := sum > 0;
    }

    /** memset(b_data, 0, ...), once the counters are among what was sent. */
    method Reset()
      requires bData.Length == SPEEDS && |counted| == SPEEDS
      requires forall k :: 0 <= k < |sent| ==> |sent[k]| == SPEEDS
      requires forall i :: 0 <= i < SPEEDS ==> counted[i] == TotalOf(sent, i)
      modifies bData
      ensures Valid() && forall i :: 0 <= i < SPEEDS ==> bData[i] == 0
    {
      for i := 0 to SPEEDS
        invariant forall k :: 0 <= k < i ==> bData[k] == 0
      {
        bData[i] := 0;
      }
    }
  }

  lemma SentAppend(sent: seq<seq<int>>, counters: seq<int>)
    requires |counters| == SPEEDS && forall k :: 0 <= k < |sent| ==> |sent[k]| == SPEEDS
    ensures forall i :: 0 <= i < SPEEDS ==> TotalOf(sent + [counters], i) == TotalOf(sent, i) + counters[i]
  {
    assert (sent + [counters])[..|sent|] == sent;
  }

  /** Station to station: what table t records of a broadcast is the sender's counter for t. */
  method Broadcast(from: Meter, t: LinkTable) returns (published: bool)
    requires from.Valid() && t.Valid() && IsStation(from.me) && from.me != t.me && from.bData != t.fromOthers
    modifies from.bData, from`sent, t`log, t`heard, t.fromOthers
    ensures from.Valid() && t.Valid()
    ensures t.heard == if published then old(t.heard) + [Heard(Wired(from.me), old(from.bData[t.me - 1]))]
                       else old(t.heard)
    ensures published <==> exists i :: 0 <= i < SPEEDS && old(from.bData[i]) != 0
  {
    ghost var counters := from.bData[..];
    var text;
    published, text := from.Publish();
    if published {
      BroadcastRoundTrip(counters, t.me);
      t.RecvBroadcast(Wired(from.me), text);
    }
  }
}
