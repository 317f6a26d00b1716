/** What the log of map outputs means: each line is an event, and the reporter's lists after any
    number of lines are one fold over them. */
module Backlog {
  import opened Text

  /** A map output waiting to be fetched; the size is kept as text, as the code keeps it. */
  datatype Item = Item(id: string, size: string)

  datatype Event =
    | Nothing
    | Add(item: Item)        // type 1: an output is available
    | Complete(item: Item)   // type 0: it has been sent
    | Drop(id: string)       // type 2: it is gone
    | SetReduce(job: int)    // type 3: a reducer runs here
    | JobDone                // type 4

  // ----- one line -----

  /** Characters 22 to 25 of a type 3 line's third token. */
  function JobDigits(token: string): string
  {
    if |token| <= 22 then [] else if |token| <= 26 then token[22..] else token[22..26]
  }

  function TokenAt(ts: seq<string>, i: nat): string { if i < |ts| then ts[i] else "" }

  function EventOf(kind: int, ts: seq<string>): Event
  {
    if kind == 3 then SetReduce(Atoi(JobDigits(TokenAt(ts, 2))))
    else if kind == 4 then JobDone
    else if kind == 1 then Add(Item(TokenAt(ts, 1), TokenAt(ts, 2)))
    else if kind == 0 then Complete(Item(TokenAt(ts, 1), TokenAt(ts, 2)))
    else if kind == 2 then Drop(TokenAt(ts, 1))
    else Nothing
  }

  function ParseLine(line: string): Event
  {
    var ts := Tokens(line, '.');
    if ts == [] then Nothing else EventOf(Atoi(ts[0]), ts)
  }

  /** A line the code can read without following a NULL token: empty, type 4, or at least three
      tokens. */
  predicate Readable(line: string)
  {
    var ts := Tokens(line, '.');
    ts == [] || Atoi(ts[0]) == 4 || |ts| >= 3
  }

  /** The line of type kind with the given further tokens. */
  function LineOf(kind: int, fields: seq<string>): string
  {
    Join([IntText(kind)] + fields, '.')
  }

  lemma TokensOfLine(kind: int, fields: seq<string>)
    requires forall i :: 0 <= i < |fields| ==> TokenText(fields[i], '.')
    ensures Tokens(LineOf(kind, fields), '.') == [IntText(kind)] + fields
    ensures Atoi(Tokens(LineOf(kind, fields), '.')[0]) == kind
  {
    IntTextChars(kind);
    TokensOfJoin([IntText(kind)] + fields, '.');
    AtoiInverse(kind);
  }

  /** Which line is which event: an id and a size behind a 1 announce an output, behind a 0 report
      it sent, behind a 2 gone; a 4 ends the job; whatever tokens follow. */
  lemma LineMeanings(id: string, size: string, rest: seq<string>)
    requires TokenText(id, '.') && TokenText(size, '.') && forall i :: 0 <= i < |rest| ==> TokenText(rest[i], '.')
    ensures ParseLine(LineOf(1, [id, size] + rest)) == Add(Item(id, size))
    ensures ParseLine(LineOf(0, [id, size] + rest)) == Complete(Item(id, size))
    ensures ParseLine(LineOf(2, [id, size] + rest)) == Drop(id)
    ensures ParseLine(LineOf(4, rest)) == JobDone
  {
    hide Tokens, LineOf, Atoi;
    TokensOfLine(1, [id, size] + rest);
    TokensOfLine(0, [id, size] + rest);
    TokensOfLine(2, [id, size] + rest);
    TokensOfLine(4, rest);
  }

  /** A line of type 3 sets the reducer to the number in characters 22 to 25 of its third token. */
  lemma ReduceLine(second: string, front: string, a: nat, b: nat, c: nat, d: nat, back: string, rest: seq<string>)
    requires a < 10 && b < 10 && c < 10 && d < 10 && |front| == 22
    requires TokenText(second, '.') && '.' !in front && '.' !in back
    requires forall i :: 0 <= i < |rest| ==> TokenText(rest[i], '.')
    ensures var third := front + [DigitChar(a), DigitChar(b), DigitChar(c), DigitChar(d)] + back;
            ParseLine(LineOf(3, [second, third] + rest)) == SetReduce(1000 * a + 100 * b + 10 * c + d)
  {
    hide Tokens, LineOf, Atoi;
    var digits := [DigitChar(a), DigitChar(b), DigitChar(c), DigitChar(d)];
    var third := front + digits + back;
    TokensOfLine(3, [second, third] + rest);
    assert JobDigits(third) == digits;
    FourDigits(digits, a, b, c, d);
  }

  // ----- the lists -----

  predicate HasId(items: seq<Item>, id: string)
  {
    exists i :: 0 <= i < |items| && items[i].id == id
  }

  /** Position of the first item with that id. */
  function IndexOf(items: seq<Item>, id: string): (k: nat)
    requires HasId(items, id)
    ensures k < |items| && items[k].id == id && forall i :: 0 <= i < k ==> items[i].id != id
  {
    if items[0].id == id then 0 else
      assert HasId(items[1..], id) by {
        var i :| 0 <= i < |items| && items[i].id == id;
        assert items[1..][i - 1] == items[i];
      }
      1 + IndexOf(items[1..], id)
  }

  function Without(items: seq<Item>, k: nat): seq<Item>
    requires k < |items|
  {
    items[..k] + items[k + 1..]
  }

  function DataSize(items: seq<Item>): int
  {
    if items == [] then 0 else DataSize(items[..|items| - 1]) + Atoi(items[|items| - 1].size)
  }

  // ----- the fold -----

  /** pre_map_list, post_map_list, reduce; how often slot was set to 0; and the sizes reported
      on the spot. */
  datatype State = State(pre: seq<Item>, post: seq<Item>, reduce: int, cancels: nat, sent: seq<int>)

  const NO_LOG := State([], [], 0, 0, [])

  function Cancelled(s: State): State
  {
    s.(cancels := s.cancels + 1, sent := s.sent + [DataSize(s.pre)])
  }

  function Apply(s: State, e: Event): State
  {
    match e
    case Nothing => s
    case Add(item) => if HasId(s.pre, item.id) then s else s.(pre := s.pre + [item])
    case Complete(item) =>
      if !HasId(s.pre, item.id) then s
      else
        var t := s.(pre := Without(s.pre, IndexOf(s.pre, item.id)));
        (if s.reduce == 0 then Cancelled(t) else t).(post := s.post + [item])
    case Drop(id) =>
      if !HasId(s.pre, id) then s
      else
        var t := s.(pre := Without(s.pre, IndexOf(s.pre, id)));
        if t.pre == [] && s.reduce == 0 then Cancelled(t) else t
    case SetReduce(job) => s.(reduce := job)
    case JobDone => s.(reduce := 0)
  }

  function Fold(s: State, lines: seq<string>): State
  {
    if lines == [] then s
    else Apply(Fold(s, lines[..|lines| - 1]), ParseLine(lines[|lines| - 1]))
  }

  lemma FoldAppend(s: State, lines: seq<string>, line: string)
    ensures Fold(s, lines + [line]) == Apply(Fold(s, lines), ParseLine(line))
  {
    assert (lines + [line])[..|lines|] == lines;
  }

  lemma {:induction false} FoldConcat(s: State, a: seq<string>, b: seq<string>)
    ensures Fold(Fold(s, a), b) == Fold(s, a + b)
    decreases |b|
  {
    if b == [] {
      assert a + b == a;
    } else {
      var front, last := b[..|b| - 1], b[|b| - 1];
      assert b == front + [last] && a + b == (a + front) + [last];
      FoldConcat(s, a, front);
      FoldAppend(Fold(s, a), front, last);
      FoldAppend(s, a + front, last);
    }
  }

  // ----- what the lists mean -----

  predicate Distinct(items: seq<Item>)
  {
    forall i, j :: 0 <= i < j < |items| ==> items[i].id != items[j].id
  }

  /** After these lines, the last word on an id was that its output is available. */
  predicate LastAdded(lines: seq<string>, id: string)
  {
    if lines == [] then false
    else
      match ParseLine(lines[|lines| - 1])
      case Add(item) => item.id == id || LastAdded(lines[..|lines| - 1], id)
      case Complete(item) => item.id != id && LastAdded(lines[..|lines| - 1], id)
      case Drop(d) => d != id && LastAdded(lines[..|lines| - 1], id)
      case _ => LastAdded(lines[..|lines| - 1], id)
  }

  /** Counts and sizes of the outputs that entered the list, and of those that were dropped. */
  datatype Ledger = Ledger(added: nat, dropped: nat, addedSize: int, removedSize: int)

  function Entry(s: State, e: Event, b: Ledger): Ledger
  {
    match e
    case Add(item) =>
      if HasId(s.pre, item.id) then b
      else b.(added := b.added + 1, addedSize := b.addedSize + Atoi(item.size))
    case Complete(item) =>
      if !HasId(s.pre, item.id) then b
      else b.(removedSize := b.removedSize + Atoi(s.pre[IndexOf(s.pre, item.id)].size))
    case Drop(id) =>
      if !HasId(s.pre, id) then b
      else b.(dropped := b.dropped + 1, removedSize := b.removedSize + Atoi(s.pre[IndexOf(s.pre, id)].size))
    case _ => b
  }

  function Account(lines: seq<string>): Ledger
  {
    if lines == [] then Ledger(0, 0, 0, 0)
    else
      var front := lines[..|lines| - 1];
      Entry(Fold(NO_LOG, front), ParseLine(lines[|lines| - 1]), Account(front))
  }

  lemma WithoutId(items: seq<Item>, k: nat, id: string)
    requires Distinct(items) && k < |items|
    ensures Distinct(Without(items, k))
    ensures HasId(Without(items, k), id) <==> HasId(items, id) && items[k].id != id
  {
    var rest := Without(items, k);
    if HasId(items, id) && items[k].id != id {
      var i :| 0 <= i < |items| && items[i].id == id;
      assert rest[if i < k then i else i - 1].id == id;
    }
    if HasId(rest, id) {
      var i :| 0 <= i < |rest| && rest[i].id == id;
      assert items[if i < k then i else i + 1].id == id;
    }
  }

  lemma WithId(items: seq<Item>, item: Item, id: string)
    ensures HasId(items + [item], id) <==> HasId(items, id) || item.id == id
  {
    if HasId(items, id) {
      var i :| 0 <= i < |items| && items[i].id == id;
      assert (items + [item])[i].id == id;
    }
    assert (items + [item])[|items|] == item;
  }

  lemma {:induction false} DataSizeConcat(a: seq<Item>, b: seq<Item>)
    ensures DataSize(a + b) == DataSize(a) + DataSize(b)
    decreases |b|
  {
    if b == [] {
      assert a + b == a;
    } else {
      DataSizeConcat(a, b[..|b| - 1]);
      assert (a + b)[..|a + b| - 1] == a + b[..|b| - 1];
    }
  }

  lemma DataSizeAppend(items: seq<Item>, x: Item)
    ensures DataSize(items + [x]) == DataSize(items) + Atoi(x.size)
  {
    assert (items + [x])[..|items|] == items;
  }

  lemma DataSizeWithout(items: seq<Item>, k: nat)
    requires k < |items|
    ensures DataSize(Without(items, k)) == DataSize(items) - Atoi(items[k].size)
  {
    var a, x, b := items[..k], items[k], items[k + 1..];
    SplitAt(items, k);
    DataSizeConcat(a + [x], b);
    DataSizeAppend(a, x);
    DataSizeConcat(a, b);
  }

  lemma SplitAt(items: seq<Item>, k: nat)
    requires k < |items|
    ensures items == items[..k] + [items[k]] + items[k + 1..]
  {
  }

  /** The list and the ledger agree. */
  predicate Balanced(s: State, b: Ledger)
  {
    && Distinct(s.pre)
    && b.added == |s.pre| + |s.post| + b.dropped
    && DataSize(s.pre) == b.addedSize - b.removedSize
  }

  lemma RemovalBalance(s: State, id: string)
    requires Distinct(s.pre) && HasId(s.pre, id)
    ensures var k := IndexOf(s.pre, id); var rest := Without(s.pre, k);
            Distinct(rest) && |rest| == |s.pre| - 1 && DataSize(rest) == DataSize(s.pre) - Atoi(s.pre[k].size)
  {
    WithoutId(s.pre, IndexOf(s.pre, id), id);
    DataSizeWithout(s.pre, IndexOf(s.pre, id));
  }

  lemma AdditionBalance(s: State, item: Item)
    requires Distinct(s.pre) && !HasId(s.pre, item.id)
    ensures Distinct(s.pre + [item]) && DataSize(s.pre + [item]) == DataSize(s.pre) + Atoi(item.size)
  {
    DataSizeAppend(s.pre, item);
  }

  lemma BalancedStep(s: State, b: Ledger, e: Event)
    requires Balanced(s, b)
    ensures Balanced(Apply(s, e), Entry(s, e, b))
  {
    hide DataSize, Distinct, IndexOf, Without;
    match e {
      case Add(item) =>
        if !HasId(s.pre, item.id) { AdditionBalance(s, item); }
      case Complete(item) =>
        if HasId(s.pre, item.id) { RemovalBalance(s, item.id); }
      case Drop(id) =>
        if HasId(s.pre, id) { RemovalBalance(s, id); }
      case _ =>
    }
  }

  lemma PresenceStep(s: State, e: Event, id: string)
    requires Distinct(s.pre)
    ensures HasId(Apply(s, e).pre, id) <==>
              match e
              case Add(item) => item.id == id || HasId(s.pre, id)
              case Complete(item) => item.id != id && HasId(s.pre, id)
              case Drop(d) => d != id && HasId(s.pre, id)
              case _ => HasId(s.pre, id)
  {
    match e {
      case Add(item) => WithId(s.pre, item, id);
      case Complete(item) =>
        if HasId(s.pre, item.id) { WithoutId(s.pre, IndexOf(s.pre, item.id), id); }
      case Drop(d) =>
        if HasId(s.pre, d) { WithoutId(s.pre, IndexOf(s.pre, d), id); }
      case _ =>
    }
  }

  /** After any log: the ids waiting are pairwise different; every accepted output is waiting,
      completed or dropped, exactly one of the three; and the backlog reported is the accepted
      sizes less the removed ones. */
  lemma {:induction false} BacklogBalanced(lines: seq<string>)
    ensures Balanced(Fold(NO_LOG, lines), Account(lines))
  {
    if lines == [] {
    } else {
      var front := lines[..|lines| - 1];
      BacklogBalanced(front);
      BalancedStep(Fold(NO_LOG, front), Account(front), ParseLine(lines[|lines| - 1]));
    }
  }

  /** An output is waiting exactly when the last line about it says it is available. */
  lemma {:induction false} WaitingIffLastAdded(lines: seq<string>, id: string)
    ensures HasId(Fold(NO_LOG, lines).pre, id) <==> LastAdded(lines, id)
  {
    if lines == [] {
    } else {
      var front := lines[..|lines| - 1];
      WaitingIffLastAdded(front, id);
      BacklogBalanced(front);
      PresenceStep(Fold(NO_LOG, front), ParseLine(lines[|lines| - 1]), id);
    }
  }

  /** The reducer job in force after these lines: that of the last type 3 line, unless a type 4
      line came after it. */
  function LastReduce(lines: seq<string>): int
  {
    if lines == [] then 0
    else
      match ParseLine(lines[|lines| - 1])
      case SetReduce(job) => job
      case JobDone => 0
      case _ => LastReduce(lines[..|lines| - 1])
  }

  lemma {:induction false} ReduceIsLast(lines: seq<string>)
    ensures Fold(NO_LOG, lines).reduce == LastReduce(lines)
  {
    if lines == [] {
    } else {
      ReduceIsLast(lines[..|lines| - 1]);
    }
  }

  /** No reducer is in force, and the line completes a waiting output, or drops the only one. */
  ghost predicate CancelDue(lines: seq<string>, line: string)
  {
    LastReduce(lines) == 0 &&
    match ParseLine(line)
    case Complete(item) => LastAdded(lines, item.id)
    case Drop(id) => LastAdded(lines, id) && forall other :: LastAdded(lines, other) ==> other == id
    case _ => false
  }

  /** A list holds one id and no other exactly when removing that id empties it. */
  lemma OnlyOne(items: seq<Item>, id: string)
    requires Distinct(items) && HasId(items, id)
    ensures Without(items, IndexOf(items, id)) == [] <==> forall other :: HasId(items, other) ==> other == id
  {
    var rest := Without(items, IndexOf(items, id));
    if rest == [] {
      forall other | HasId(items, other) ensures other == id {
        WithoutId(items, IndexOf(items, id), other);
      }
    } else {
      assert HasId(rest, rest[0].id);
      WithoutId(items, IndexOf(items, id), rest[0].id);
    }
  }

  /** The slot is cancelled by a line exactly when the log up to there makes it due: there is no
      reducer, and the line completes an output that is waiting or drops the last one that is.
      With it goes the size of what still waits. */
  lemma CancelIff(lines: seq<string>, line: string)
    ensures var s, t := Fold(NO_LOG, lines), Fold(NO_LOG, lines + [line]);
            if CancelDue(lines, line) then t.cancels == s.cancels + 1 && t.sent == s.sent + [DataSize(t.pre)]
            else t.cancels == s.cancels && t.sent == s.sent
  {
    hide Fold, DataSize, Distinct;
    var s := Fold(NO_LOG, lines);
    FoldAppend(NO_LOG, lines, line);
    ReduceIsLast(lines);
    BacklogBalanced(lines);
    assert Distinct(s.pre);
    forall id ensures HasId(s.pre, id) <==> LastAdded(lines, id) {
      WaitingIffLastAdded(lines, id);
    }
    match ParseLine(line) {
      case Drop(id) =>
        if HasId(s.pre, id) { OnlyOne(s.pre, id); }
      case _ =>
    }
  }

  // ----- passes -----

  predicate EndsPass(line: string) { ParseLine(line).JobDone? }

  /** Where a pass over the log stops that has already read the first read lines. */
  function PassEnd(log: seq<string>, read: nat): (n: nat)
    requires read <= |log|
    ensures read <= n <= |log| && (read < |log| ==> read < n)
    decreases |log| - read
  {
    if read == |log| then read
    else if EndsPass(log[read]) then read + 1
    else PassEnd(log, read + 1)
  }

  /** It stops behind the first type 4 line, or at the end when there is none. */
  lemma {:induction false} PassEndMeans(log: seq<string>, read: nat)
    requires read <= |log|
    ensures forall i :: read <= i < PassEnd(log, read) - 1 ==> !ParseLine(log[i]).JobDone?
    ensures PassEnd(log, read) == |log|
         || (PassEnd(log, read) > read && ParseLine(log[PassEnd(log, read) - 1]).JobDone?)
    decreases |log| - read
  {
    hide ParseLine;
    if read == |log| || EndsPass(log[read]) {
    } else {
      PassEndMeans(log, read + 1);
    }
  }

  function PassEnds(log: seq<string>, read: nat, passes: nat): (n: nat)
    requires read <= |log|
    ensures read <= n <= |log|
    decreases passes
  {
    if passes == 0 then read else PassEnds(log, PassEnd(log, read), passes - 1)
  }

  function Stops(log: seq<string>, read: nat): nat
    requires read <= |log|
    decreases |log| - read
  {
    if read == |log| then 0 else Stops(log, read + 1) + (if EndsPass(log[read]) then 1 else 0)
  }

  lemma {:induction false} PassEndStops(log: seq<string>, read: nat)
    requires read <= |log|
    ensures PassEnd(log, read) == |log| || Stops(log, read) == 1 + Stops(log, PassEnd(log, read))
    decreases |log| - read
  {
    if read == |log| || EndsPass(log[read]) {
    } else {
      PassEndStops(log, read + 1);
    }
  }

  /** A log that stops growing is read to its end after one pass more than there are job-done
      lines left in it. */
  lemma {:induction false} PassesCatchUp(log: seq<string>, read: nat)
    requires read <= |log|
    ensures PassEnds(log, read, Stops(log, read) + 1) == |log|
    decreases Stops(log, read)
  {
    PassEndStops(log, read);
    var next := PassEnd(log, read);
    if next == |log| {
      StayAtEnd(log, Stops(log, read));
    } else {
      PassesCatchUp(log, next);
    }
  }

  lemma {:induction false} StayAtEnd(log: seq<string>, passes: nat)
    ensures PassEnds(log, |log|, passes) == |log|
  {
    if passes == 0 {
    } else {
      StayAtEnd(log, passes - 1);
    }
  }
}
