/** The reporter thread of a slave: it replays an append-only log into two lists, a line at a
    time, remembering how many lines it has read. */
module Monitor {
  import opened Text
  import opened Reports
  import opened Backlog

  /** A zlist with its cursor; a cursor of |items| stands for NULL. */
  class MapList {
    var items: seq<Item>
    var cursor: nat

    constructor ()
      ensures items == [] && cursor == 0
    {
      items, cursor := [], 0;
    }

    method First()
      modifies this`cursor
      ensures cursor == 0
    {
      cursor := 0;
    }

    method Next()
      requires cursor < |items|
      modifies this`cursor
      ensures cursor == old(cursor) + 1
    {
      cursor := cursor + 1;
    }

    method Append(item: Item)
      modifies this
      ensures items == old(items) + [item] && cursor == |items|
    {
      items := items + [item];
      cursor := |items|;
    }

    /** zlist_remove of the item at the cursor. */
    method RemoveCurrent()
      requires cursor < |items|
      modifies this
      ensures items == Without(old(items), old(cursor)) && cursor == 0
    {
      items := Without(items, cursor);
      cursor := 0;
    }

    /** map_list_cmp: is there an item with this id? If so the cursor stops on the first. */
    method Compare(id: string) returns (found: bool)
      modifies this`cursor
      ensures found == HasId(items, id)
      ensures found ==> cursor == IndexOf(items, id)
    {
      First();
      while cursor < |items|
        invariant cursor <= |items|
        invariant forall i :: 0 <= i < cursor ==> items[i].id != id
        decreases |items| - cursor
      {
        if items[cursor].id == id {
          FirstIndex(items, id, cursor);
          return true;
        }
        Next();
      }
      found := false;
    }

    /** get_data_size. */
    method GetDataSize() returns (size: int)
      modifies this`cursor
      ensures size == DataSize(items)
    {
      size := 0;
      First();
      while cursor < |items|
        invariant cursor <= |items| && size == DataSize(items[..cursor])
        decreases |items| - cursor
      {
        assert items[..cursor + 1][..cursor] == items[..cursor];
        size := size + Atoi(items[cursor].size);
        Next();
      }
      assert items[..cursor] == items;
    }
  }

  lemma FirstIndex(items: seq<Item>, id: string, k: nat)
    requires k < |items| && items[k].id == id && forall i :: 0 <= i < k ==> items[i].id != id
    ensures HasId(items, id) && IndexOf(items, id) == k
  {
  }

  lemma SamePrefix(a: seq<string>, b: seq<string>, n: nat)
    requires a <= b && n <= |a|
    ensures a[..n] == b[..n]
  {
  }

  lemma FoldExtends(log: seq<string>, a: nat, b: nat)
    requires a <= b <= |log|
    ensures Fold(Fold(NO_LOG, log[..a]), log[a..b]) == Fold(NO_LOG, log[..b])
  {
    assert log[..a] + log[a..b] == log[..b];
    FoldConcat(NO_LOG, log[..a], log[a..b]);
  }

  lemma FoldNone(start: State, log: seq<string>, begun: nat)
    requires begun <= |log|
    ensures Fold(start, log[begun..begun]) == start
  {
  }

  lemma PassEndNone(log: seq<string>)
    ensures PassEnd(log, |log|) == |log|
  {
  }

  lemma PassStep(start: State, log: seq<string>, begun: nat, i: nat)
    requires begun <= i < |log|
    ensures Fold(start, log[begun..i + 1]) == Apply(Fold(start, log[begun..i]), ParseLine(log[i]))
    ensures PassEnd(log, i) == if EndsPass(log[i]) then i + 1 else PassEnd(log, i + 1)
  {
    assert log[begun..i + 1] == log[begun..i] + [log[i]];
    FoldAppend(start, log[begun..i], log[i]);
  }

  class Reporter {
    const pre: MapList
    const post: MapList
    var reduce: int
    var slot: int
    var read: nat
    ghost var cancels: nat
    ghost var sent: seq<int>

    ghost predicate Valid()
    {
      pre != post
    }

    ghost function View(): State
      reads this, pre, post
    {
      State(pre.items, post.items, reduce, cancels, sent)
    }

    constructor ()
      ensures Valid() && fresh(pre) && fresh(post) && View() == NO_LOG && read == 0
    {
      pre := new MapList();
      post := new MapList();
      reduce, slot, read := 0, 0, 0;
      cancels, sent := 0, [];
    }

    /** slot = 0, and a report of what still waits. */
    method Cancel()
      requires Valid()
      modifies this`slot, this`cancels, this`sent, pre`cursor
      ensures View() == Cancelled(old(View())) && slot == 0
    {
      slot := 0;
      var size := pre.GetDataSize();
      cancels := cancels + 1;
      sent := sent + [size];
    }

    /** One unread line; stop is the early exit of a type 4 line. slot changes only to 0, and
        exactly when the fold records a cancellation. */
    method HandleLine(line: string) returns (stop: bool)
      requires Valid() && Readable(line)
      modifies this`reduce, this`slot, this`cancels, this`sent, pre, post
      ensures View() == Apply(old(View()), ParseLine(line))
      ensures stop == ParseLine(line).JobDone?
      ensures slot == if cancels == old(cancels) then old(slot) else 0
      ensures ParseLine(line).SetReduce? ==> reduce == ParseLine(line).job
      ensures ParseLine(line).JobDone? ==> reduce == 0
    {
      stop := false;
      var ts := Tokens(line, '.');
      if ts == [] {
        return;
      }
      var messType := Atoi(ts[0]);
      if messType == 3 {
        reduce := Atoi(JobDigits(ts[2]));
        return;
      } else if messType == 4 {
        reduce := 0;
        stop := true;
        return;
      }
      var output := Item(ts[1], ts[2]);
      if messType == 1 {
        var known := pre.Compare(output.id);
        if !known {
          pre.Append(output);
          pre.First();
        }
      } else if messType == 0 {
        var known := pre.Compare(output.id);
        if known {
          pre.RemoveCurrent();
          pre.First();
          if reduce == 0 {
            Cancel();
          }
          post.Append(output);
        }
      } else if messType == 2 {
        var known := pre.Compare(output.id);
        if known {
          pre.RemoveCurrent();
          if |pre.items| == 0 && reduce == 0 {
            Cancel();
          }
        }
      }
    }

    /** An output announced: unless its id is waiting already, it waits from now on, last in the
        list, and the backlog is greater by exactly its size. */
    method OutputAnnounced(id: string, size: int, rest: seq<string>)
      requires Valid() && TokenText(id, '.') && forall i :: 0 <= i < |rest| ==> TokenText(rest[i], '.')
      modifies this`reduce, this`slot, this`cancels, this`sent, pre, post
      ensures old(!HasId(pre.items, id)) ==>
                pre.items == old(pre.items) + [Item(id, IntText(size))]
                && DataSize(pre.items) == old(DataSize(pre.items)) + size
      ensures old(HasId(pre.items, id)) ==> pre.items == old(pre.items)
      ensures post.items == old(post.items) && reduce == old(reduce) && slot == old(slot)
    {
      IntTextChars(size);
      TokensOfLine(1, [id, IntText(size)] + rest);
      LineMeanings(id, IntText(size), rest);
      DataSizeAppend(pre.items, Item(id, IntText(size)));
      AtoiInverse(size);
      var stop := HandleLine(LineOf(1, [id, IntText(size)] + rest));
    }

    /** An output sent: if it was waiting it waits no longer, the backlog is less by the size it
        waited with, it is entered as completed, and without a reducer the slot is given up. */
    method OutputSent(id: string, size: string, rest: seq<string>)
      requires Valid() && TokenText(id, '.') && TokenText(size, '.')
      requires forall i :: 0 <= i < |rest| ==> TokenText(rest[i], '.')
      modifies this`reduce, this`slot, this`cancels, this`sent, pre, post
      ensures forall k ::
                0 <= k < old(|pre.items|)
                && old(pre.items[k].id == id && forall i :: 0 <= i < k ==> pre.items[i].id != id)
                ==> pre.items == old(pre.items[..k] + pre.items[k + 1..])
                    && DataSize(pre.items) == old(DataSize(pre.items)) - old(Atoi(pre.items[k].size))
      ensures old(HasId(pre.items, id)) ==>
                post.items == old(post.items) + [Item(id, size)] && slot == if reduce == 0 then 0 else old(slot)
      ensures old(!HasId(pre.items, id)) ==>
                pre.items == old(pre.items) && post.items == old(post.items) && slot == old(slot)
      ensures reduce == old(reduce)
    {
      ghost var was := pre.items;
      TokensOfLine(0, [id, size] + rest);
      LineMeanings(id, size, rest);
      forall k | 0 <= k < |was| && was[k].id == id && forall i :: 0 <= i < k ==> was[i].id != id
        ensures HasId(was, id) && IndexOf(was, id) == k
        ensures DataSize(Without(was, k)) == DataSize(was) - Atoi(was[k].size)
      {
        FirstIndex(was, id, k);
        DataSizeWithout(was, k);
      }
      var stop := HandleLine(LineOf(0, [id, size] + rest));
    }

    /** One unread line in the course of a pass that began at line begun. */
    method ReadOn(line: string, ghost start: State, ghost log: seq<string>, ghost begun: nat, ghost i: nat)
      returns (stop: bool)
      requires Valid() && begun <= i < |log| && line == log[i] && Readable(line)
      requires View() == Fold(start, log[begun..i])
      modifies this`reduce, this`slot, this`cancels, this`sent, pre, post
      ensures View() == Fold(start, log[begun..i + 1])
      ensures PassEnd(log, i) == if stop then i + 1 else PassEnd(log, i + 1)
    {
      PassStep(start, log, begun, i);
      stop := HandleLine(line);
    }

    /** One pass: the file is read from the top, lines up to read are skipped, and a type 4 line
        ends the pass. */
    method Pass(log: seq<string>)
      requires Valid() && read <= |log|
      requires forall i :: read <= i < |log| ==> Readable(log[i])
      modifies this, pre, post
      ensures read == PassEnd(log, old(read)) && old(read) <= read <= |log|
      ensures forall i :: old(read) <= i < read - 1 ==> !ParseLine(log[i]).JobDone?
      ensures read == |log| || (read > old(read) && ParseLine(log[read - 1]).JobDone?)
      ensures View() == Fold(old(View()), log[old(read)..read])
    {
      hide Fold, PassEnd, Readable;
      ghost var start, begun := View(), read;
      ghost var at := read;  // how far the log has been replayed
      var i := 0;
      var stop := false;
      FoldNone(start, log, begun);
      while i < |log| && !stop
        invariant i <= |log| && read == begun <= at <= |log|
        invariant at == if i > begun then i else begun
        invariant stop ==> i == at
        invariant View() == Fold(start, log[begun..at])
        invariant PassEnd(log, begun) == if stop then at else PassEnd(log, at)
        decreases |log| - i, !stop
      {
        i := i + 1;
        if i > read {
          stop := ReadOn(log[i - 1], start, log, begun, at);
          at := i;
        }
      }
      PassEndNone(log);
      PassEndMeans(log, begun);
      read := i;
    }

    /** Whatever the log had grown to at each pass, and however many passes there were: the lists
        are one fold over the lines read so far, none skipped and none applied twice. */
    method Passes(logs: seq<seq<string>>)
      requires Valid() && View() == NO_LOG && read == 0
      requires forall k :: 0 <= k < |logs| - 1 ==> logs[k] <= logs[k + 1]
      requires forall k, i :: 0 <= k < |logs| && 0 <= i < |logs[k]| ==> Readable(logs[k][i])
      modifies this, pre, post
      ensures logs != [] ==> read <= |logs[|logs| - 1]| && View() == Fold(NO_LOG, logs[|logs| - 1][..read])
    {
      for k := 0 to |logs|
        invariant k == 0 ==> View() == NO_LOG && read == 0
        invariant k > 0 ==> read <= |logs[k - 1]| && View() == Fold(NO_LOG, logs[k - 1][..read])
      {
        var log := logs[k];
        ghost var begun := read;
        if k > 0 {
          SamePrefix(logs[k - 1], log, begun);
        }
        Pass(log);
        FoldExtends(log, begun, read);
      }
    }

    /** The report sent when the master asks for one: the present backlog and reducer. */
    method Report(node: int, speeds: array<int>) returns (buff: string)
      requires Valid() && speeds.Length == SPEEDS
      modifies pre`cursor
      ensures buff == ReportText(node, DataSize(pre.items), reduce, speeds[..])
    {
      var size := pre.GetDataSize();
      buff := PrintReport(node, size, reduce, speeds);
    }
  }
}
