/** A bounded mailbox: a ring of slots, filled and emptied under a mutex that two counting semaphores let callers
    reach. */
module MessageBoxes {
  import opened Arithmetic

  /** Message contents are compared and copied, nothing else. */
  type Msg = seq<int>

  /** The ring's fields. */
  datatype Ring = Ring(data: seq<Msg>, start: nat, end: nat, count: nat)

  predicate RingOk(r: Ring) {
    && |r.data| > 0 && r.start < |r.data| && r.count <= |r.data|
    && r.end == (r.start + r.count) % |r.data|
  }

  /** The unread messages, oldest first. */
  function Unread(r: Ring): (q: seq<Msg>)
    requires RingOk(r)
    ensures |q| == r.count
    ensures forall i :: 0 <= i < |q| ==> q[i] == r.data[(r.start + i) % |r.data|]
  {
    seq(r.count, i requires 0 <= i < r.count => r.data[(r.start + i) % |r.data|])
  }

  lemma Wraps(start: nat, i: nat, max: nat)
    requires start < max && i <= max
    ensures (start + i) % max == if start + i < max then start + i else start + i - max
  {
    if start + i >= max {
      assert (start + i) % max == (start + i - max) % max by { AddMod(start + i - max, max); }
    }
  }

  lemma AddMod(x: nat, max: nat)
    requires 0 < max && x <= max
    ensures (x + max) % max == x % max
  {
    if x < max {
      assert (x + max) == 1 * max + x;
      Quotient(1, x, max);
    } else {
      assert x + max == 2 * max + 0;
      Quotient(2, 0, max);
      Quotient(1, 0, max);
    }
  }

  class MessageBox {
    const data: array<Msg>
    const maxCount: nat
    var startIdx: nat
    var endIdx: nat
    var count: nat

    ghost function View(): Ring
      reads this, data
    {
      Ring(data[..], startIdx, endIdx, count)
    }

    ghost predicate Valid()
      reads this, data
    {
      data.Length == maxCount && RingOk(View())
    }

    constructor (max: nat)
      requires max > 0
      ensures Valid() && maxCount == max && Unread(View()) == [] && fresh(data)
    {
      data := new Msg[max](_ => []);
      maxCount := max;
      startIdx, endIdx, count := 0, 0, 0;
    }

    /** The part of KePostMessage that runs under the mutex. */
    method Put(msg: Msg)
      requires Valid() && count < maxCount
      modifies this, data
      ensures Valid() && Unread(View()) == old(Unread(View())) + [msg]
    {
      ghost var r := View();
      data[endIdx] := msg;
      endIdx := (endIdx + 1) % maxCount;
      count := count + 1;
      PutKeeps(r, View(), msg);
    }

    /** The part of KeGetMessageFromMany that runs under the mutex. */
    method Get(remove: bool) returns (msg: Msg)
      requires Valid() && count > 0
      modifies this
      ensures Valid() && msg == old(Unread(View()))[0]
      ensures Unread(View()) == if remove then old(Unread(View()))[1..] else old(Unread(View()))
    {
      ghost var r := View();
      FirstUnread(r);
      msg := data[startIdx];
      if remove {
        startIdx := (startIdx + 1) % maxCount;
        count := count - 1;
        GetKeeps(r, View());
      }
    }

    /** The part of KeTryReplaceOrAdd that runs under the mutex. */
    method ReplaceOrPut(compareTo: Msg, replaceWith: Msg) returns (replaced: bool)
      requires Valid() && count < maxCount
      modifies this, data
      ensures Valid()
      ensures var q := old(Unread(View()));
              && (replaced <==> q != [] && q[|q| - 1] == compareTo)
              && Unread(View()) == if replaced then q[|q| - 1 := replaceWith] else q + [replaceWith]
    {
      if count != 0 {
        ghost var r := View();
        var tail := (endIdx + maxCount - 1) % maxCount;
        TailUnread(r, tail);
        if data[tail] == compareTo {
          data[tail] := replaceWith;
          ReplaceKeeps(r, View(), tail, replaceWith);
          return true;
        }
      }
      Put(replaceWith);
      return false;
    }
  }

  lemma SlotsDiffer(start: nat, i: nat, j: nat, max: nat)
    requires start < max && i < j <= max && j - i < max
    ensures (start + i) % max != (start + j) % max
  {
    Wraps(start, i, max);
    Wraps(start, j, max);
  }

  lemma PutKeeps(r: Ring, r': Ring, msg: Msg)
    requires RingOk(r) && r.count < |r.data| && r.end < |r.data|
    requires r' == Ring(r.data[r.end := msg], r.start, (r.end + 1) % |r.data|, r.count + 1)
    ensures RingOk(r') && Unread(r') == Unread(r) + [msg]
  {
    var max := |r.data|;
    Wraps(r.start, r.count, max);
    Wraps(r.start, r.count + 1, max);
    Wraps(r.end, 1, max);
    forall i | 0 <= i < r.count
      ensures Unread(r')[i] == Unread(r)[i]
    {
      SlotsDiffer(r.start, i, r.count, max);
    }
    assert Unread(r') == Unread(r) + [msg];
  }

  lemma FirstUnread(r: Ring)
    requires RingOk(r) && r.count > 0
    ensures Unread(r)[0] == r.data[r.start]
  {
    Wraps(r.start, 0, |r.data|);
  }

  lemma GetKeeps(r: Ring, r': Ring)
    requires RingOk(r) && r.count > 0 && r' == Ring(r.data, (r.start + 1) % |r.data|, r.end, r.count - 1)
    ensures RingOk(r') && Unread(r') == Unread(r)[1..]
  {
    var max := |r.data|;
    Wraps(r.start, 1, max);
    Wraps(r.start, r.count, max);
    Wraps(r'.start, r.count - 1, max);
    forall i | 0 <= i < r.count - 1
      ensures Unread(r')[i] == Unread(r)[1..][i]
    {
      Wraps(r'.start, i, max);
      Wraps(r.start, i + 1, max);
    }
  }

  lemma TailUnread(r: Ring, tail: nat)
    requires RingOk(r) && r.count > 0 && tail == (r.end + |r.data| - 1) % |r.data|
    ensures tail < |r.data| && tail == (r.start + r.count - 1) % |r.data| && Unread(r)[r.count - 1] == r.data[tail]
  {
    var max := |r.data|;
    Wraps(r.start, r.count, max);
    Wraps(r.start, r.count - 1, max);
    if r.end == 0 {
      Quotient(0, max - 1, max);
    } else {
      Quotient(1, r.end - 1, max);
      assert r.end + max - 1 == 1 * max + (r.end - 1);
    }
  }

  lemma ReplaceKeeps(r: Ring, r': Ring, tail: nat, msg: Msg)
    requires RingOk(r) && r.count > 0 && tail < |r.data| && tail == (r.start + r.count - 1) % |r.data|
    requires r' == r.(data := r.data[tail := msg])
    ensures RingOk(r') && Unread(r') == Unread(r)[r.count - 1 := msg]
  {
    forall i | 0 <= i < r.count - 1
      ensures Unread(r')[i] == Unread(r)[i]
    {
      SlotsDiffer(r.start, i, r.count - 1, |r.data|);
    }
  }
}
