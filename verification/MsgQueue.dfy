/** The in-memory message queue with its running gas total (ampd/src/queue/msg_queue.rs). */
module MsgQueues {
  import opened Ints

  /** A protobuf `Any`. */
  datatype Any = Any(typeUrl: string, value: string)

  /** A queued message together with the gas estimated for it. */
  datatype Entry = Entry(msg: Any, gas: u64)

  function TotalGas(s: seq<Entry>): nat {
    if s == [] then 0 else s[0].gas + TotalGas(s[1..])
  }

  function Messages(s: seq<Entry>): (r: seq<Any>)
    ensures |r| == |s| && forall i :: 0 <= i < |s| ==> r[i] == s[i].msg
  {
    seq(|s|, i requires 0 <= i < |s| => s[i].msg)
  }

  lemma {:induction false} TotalGasConcat(a: seq<Entry>, b: seq<Entry>)
    ensures TotalGas(a + b) == TotalGas(a) + TotalGas(b)
  {
    if a == [] {
      assert a + b == b;
    } else {
      assert (a + b)[1..] == a[1..] + b;
      TotalGasConcat(a[1..], b);
    }
  }

  lemma TotalGasSnoc(a: seq<Entry>, e: Entry)
    ensures TotalGas(a + [e]) == TotalGas(a) + e.gas
  {
    TotalGasConcat(a, [e]);
    assert TotalGas([e]) == e.gas + TotalGas([]);
  }

  class MsgQueue {
    var msgs: seq<Any>
    var gasCost: u64
    ghost var entries: seq<Entry>

    /** The stored total is the exact sum over the queued messages. */
    ghost predicate Valid()
      reads this
    {
      msgs == Messages(entries) && gasCost == TotalGas(entries)
    }

    constructor ()
      ensures Valid() && entries == []
    {
      msgs, gasCost, entries := [], 0, [];
    }

    /** The message is appended before the checked addition, so a failing push leaves it in the queue
        with the total not updated. */
    method Push(msg: Any, gas: u64) returns (ok: bool)
      requires Valid()
      modifies this
      ensures ok == (old(gasCost) + gas <= U64_MAX)
      ensures msgs == old(msgs) + [msg] && entries == old(entries) + [Entry(msg, gas)]
      ensures gasCost == if ok then old(gasCost) + gas else old(gasCost)
      ensures ok ==> Valid()
    {
      TotalGasSnoc(entries, Entry(msg, gas));
      msgs := msgs + [msg];
      entries := entries + [Entry(msg, gas)];
      ok := gasCost + gas <= U64_MAX;
      if ok {
        gasCost := gasCost + gas;
      }
    }

    method PopAll() returns (popped: seq<Any>)
      requires Valid()
      modifies this
      ensures popped == old(msgs) == Messages(old(entries))
      ensures Valid() && entries == [] && msgs == [] && gasCost == 0
    {
      popped := msgs;
      msgs, gasCost, entries := [], 0, [];
    }
  }
}
