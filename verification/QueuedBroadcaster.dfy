/** The batching event loop (ampd/src/queue/queued_broadcaster.rs): first as a state machine over
    arbitrary interleavings of arrivals, failed estimates, ticks and responses, then as the class
    whose methods are proved to take exactly those steps. */
module BroadcastLoop {
  import opened Ints
  import opened Outcomes
  import opened Sums
  import opened MsgQueues

  datatype Error = Broadcast | Client | Queue | TxConfirmation | NoClients

  datatype Status = Running | Finished | Failed(error: Error)

  /** What the network does with a batch, should one be sent. */
  datatype Link =
    | Sent(hash: string)
    | Rejected
    | ConfirmerGone(unseenHash: string)

  datatype Event =
    | Arrival(msg: Any, estimate: Option<u64>, clientGone: bool, link: Link)
    | Tick(tickLink: Link)
    | Response

  /** `delivered` are the batches the broadcaster accepted and `byGas[i]` tells whether the gas limit caused
      the i-th of them; `hashes` are the transaction hashes passed on for confirmation, and `acked` are the
      messages whose client was answered with Ok, each with its estimate. A failing run may leave a batch
      `refused` by the broadcaster and a message `dropped` between its acknowledgement and the queue. */
  datatype State = State(
    limit: u64,
    queue: seq<Entry>,
    gas: u64,
    delivered: seq<seq<Entry>>,
    byGas: seq<bool>,
    hashes: seq<string>,
    acked: seq<Entry>,
    refused: seq<Entry>,
    dropped: seq<Entry>,
    status: Status)

  function Initial(limit: u64): State {
    State(limit, [], 0, [], [], [], [], [], [], Running)
  }

  /** `broadcast_all` */
  function Flush(s: State, link: Link, byGas: bool): State {
    if s.queue == [] then s.(gas := 0)
    else
      var t := s.(queue := [], gas := 0);
      var sent := t.(delivered := s.delivered + [s.queue], byGas := s.byGas + [byGas]);
      match link
      case Sent(hash) => sent.(hashes := s.hashes + [hash])
      case Rejected => t.(refused := s.queue, status := Failed(Broadcast))
      case ConfirmerGone(_) => sent.(status := Failed(TxConfirmation))
  }

  /** `MsgQueue::push` */
  function Enqueue(s: State, e: Entry): State {
    var t := s.(queue := s.queue + [e]);
    if s.gas + e.gas <= U64_MAX then t.(gas := s.gas + e.gas) else t.(status := Failed(Queue))
  }

  /** `handle_msg` */
  function HandleMsg(s: State, msg: Any, estimate: Option<u64>, clientGone: bool, link: Link): State {
    if clientGone then s.(status := Failed(Client))
    else
      match estimate
      case None => s
      case Some(fee) =>
        var e := Entry(msg, fee);
        var acked := s.(acked := s.acked + [e]);
        var flushed :=
          if SaturatingAdd64(fee, s.gas) >= s.limit then Flush(acked, link, true) else acked;
        if flushed.status.Failed? then flushed.(dropped := [e]) else Enqueue(flushed, e)
  }

  function Step(s: State, event: Event): State {
    match event
    case Arrival(msg, estimate, clientGone, link) => HandleMsg(s, msg, estimate, clientGone, link)
    case Tick(link) => Flush(s, link, false)
    case Response => s
  }

  /** The `select!` loop: it takes events until the channel closes or a step fails. */
  function Loop(s: State, events: seq<Event>): State
    decreases |events|
  {
    if events == [] || !s.status.Running? then s
    else Loop(Step(s, events[0]), events[1..])
  }

  /** `clean_up` */
  function CleanUp(s: State, link: Link): State {
    if !s.status.Running? then s
    else
      var t := Flush(s, link, false);
      if t.status.Running? then t.(status := Finished) else t
  }

  function Run(limit: u64, events: seq<Event>, last: Link): State {
    CleanUp(Loop(Initial(limit), events), last)
  }

  // ---------------------------------------------------------------- what every run keeps

  /** A batch respects the limit, unless a single message exceeds it on its own. */
  ghost predicate WithinLimit(batch: seq<Entry>, limit: u64) {
    |batch| <= 1 || TotalGas(batch) < limit
  }

  /** A batch sent because of gas is followed by another one, and the two together reach the limit. */
  ghost predicate PairsReach(batches: seq<seq<Entry>>, byGas: seq<bool>, limit: u64) {
    && |byGas| <= |batches|
    && forall i :: 0 <= i < |byGas| && byGas[i] ==>
         i + 1 < |batches| && TotalGas(batches[i]) + TotalGas(batches[i + 1]) >= limit
  }

  /** Every acknowledged message is in exactly one place, and these are in the order of acknowledgement. */
  ghost predicate Conserved(s: State) {
    Flatten(s.delivered) + s.refused + s.queue + s.dropped == s.acked
  }

  /** The acknowledged messages that are in no delivered batch. */
  function Undelivered(s: State): seq<Entry> {
    s.refused + s.queue + s.dropped
  }

  /** Where messages can be left, by the way a run stands or ends. */
  ghost predicate Located(s: State) {
    && (s.refused != [] <==> s.status == Failed(Broadcast))
    && |s.hashes| + (if s.status == Failed(TxConfirmation) then 1 else 0) == |s.delivered|
    && |s.dropped| <= 1
    && (s.dropped != [] ==> s.status == Failed(Broadcast) || s.status == Failed(TxConfirmation))
    && (s.status != Running && s.status != Failed(Client) ==> s.queue == [])
  }

  ghost predicate Inv(s: State) {
    && s.status != Failed(Queue) && s.status != Failed(NoClients)
    && s.gas == TotalGas(s.queue)
    && WithinLimit(s.queue, s.limit) && WithinLimit(s.refused, s.limit)
    && (forall b :: b in s.delivered ==> b != [] && WithinLimit(b, s.limit))
    && |s.byGas| == |s.delivered|
    && PairsReach(s.delivered + [Undelivered(s)], s.byGas, s.limit)
    && Located(s)
    && Conserved(s)
  }

  /** What `Inv` says of the state between the flush and the push of one arrival, which is not queued yet. */
  ghost predicate FlushedFor(s: State, e: Entry) {
    && s.status != Failed(Queue) && s.status != Failed(NoClients) && s.status != Failed(Client)
    && s.gas == TotalGas(s.queue)
    && (s.queue == [] || s.gas + e.gas < s.limit)
    && WithinLimit(s.refused, s.limit)
    && (forall b :: b in s.delivered ==> b != [] && WithinLimit(b, s.limit))
    && |s.byGas| == |s.delivered|
    && !s.status.Finished?
    && PairsReach(s.delivered + [s.refused + s.queue + [e]], s.byGas, s.limit)
    && Located(s) && s.dropped == []
    && Flatten(s.delivered) + s.refused + s.queue + [e] == s.acked
  }

  /** A flush that gas did not cause needs no partner. */
  lemma PairsAfterTick(batches: seq<seq<Entry>>, byGas: seq<bool>, queue: seq<Entry>, limit: u64)
    requires PairsReach(batches + [queue], byGas, limit) && |byGas| == |batches|
    ensures PairsReach(batches + [queue] + [[]], byGas + [false], limit)
  {
    var before, after, flags := batches + [queue], batches + [queue] + [[]], byGas + [false];
    forall i | 0 <= i < |flags| && flags[i]
      ensures i + 1 < |after| && TotalGas(after[i]) + TotalGas(after[i + 1]) >= limit
    {
      assert TotalGas(before[i]) + TotalGas(before[i + 1]) >= limit;
      assert after[i] == before[i] && after[i + 1] == before[i + 1];
    }
  }

  /** The queue becomes the last delivered batch, or the refused one. */
  lemma FlushConserves(s: State, link: Link)
    requires Inv(s) && s.status.Running? && s.queue != []
    ensures Conserved(Flush(s, link, false))
  {
    FlattenSnoc(s.delivered, s.queue);
    var t := Flush(s, link, false);
    assert s.refused == s.dropped == [];
    assert Flatten(t.delivered) + t.refused + t.queue + t.dropped == Flatten(s.delivered) + s.queue;
  }

  lemma FlushKeeps(s: State, link: Link)
    requires Inv(s) && s.status.Running?
    ensures Inv(Flush(s, link, false))
  {
    if s.queue == [] { assert Flush(s, link, false) == s; }
    else {
      FlushConserves(s, link);
      assert Undelivered(s) == s.queue;
      PairsAfterTick(s.delivered, s.byGas, s.queue, s.limit);
      var t := Flush(s, link, false);
      assert Undelivered(t) == if link.Rejected? then s.queue else [];
    }
  }

  /** Before a flush by gas every earlier gas flush is paired; after it, it is paired with the next message. */
  lemma PairsAfterFlush(batches: seq<seq<Entry>>, byGas: seq<bool>, queue: seq<Entry>, e: Entry, limit: u64)
    requires PairsReach(batches + [queue], byGas, limit) && |byGas| == |batches|
    requires TotalGas(queue) + e.gas >= limit
    ensures PairsReach(batches + [queue] + [[e]], byGas + [true], limit)
  {
    var before, after, flags := batches + [queue], batches + [queue] + [[e]], byGas + [true];
    TotalGasSnoc([], e);
    assert [] + [e] == [e];
    forall i | 0 <= i < |flags| && flags[i]
      ensures i + 1 < |after| && TotalGas(after[i]) + TotalGas(after[i + 1]) >= limit
    {
      if i < |byGas| {
        assert TotalGas(before[i]) + TotalGas(before[i + 1]) >= limit;
        assert after[i] == before[i] && after[i + 1] == before[i + 1];
      }
    }
  }

  lemma FlushForConserves(s: State, e: Entry, link: Link)
    requires Inv(s) && s.status.Running?
    ensures var t := Flush(s.(acked := s.acked + [e]), link, true);
            Flatten(t.delivered) + t.refused + t.queue + [e] == t.acked
  {
    FlattenSnoc(s.delivered, s.queue);
    var t := Flush(s.(acked := s.acked + [e]), link, true);
    assert s.refused == s.dropped == [];
    assert Flatten(t.delivered) + t.refused + t.queue == Flatten(s.delivered) + s.queue;
  }

  lemma FlushMakesRoom(s: State, e: Entry, link: Link)
    requires Inv(s) && s.status.Running?
    requires SaturatingAdd64(e.gas, s.gas) >= s.limit
    ensures var t := Flush(s.(acked := s.acked + [e]), link, true); FlushedFor(t, e) && t.queue == []
  {
    FlushForConserves(s, e, link);
    FlushForPairs(s, e, link);
  }

  lemma FlushForPairs(s: State, e: Entry, link: Link)
    requires Inv(s) && s.status.Running?
    requires SaturatingAdd64(e.gas, s.gas) >= s.limit
    ensures var t := Flush(s.(acked := s.acked + [e]), link, true);
            PairsReach(t.delivered + [t.refused + t.queue + [e]], t.byGas, s.limit)
  {
    var t := Flush(s.(acked := s.acked + [e]), link, true);
    assert Undelivered(s) == s.queue;
    if s.queue == [] || link.Rejected? {
      PairsWithNext(s.delivered, s.byGas, s.queue, e, s.limit);
      assert t.refused + t.queue == s.queue;
    } else {
      PairsAfterFlush(s.delivered, s.byGas, s.queue, e, s.limit);
      assert t.refused + t.queue + [e] == [e];
    }
  }

  /** A longer last batch keeps the pairs. */
  lemma PairsWithNext(batches: seq<seq<Entry>>, byGas: seq<bool>, queue: seq<Entry>, e: Entry, limit: u64)
    requires PairsReach(batches + [queue], byGas, limit) && |byGas| == |batches|
    ensures PairsReach(batches + [queue + [e]], byGas, limit)
  {
    TotalGasSnoc(queue, e);
    var before, after := batches + [queue], batches + [queue + [e]];
    forall i | 0 <= i < |byGas| && byGas[i]
      ensures i + 1 < |after| && TotalGas(after[i]) + TotalGas(after[i + 1]) >= limit
    {
      assert TotalGas(before[i]) + TotalGas(before[i + 1]) >= limit;
    }
  }

  lemma NoFlushNeeded(s: State, e: Entry)
    requires Inv(s) && s.status.Running?
    requires SaturatingAdd64(e.gas, s.gas) < s.limit
    ensures FlushedFor(s.(acked := s.acked + [e]), e)
  {
    assert Undelivered(s) == s.queue && s.refused + s.queue == s.queue;
    PairsWithNext(s.delivered, s.byGas, s.queue, e, s.limit);
  }

  /** After the flush decision the push cannot overflow, for any fee and any limit. */
  lemma EnqueueKeeps(s: State, e: Entry)
    requires FlushedFor(s, e) && s.status.Running?
    ensures Inv(Enqueue(s, e)) && Enqueue(s, e).status.Running?
  {
    TotalGasSnoc(s.queue, e);
    var t := Enqueue(s, e);
    assert Undelivered(t) == s.refused + s.queue + [e];
  }

  lemma StepKeeps(s: State, event: Event)
    requires Inv(s) && s.status.Running?
    ensures Inv(Step(s, event))
  {
    match event
    case Response =>
    case Tick(link) => FlushKeeps(s, link);
    case Arrival(msg, estimate, clientGone, link) =>
      if !clientGone && estimate.Some? {
        var e := Entry(msg, estimate.value);
        var acked := s.(acked := s.acked + [e]);
        if SaturatingAdd64(e.gas, s.gas) >= s.limit {
          FlushMakesRoom(s, e, link);
          var t := Flush(acked, link, true);
          if t.status.Running? { EnqueueKeeps(t, e); }
        } else {
          NoFlushNeeded(s, e);
          EnqueueKeeps(acked, e);
        }
      }
  }

  lemma {:induction false} LoopKeeps(s: State, events: seq<Event>)
    requires Inv(s)
    ensures Inv(Loop(s, events))
    decreases |events|
  {
    if events != [] && s.status.Running? {
      StepKeeps(s, events[0]);
      LoopKeeps(Step(s, events[0]), events[1..]);
    }
  }

  lemma CleanUpKeeps(s: State, last: Link)
    requires Inv(s)
    ensures Inv(CleanUp(s, last)) && !CleanUp(s, last).status.Running?
  {
    if s.status.Running? { FlushKeeps(s, last); }
  }

  lemma RunKeeps(limit: u64, events: seq<Event>, last: Link)
    ensures Inv(Run(limit, events, last)) && !Run(limit, events, last).status.Running?
    ensures Inv(Loop(Initial(limit), events))
  {
    LoopKeeps(Initial(limit), events);
    CleanUpKeeps(Loop(Initial(limit), events), last);
  }

  /** FIFO conservation over every interleaving: delivered batches, then the batch the broadcaster refused, the
      queue, and the message dropped before it was queued are together exactly the acknowledged messages, in
      order. A run without error has delivered them all, with one hash per batch. A failing run leaves
      undelivered exactly the refused batch, the abandoned queue or the dropped message, by its error. */
  lemma FifoConservation(limit: u64, events: seq<Event>, last: Link)
    ensures var s := Run(limit, events, last);
            && Flatten(s.delivered) + s.refused + s.queue + s.dropped == s.acked
            && [] !in s.delivered
            && match s.status
               case Running => false
               case Finished =>
                 Flatten(s.delivered) == s.acked && s.refused == s.queue == s.dropped == [] && |s.hashes| == |s.delivered|
               case Failed(Client) => s.refused == s.dropped == [] && |s.hashes| == |s.delivered|
               case Failed(Broadcast) =>
                 s.refused != [] && s.queue == [] && |s.dropped| <= 1 && |s.hashes| == |s.delivered|
               case Failed(TxConfirmation) =>
                 s.refused == s.queue == [] && |s.dropped| <= 1 && |s.hashes| + 1 == |s.delivered|
               case Failed(_) => false
  {
    RunKeeps(limit, events, last);
    var s := Run(limit, events, last);
    assert Flatten(s.delivered) + [] + [] + [] == Flatten(s.delivered);
  }

  /** Only the clean-up finishes a run. */
  lemma {:induction false} LoopNeverFinishes(s: State, events: seq<Event>)
    requires !s.status.Finished?
    ensures !Loop(s, events).status.Finished?
    decreases |events|
  {
    if events != [] && s.status.Running? { LoopNeverFinishes(Step(s, events[0]), events[1..]); }
  }

  // ---------------------------------------------------------------- when exactly messages are lost

  /** An arrival that makes the loop flush before it queues the message. */
  predicate Flushes(s: State, event: Event) {
    && event.Arrival? && !event.clientGone && event.estimate.Some?
    && SaturatingAdd64(event.estimate.value, s.gas) >= s.limit
  }

  /** The link on which the queue goes out in this step, if it does. */
  function Outgoing(s: State, event: Event): Option<Link> {
    if s.queue == [] || !s.status.Running? then None
    else if event.Tick? then Some(event.tickLink)
    else if Flushes(s, event) then Some(event.link)
    else None
  }

  /** The acknowledged message of this step is lost: the flush that makes room for it fails. */
  predicate Drops(s: State, event: Event) {
    Flushes(s, event) && Outgoing(s, event).Some? && !Outgoing(s, event).value.Sent?
  }

  /** The queue is lost in this step: the broadcaster refuses it. */
  predicate Refuses(s: State, event: Event) {
    Outgoing(s, event) == Some(Rejected)
  }

  lemma Missing(delivered: seq<Entry>, refused: seq<Entry>, queue: seq<Entry>, dropped: seq<Entry>)
    ensures var all := delivered + refused + queue + dropped;
            && (delivered + refused + queue == all <==> dropped == [])
            && (delivered + queue == all <==> dropped == [] && refused == [])
  {
    var all := delivered + refused + queue + dropped;
    assert |all| == |delivered| + |refused| + |queue| + |dropped|;
    if dropped == [] { assert delivered + refused + queue + dropped == delivered + refused + queue; }
    if refused == [] { assert delivered + refused == delivered; }
  }

  lemma StepConserves(s: State, event: Event)
    requires Inv(s) && s.status.Running?
    ensures Conserved(Step(s, event))
  {
    StepKeeps(s, event);
  }

  lemma StepLoses(s: State, event: Event)
    requires s.status.Running? && s.refused == s.dropped == []
    ensures var t := Step(s, event);
            && (t.dropped == if Drops(s, event) then [Entry(event.msg, event.estimate.value)] else [])
            && (t.refused == if Refuses(s, event) then s.queue else [])
            && (Drops(s, event) || Refuses(s, event) ==> t.status.Failed?)
            && (Refuses(s, event) ==> s.queue != [])
  {
  }

  /** One step loses the arriving message exactly when the flush that makes room for it fails, and the whole
      queue exactly when the broadcaster refuses it. */
  lemma StepLosesIff(s: State, event: Event)
    requires Inv(s) && s.status.Running?
    ensures var t := Step(s, event);
            && (t.dropped != [] <==> Drops(s, event))
            && (t.refused != [] <==> Refuses(s, event))
            && (Flatten(t.delivered) + t.refused + t.queue == t.acked <==> !Drops(s, event))
            && (Flatten(t.delivered) + t.queue == t.acked <==> !Drops(s, event) && !Refuses(s, event))
            && (Drops(s, event) || Refuses(s, event) ==> t.status.Failed?)
            && (Refuses(s, event) ==> t.refused == s.queue)
            && (Drops(s, event) ==> t.dropped == [Entry(event.msg, event.estimate.value)])
  {
    StepLoses(s, event);
    StepConserves(s, event);
    var t := Step(s, event);
    Missing(Flatten(t.delivered), t.refused, t.queue, t.dropped);
  }

  /** A loop that has ended did so in one step, from a running state. */
  lemma {:induction false} EndingStep(s: State, events: seq<Event>) returns (i: nat)
    requires s.status.Running? && !Loop(s, events).status.Running?
    ensures i < |events| && Loop(s, events[..i]).status.Running?
    ensures Loop(s, events) == Step(Loop(s, events[..i]), events[i])
    decreases |events|
  {
    var t := Step(s, events[0]);
    if !t.status.Running? {
      i := 0;
      assert events[..0] == [];
    } else {
      var j := EndingStep(t, events[1..]);
      i := j + 1;
      assert events[..i][1..] == events[1..][..j] && events[..i][0] == events[0];
    }
  }

  /** And the step that fails is the last one. */
  lemma {:induction false} EndsThere(s: State, events: seq<Event>, i: nat)
    requires i < |events| && Loop(s, events[..i]).status.Running?
    requires !Step(Loop(s, events[..i]), events[i]).status.Running?
    ensures Loop(s, events) == Step(Loop(s, events[..i]), events[i])
    decreases |events|
  {
    if i == 0 { assert events[..0] == []; }
    else {
      assert events[..i][1..] == events[1..][..i - 1] && events[..i][0] == events[0];
      EndsThere(Step(s, events[0]), events[1..], i - 1);
    }
  }

  /** The state of the loop before event i. */
  function Before(limit: u64, events: seq<Event>, i: nat): State
    requires i <= |events|
  {
    Loop(Initial(limit), events[..i])
  }

  /** An event that loses messages ends the loop. */
  lemma LosingStep(limit: u64, events: seq<Event>, i: nat)
    requires i < |events|
    requires var s := Before(limit, events, i); Drops(s, events[i]) || Refuses(s, events[i])
    ensures var s, t := Before(limit, events, i), Loop(Initial(limit), events);
            && (Drops(s, events[i]) ==> t.dropped != [])
            && (Refuses(s, events[i]) ==> t.refused != [])
  {
    var s := Before(limit, events, i);
    LoopKeeps(Initial(limit), events[..i]);
    StepLosesIff(s, events[i]);
    var t := Step(s, events[i]);
    assert !t.status.Running?;
    EndsThere(Initial(limit), events, i);
  }

  /** And a loop that has lost messages did so in its last step. */
  lemma LossHasStep(limit: u64, events: seq<Event>) returns (i: nat)
    requires var t := Loop(Initial(limit), events); t.dropped != [] || t.refused != []
    ensures i < |events|
    ensures var s, t := Before(limit, events, i), Loop(Initial(limit), events);
            && (t.dropped != [] ==> Drops(s, events[i]))
            && (t.refused != [] ==> Refuses(s, events[i]))
  {
    LoopKeeps(Initial(limit), events);
    i := EndingStep(Initial(limit), events);
    LoopKeeps(Initial(limit), events[..i]);
    StepLosesIff(Before(limit, events, i), events[i]);
  }

  lemma LoopLosesIff(limit: u64, events: seq<Event>)
    ensures var t := Loop(Initial(limit), events);
            && (t.dropped != [] <==> exists i :: 0 <= i < |events| && Drops(Before(limit, events, i), events[i]))
            && (t.refused != [] <==> exists i :: 0 <= i < |events| && Refuses(Before(limit, events, i), events[i]))
  {
    var t := Loop(Initial(limit), events);
    if t.dropped != [] || t.refused != [] { var i := LossHasStep(limit, events); }
    forall i | 0 <= i < |events| && Drops(Before(limit, events, i), events[i]) ensures t.dropped != [] {
      LosingStep(limit, events, i);
    }
    forall i | 0 <= i < |events| && Refuses(Before(limit, events, i), events[i]) ensures t.refused != [] {
      LosingStep(limit, events, i);
    }
  }

  /** Over every run: a message is dropped exactly when some arrival finds a non-empty queue, needs a flush to
      make room and the flush fails; a batch is refused exactly when the broadcaster refuses a non-empty
      queue, on such an arrival, on a tick or in the final flush. */
  lemma RunLosesIff(limit: u64, events: seq<Event>, last: Link)
    ensures var s, end := Run(limit, events, last), Before(limit, events, |events|);
            && (s.dropped != [] <==> exists i :: 0 <= i < |events| && Drops(Before(limit, events, i), events[i]))
            && (s.refused != [] <==>
                  || (exists i :: 0 <= i < |events| && Refuses(Before(limit, events, i), events[i]))
                  || (end.status.Running? && end.queue != [] && last.Rejected?))
  {
    assert events[..|events|] == events;
    LoopLosesIff(limit, events);
    LoopKeeps(Initial(limit), events);
  }

  // ---------------------------------------------------------------- when exactly everything is delivered

  /** The queue is lost in this step: the client that the loop wants to answer is gone, which ends the run. */
  predicate Abandons(s: State, event: Event) {
    s.status.Running? && s.queue != [] && event.Arrival? && event.clientGone
  }

  /** The step loses acknowledged messages, in one of the three ways. */
  predicate Loses(s: State, event: Event) {
    Drops(s, event) || Refuses(s, event) || Abandons(s, event)
  }

  lemma AllDelivered(delivered: seq<Entry>, refused: seq<Entry>, queue: seq<Entry>, dropped: seq<Entry>)
    ensures delivered == delivered + refused + queue + dropped <==> refused == queue == dropped == []
  {
    var all := delivered + refused + queue + dropped;
    assert |all| == |delivered| + |refused| + |queue| + |dropped|;
    if refused == queue == dropped == [] { assert all == delivered; }
  }

  /** A step that loses messages ends the loop, and a step that ends the loop leaves messages undelivered
      exactly when it loses them. */
  lemma EndingStepLosesIff(s: State, event: Event)
    requires Inv(s) && s.status.Running?
    ensures var t := Step(s, event);
            && (Loses(s, event) ==> !t.status.Running?)
            && (!t.status.Running? ==> (Flatten(t.delivered) != t.acked <==> Loses(s, event)))
  {
    StepLosesIff(s, event);
    StepKeeps(s, event);
    var t := Step(s, event);
    AllDelivered(Flatten(t.delivered), t.refused, t.queue, t.dropped);
  }

  lemma LosingStepUndelivered(limit: u64, events: seq<Event>, i: nat)
    requires i < |events| && Loses(Before(limit, events, i), events[i])
    ensures var t := Loop(Initial(limit), events); !t.status.Running? && Flatten(t.delivered) != t.acked
  {
    LoopKeeps(Initial(limit), events[..i]);
    EndingStepLosesIff(Before(limit, events, i), events[i]);
    EndsThere(Initial(limit), events, i);
  }

  lemma UndeliveredHasStep(limit: u64, events: seq<Event>) returns (i: nat)
    requires var t := Loop(Initial(limit), events); !t.status.Running? && Flatten(t.delivered) != t.acked
    ensures i < |events| && Loses(Before(limit, events, i), events[i])
  {
    i := EndingStep(Initial(limit), events);
    var s := Before(limit, events, i);
    LoopKeeps(Initial(limit), events[..i]);
    EndingStepLosesIff(s, events[i]);
  }

  lemma EndedLoopDeliversIff(limit: u64, events: seq<Event>)
    requires !Loop(Initial(limit), events).status.Running?
    ensures var t := Loop(Initial(limit), events);
            Flatten(t.delivered) == t.acked <==>
              forall i :: 0 <= i < |events| ==> !Loses(Before(limit, events, i), events[i])
  {
    var t := Loop(Initial(limit), events);
    if Flatten(t.delivered) != t.acked { var i := UndeliveredHasStep(limit, events); }
    forall i | 0 <= i < |events| && Loses(Before(limit, events, i), events[i])
      ensures Flatten(t.delivered) != t.acked
    {
      LosingStepUndelivered(limit, events, i);
    }
  }

  /** The final flush leaves messages undelivered exactly when the broadcaster refuses a non-empty queue. */
  lemma CleanUpDeliversIff(s: State, last: Link)
    requires Inv(s) && s.status.Running?
    ensures var t := CleanUp(s, last);
            Flatten(t.delivered) == t.acked <==> !(s.queue != [] && last.Rejected?)
  {
    CleanUpKeeps(s, last);
    var t := CleanUp(s, last);
    AllDelivered(Flatten(t.delivered), t.refused, t.queue, t.dropped);
  }

  /** Over every run: every acknowledged message is delivered exactly when no event loses messages, by a
      refused flush, a failed flush that should make room, or a client that is gone while messages are queued,
      and the broadcaster does not refuse the final flush. */
  lemma DeliversAllIff(limit: u64, events: seq<Event>, last: Link)
    ensures var s, end := Run(limit, events, last), Before(limit, events, |events|);
            Flatten(s.delivered) == s.acked <==>
              && (forall i :: 0 <= i < |events| ==> !Loses(Before(limit, events, i), events[i]))
              && !(end.status.Running? && end.queue != [] && last.Rejected?)
  {
    assert events[..|events|] == events;
    LoopKeeps(Initial(limit), events);
    var end := Loop(Initial(limit), events);
    if !end.status.Running? { EndedLoopDeliversIff(limit, events); }
    else {
      CleanUpDeliversIff(end, last);
      forall i | 0 <= i < |events| ensures !Loses(Before(limit, events, i), events[i]) {
        if Loses(Before(limit, events, i), events[i]) { LosingStepUndelivered(limit, events, i); }
      }
    }
  }

  lemma LoopOn(s: State, event: Event, rest: seq<Event>)
    requires s.status.Running?
    ensures Loop(s, [event] + rest) == Loop(Step(s, event), rest)
  {
    assert ([event] + rest)[1..] == rest;
  }

  /** Two acknowledged messages, lost when a tick finds the broadcaster refusing. */
  lemma RefusedBatchIsLost(a: Any, b: Any, link: Link)
    ensures Run(100, [Arrival(a, Some(1), false, link), Arrival(b, Some(1), false, link), Tick(Rejected)], link)
         == State(100, [], 0, [], [], [], [Entry(a, 1), Entry(b, 1)], [Entry(a, 1), Entry(b, 1)], [], Failed(Broadcast))
  {
    var x, y, z := Arrival(a, Some(1), false, link), Arrival(b, Some(1), false, link), Tick(Rejected);
    var one, two := [Entry(a, 1)], [Entry(a, 1), Entry(b, 1)];
    assert [x, y, z] == [x] + [y, z] && [y, z] == [y] + [z] && [z] == [z] + [];
    LoopOn(Initial(100), x, [y, z]);
    assert Step(Initial(100), x) == State(100, one, 1, [], [], [], one, [], [], Running);
    LoopOn(State(100, one, 1, [], [], [], one, [], [], Running), y, [z]);
    assert one + [Entry(b, 1)] == two;
    LoopOn(State(100, two, 2, [], [], [], two, [], [], Running), z, []);
  }

  /** An acknowledged message, lost although the batch before it went out: its hash could not be passed on. */
  lemma FailedFlushDropsMessage(a: Any, b: Any, link: Link, hash: string)
    ensures Run(100, [Arrival(a, Some(60), false, link), Arrival(b, Some(60), false, ConfirmerGone(hash))], link)
         == State(100, [], 0, [[Entry(a, 60)]], [true], [], [Entry(a, 60), Entry(b, 60)], [], [Entry(b, 60)],
                  Failed(TxConfirmation))
  {
    var x, y := Arrival(a, Some(60), false, link), Arrival(b, Some(60), false, ConfirmerGone(hash));
    var one := [Entry(a, 60)];
    assert [x, y] == [x] + [y] && [y] == [y] + [];
    LoopOn(Initial(100), x, [y]);
    assert Step(Initial(100), x) == State(100, one, 60, [], [], [], one, [], [], Running);
    LoopOn(State(100, one, 60, [], [], [], one, [], [], Running), y, []);
  }

  /** An acknowledged message, lost with the queue because another client does not wait for its answer. */
  lemma GoneClientAbandonsQueue(a: Any, b: Any, estimate: Option<u64>, link: Link)
    ensures Run(100, [Arrival(a, Some(1), false, link), Arrival(b, estimate, true, link)], link)
         == State(100, [Entry(a, 1)], 1, [], [], [], [Entry(a, 1)], [], [], Failed(Client))
  {
    var x, y := Arrival(a, Some(1), false, link), Arrival(b, estimate, true, link);
    var one := [Entry(a, 1)];
    assert [x, y] == [x] + [y] && [y] == [y] + [];
    LoopOn(Initial(100), x, [y]);
    assert Step(Initial(100), x) == State(100, one, 1, [], [], [], one, [], [], Running);
    LoopOn(State(100, one, 1, [], [], [], one, [], [], Running), y, []);
  }

  /** A run without error has delivered every acknowledged message. */
  lemma FinishedDelivers(limit: u64, events: seq<Event>, last: Link)
    requires Run(limit, events, last).status.Finished?
    ensures Flatten(Run(limit, events, last).delivered) == Run(limit, events, last).acked
  {
    FifoConservation(limit, events, last);
  }

  /** For all u64 fees and limits: every batch is below the limit or a single message, and the
      checked addition in the queue never overflows. */
  lemma BatchesRespectLimit(limit: u64, events: seq<Event>, last: Link)
    ensures var s := Run(limit, events, last);
            && s.status != Failed(Queue) && s.gas == TotalGas(s.queue)
            && (forall b :: b in s.delivered ==> |b| == 1 || TotalGas(b) < limit)
            && (s.refused != [] ==> |s.refused| == 1 || TotalGas(s.refused) < limit)
  {
    RunKeeps(limit, events, last);
    LoopKeepsLimit(Initial(limit), events);
  }

  lemma {:induction false} LoopKeepsLimit(s: State, events: seq<Event>)
    ensures Loop(s, events).limit == s.limit
    decreases |events|
  {
    if events != [] && s.status.Running? {
      LoopKeepsLimit(Step(s, events[0]), events[1..]);
    }
  }

  // ---------------------------------------------------------------- how many batches a run needs

  function CountTrue(s: seq<bool>): nat {
    if s == [] then 0 else (if s[0] then 1 else 0) + CountTrue(s[1..])
  }

  function BatchGas(batches: seq<seq<Entry>>): nat {
    if batches == [] then 0 else TotalGas(batches[0]) + BatchGas(batches[1..])
  }

  lemma {:induction false} BatchGasFlattens(batches: seq<seq<Entry>>)
    ensures BatchGas(batches) == TotalGas(Flatten(batches))
  {
    if batches != [] {
      BatchGasFlattens(batches[1..]);
      TotalGasConcat(batches[0], Flatten(batches[1..]));
    }
  }

  lemma OneMore(c: nat, limit: u64)
    ensures (c + 1) * limit == c * limit + limit
  {
  }

  lemma PairsOfTail(batches: seq<seq<Entry>>, byGas: seq<bool>, limit: u64)
    requires |byGas| == |batches| && batches != [] && PairsReach(batches, byGas, limit)
    ensures PairsReach(batches[1..], byGas[1..], limit)
  {
    var rest, flags := batches[1..], byGas[1..];
    forall i | 0 <= i < |flags| && flags[i]
      ensures i + 1 < |rest| && TotalGas(rest[i]) + TotalGas(rest[i + 1]) >= limit
    {
      assert byGas[i + 1] && rest[i + 1] == batches[i + 2];
    }
  }

  /** Each gas flush pairs two neighbours, and a batch has at most two neighbours. */
  lemma {:induction false} GasFlushBound(batches: seq<seq<Entry>>, byGas: seq<bool>, limit: u64)
    requires |byGas| == |batches| && PairsReach(batches, byGas, limit)
    ensures 2 * BatchGas(batches) >= CountTrue(byGas) * limit
    ensures batches != [] ==> 2 * BatchGas(batches) >= CountTrue(byGas) * limit + TotalGas(batches[0])
  {
    if batches != [] {
      PairsOfTail(batches, byGas, limit);
      GasFlushBound(batches[1..], byGas[1..], limit);
      OneMore(CountTrue(byGas[1..]), limit);
    }
  }

  lemma {:induction false} CountTrueSnoc(s: seq<bool>)
    ensures CountTrue(s + [false]) == CountTrue(s)
  {
    if s == [] { assert s + [false] == [false]; }
    else {
      assert (s + [false])[1..] == s[1..] + [false];
      CountTrueSnoc(s[1..]);
    }
  }

  /** All acknowledged gas: that of the delivered batches and of what is left undelivered. */
  lemma AcknowledgedGas(s: State)
    requires Conserved(s)
    ensures TotalGas(s.acked) == BatchGas(s.delivered + [Undelivered(s)]) == BatchGas(s.delivered) + TotalGas(Undelivered(s))
  {
    var d, u := Flatten(s.delivered), Undelivered(s);
    assert s.acked == d + u;
    FlattenSnoc(s.delivered, u);
    BatchGasFlattens(s.delivered + [u]);
    BatchGasFlattens(s.delivered);
    TotalGasConcat(d, u);
  }

  /** Over every run, failing ones included and with any ticks: each flush caused by gas accounts for half a
      limit of acknowledged gas. */
  lemma GasFlushesPaidFor(limit: u64, events: seq<Event>, last: Link)
    ensures var s := Run(limit, events, last);
            2 * TotalGas(s.acked) >= CountTrue(s.byGas) * limit
  {
    RunKeeps(limit, events, last);
    LoopKeepsLimit(Initial(limit), events);
    var s := Run(limit, events, last);
    GasFlushBound(s.delivered + [Undelivered(s)], s.byGas + [false], limit);
    CountTrueSnoc(s.byGas);
    AcknowledgedGas(s);
  }

  lemma {:induction false} PairBound(batches: seq<seq<Entry>>, limit: u64)
    requires forall i :: 0 <= i < |batches| - 1 ==>
               TotalGas(batches[i]) + TotalGas(batches[i + 1]) >= limit
    ensures BatchGas(batches) >= (|batches| / 2) * limit
    decreases |batches|
  {
    if |batches| >= 2 {
      var rest := batches[2..];
      forall i | 0 <= i < |rest| - 1
        ensures TotalGas(rest[i]) + TotalGas(rest[i + 1]) >= limit
      {
        assert rest[i] == batches[i + 2] && rest[i + 1] == batches[(i + 2) + 1];
      }
      PairBound(rest, limit);
      assert batches[1..][1..] == rest;
      assert TotalGas(batches[0]) + TotalGas(batches[1]) >= limit;
      assert (|rest| / 2 + 1) * limit == (|rest| / 2) * limit + limit;
    }
  }

  ghost predicate NoTicks(events: seq<Event>) {
    forall e :: e in events ==> !e.Tick?
  }

  ghost predicate AllTrue(s: seq<bool>) {
    forall i :: 0 <= i < |s| ==> s[i]
  }

  lemma {:induction false} NoTicksAllByGas(s: State, events: seq<Event>)
    requires NoTicks(events) && AllTrue(s.byGas)
    ensures AllTrue(Loop(s, events).byGas)
    decreases |events|
  {
    if events != [] && s.status.Running? {
      NoTicksAllByGas(Step(s, events[0]), events[1..]);
    }
  }

  /** How many batches the broadcaster was asked to send: those it accepted and the one it refused. */
  function Attempts(s: State): nat {
    |s.delivered| + if s.refused == [] then 0 else 1
  }

  /** The batches before the last one that was attempted went out because of gas. */
  ghost predicate EarlierByGas(s: State) {
    forall i :: 0 <= i < |s.byGas| && i + 1 < Attempts(s) ==> s.byGas[i]
  }

  lemma CleanUpByGas(s: State, last: Link)
    requires Inv(s) && AllTrue(s.byGas)
    ensures EarlierByGas(CleanUp(s, last))
  {
  }

  lemma AttemptsBound(s: State)
    requires Inv(s) && EarlierByGas(s)
    ensures TotalGas(s.acked) >= (Attempts(s) / 2) * s.limit
  {
    AcknowledgedGas(s);
    var all := s.delivered + [Undelivered(s)];
    if s.refused == [] {
      forall i | 0 <= i < |s.delivered| - 1
        ensures TotalGas(s.delivered[i]) + TotalGas(s.delivered[i + 1]) >= s.limit
      {
        assert s.byGas[i] && TotalGas(all[i]) + TotalGas(all[i + 1]) >= s.limit;
      }
      PairBound(s.delivered, s.limit);
    } else {
      forall i | 0 <= i < |all| - 1 ensures TotalGas(all[i]) + TotalGas(all[i + 1]) >= s.limit {
        assert s.byGas[i];
      }
      PairBound(all, s.limit);
    }
  }

  /** Without timer ticks, k batches, the final flush and a refused batch included, account for at least
      floor(k/2) limits of acknowledged gas, in failing runs too. */
  lemma BatchCountBound(limit: u64, events: seq<Event>, last: Link)
    requires NoTicks(events)
    ensures var s := Run(limit, events, last);
            TotalGas(s.acked) >= (Attempts(s) / 2) * limit
  {
    RunKeeps(limit, events, last);
    LoopKeepsLimit(Initial(limit), events);
    NoTicksAllByGas(Initial(limit), events);
    CleanUpByGas(Loop(Initial(limit), events), last);
    AttemptsBound(Run(limit, events, last));
  }
}

/** Which batches go out on which link, told from the events alone: without a counter, a state or a flush. */
module BroadcastPlan {
  import opened Ints
  import opened Outcomes
  import opened Sums
  import opened MsgQueues
  import opened BroadcastLoop

  /** A batch, and the link on which it goes out. */
  datatype Out = Out(batch: seq<Entry>, link: Link)

  /** The batches that go out when these events find `queue` waiting: the queue goes out when the next message
      would not leave it below the limit, on a tick, and when the clients are gone. A client that is gone ends
      the run, and so does a batch whose hash cannot be passed on. */
  function Outs(queue: seq<Entry>, limit: u64, events: seq<Event>, last: Link): seq<Out>
    decreases |events|
  {
    if events == [] then (if queue == [] then [] else [Out(queue, last)])
    else
      var rest := events[1..];
      match events[0]
      case Response => Outs(queue, limit, rest, last)
      case Tick(link) =>
        if queue == [] then Outs([], limit, rest, last)
        else if link.Sent? then [Out(queue, link)] + Outs([], limit, rest, last)
        else [Out(queue, link)]
      case Arrival(_, _, true, _) => []
      case Arrival(_, None, false, _) => Outs(queue, limit, rest, last)
      case Arrival(msg, Some(fee), false, link) =>
        if queue == [] || TotalGas(queue) + fee < limit then Outs(queue + [Entry(msg, fee)], limit, rest, last)
        else if link.Sent? then [Out(queue, link)] + Outs([Entry(msg, fee)], limit, rest, last)
        else [Out(queue, link)]
  }

  /** The batches the broadcaster accepts. */
  function Accepted(outs: seq<Out>): seq<seq<Entry>> {
    if outs == [] then []
    else (if outs[0].link.Rejected? then [] else [outs[0].batch]) + Accepted(outs[1..])
  }

  /** What the broadcaster refuses. */
  function RefusedOf(outs: seq<Out>): seq<Entry> {
    if outs == [] then []
    else (if outs[0].link.Rejected? then outs[0].batch else []) + RefusedOf(outs[1..])
  }

  /** The hashes it answers with and the confirmer gets. */
  function HashesOf(outs: seq<Out>): seq<string> {
    if outs == [] then []
    else (if outs[0].link.Sent? then [outs[0].link.hash] else []) + HashesOf(outs[1..])
  }

  /** `r` has sent these batches since `s`, and nothing else. */
  ghost predicate SentSince(s: State, r: State, outs: seq<Out>) {
    && r.delivered == s.delivered + Accepted(outs)
    && r.hashes == s.hashes + HashesOf(outs)
    && r.refused == RefusedOf(outs)
  }

  lemma {:induction false} OneOut(s: State, link: Link, byGas: bool)
    requires s.queue != [] && s.refused == []
    ensures SentSince(s, Flush(s, link, byGas), [Out(s.queue, link)])
  {
    var outs := [Out(s.queue, link)];
    assert outs[1..] == [];
    assert RefusedOf([]) == [] && HashesOf([]) == [] && Accepted([]) == [];
  }

  lemma {:induction false} SentNothing(s: State)
    requires s.refused == []
    ensures SentSince(s, s, [])
  {
    assert s.delivered + [] == s.delivered && s.hashes + [] == s.hashes;
  }

  lemma {:induction false} SentThen(s: State, t: State, r: State, first: Out, rest: seq<Out>)
    requires SentSince(s, t, [first]) && SentSince(t, r, rest) && t.refused == []
    ensures SentSince(s, r, [first] + rest)
  {
    var outs := [first] + rest;
    assert outs[0] == first && outs[1..] == rest;
    assert [first][1..] == [];
    assert Accepted(outs) == Accepted([first]) + Accepted(rest);
    assert HashesOf(outs) == HashesOf([first]) + HashesOf(rest);
  }

  /** A step that sends nothing. */
  lemma {:induction false} QuietStep(s: State, event: Event, last: Link, rest: seq<Event>, r: State)
    requires Inv(s) && s.status.Running? && Outgoing(s, event).None? && Step(s, event).status.Running?
    requires SentSince(Step(s, event), r, Outs(Step(s, event).queue, s.limit, rest, last))
    ensures SentSince(s, r, Outs(s.queue, s.limit, [event] + rest, last))
  {
    var events := [event] + rest;
    assert events[0] == event && events[1..] == rest;
  }

  /** A step that sends the queue, and goes on. */
  lemma {:induction false} SendingStep(s: State, event: Event, last: Link, rest: seq<Event>, r: State)
    requires Inv(s) && s.status.Running? && Outgoing(s, event).Some? && Outgoing(s, event).value.Sent?
    requires SentSince(Step(s, event), r, Outs(Step(s, event).queue, s.limit, rest, last))
    ensures SentSince(s, r, Outs(s.queue, s.limit, [event] + rest, last))
  {
    var events, link, t := [event] + rest, Outgoing(s, event).value, Step(s, event);
    assert events[0] == event && events[1..] == rest;
    OneOut(s, link, event.Arrival?);
    assert SentSince(s, t, [Out(s.queue, link)]);
    SentThen(s, t, r, Out(s.queue, link), Outs(t.queue, s.limit, rest, last));
    if event.Arrival? { assert [] + [Entry(event.msg, event.estimate.value)] == [Entry(event.msg, event.estimate.value)]; }
  }

  /** A step that ends the loop. */
  lemma {:induction false} LastStep(s: State, event: Event, last: Link, rest: seq<Event>)
    requires Inv(s) && s.status.Running? && !Step(s, event).status.Running?
    ensures SentSince(s, Step(s, event), Outs(s.queue, s.limit, [event] + rest, last))
  {
    var events := [event] + rest;
    assert events[0] == event && events[1..] == rest;
    StepKeeps(s, event);
    if Outgoing(s, event).Some? { OneOut(s, Outgoing(s, event).value, event.Arrival?); }
    else { SentNothing(s); }
  }

  lemma {:induction false} Outgo(s: State, event: Event)
    requires Inv(s) && s.status.Running?
    ensures !Step(s, event).status.Running? <==>
              (event.Arrival? && event.clientGone) || (Outgoing(s, event).Some? && !Outgoing(s, event).value.Sent?)
    ensures Step(s, event).limit == s.limit
  {
    StepKeeps(s, event);
  }

  lemma {:induction false} LoopFollowsPlan(s: State, events: seq<Event>, last: Link)
    requires Inv(s) && s.status.Running?
    ensures SentSince(s, CleanUp(Loop(s, events), last), Outs(s.queue, s.limit, events, last))
    decreases |events|
  {
    if events == [] {
      if s.queue == [] { SentNothing(s); } else { OneOut(s, last, false); }
    } else {
      var event, rest := events[0], events[1..];
      var t := Step(s, event);
      assert events == [event] + rest;
      StepKeeps(s, event);
      Outgo(s, event);
      if !t.status.Running? { LastStep(s, event, last, rest); }
      else {
        LoopFollowsPlan(t, rest, last);
        var r := CleanUp(Loop(t, rest), last);
        if Outgoing(s, event).None? { QuietStep(s, event, last, rest, r); }
        else { SendingStep(s, event, last, rest, r); }
      }
    }
  }

  /** Over every run: the batches sent, the hashes handed to the confirmer and the batch refused are, in order,
      those of the batches that go out by the events. */
  lemma {:induction false} RunFollowsPlan(limit: u64, events: seq<Event>, last: Link)
    ensures var s, outs := Run(limit, events, last), Outs([], limit, events, last);
            && s.delivered == Accepted(outs)
            && s.hashes == HashesOf(outs)
            && s.refused == RefusedOf(outs)
  {
    LoopFollowsPlan(Initial(limit), events, last);
  }

  /** Only the last batch can fail. */
  lemma {:induction false} OnlyLastFails(queue: seq<Entry>, limit: u64, events: seq<Event>, last: Link, i: nat)
    requires i + 1 < |Outs(queue, limit, events, last)|
    ensures Outs(queue, limit, events, last)[i].link.Sent?
    decreases |events|
  {
    var event, rest, outs := events[0], events[1..], Outs(queue, limit, events, last);
    match event {
      case Response => OnlyLastFails(queue, limit, rest, last, i);
      case Tick(link) =>
        if queue == [] { OnlyLastFails([], limit, rest, last, i); }
        else if i > 0 {
          OnlyLastFails([], limit, rest, last, i - 1);
        }
      case Arrival(_, None, _, _) => OnlyLastFails(queue, limit, rest, last, i);
      case Arrival(msg, Some(fee), _, link) =>
        if queue == [] || TotalGas(queue) + fee < limit {
          OnlyLastFails(queue + [Entry(msg, fee)], limit, rest, last, i);
        } else if i > 0 {
          OnlyLastFails([Entry(msg, fee)], limit, rest, last, i - 1);
        }
    }
  }

  lemma {:induction false} HashAt(outs: seq<Out>, i: nat)
    requires forall k :: 0 <= k < |outs| - 1 ==> outs[k].link.Sent?
    requires i < |HashesOf(outs)|
    ensures i < |Accepted(outs)| && i < |outs|
    ensures outs[i] == Out(Accepted(outs)[i], Sent(HashesOf(outs)[i]))
  {
    if i > 0 {
      var rest := outs[1..];
      forall k | 0 <= k < |rest| - 1 ensures rest[k].link.Sent? { assert rest[k] == outs[k + 1]; }
      HashAt(rest, i - 1);
    }
  }

  /** The i-th hash handed to the confirmer is the one the broadcaster answered with for the i-th batch. */
  lemma {:induction false} HashBelongsToBatch(limit: u64, events: seq<Event>, last: Link, i: nat)
    requires i < |Run(limit, events, last).hashes|
    ensures var s, outs := Run(limit, events, last), Outs([], limit, events, last);
            && i < |s.delivered| && i < |outs|
            && outs[i] == Out(s.delivered[i], Sent(s.hashes[i]))
  {
    RunFollowsPlan(limit, events, last);
    var outs := Outs([], limit, events, last);
    forall k | 0 <= k < |outs| - 1 ensures outs[k].link.Sent? { OnlyLastFails([], limit, events, last, k); }
    HashAt(outs, i);
  }

  /** A tick whose broadcast succeeds turns a waiting queue into one batch with its hash, and nothing else. */
  lemma {:induction false} TickSends(s: State, hash: string)
    requires s.status.Running? && s.queue != []
    ensures var t := Step(s, Tick(Sent(hash)));
            && t.queue == [] && t.gas == 0 && t.status.Running? && t.limit == s.limit
            && t.delivered == s.delivered + [s.queue] && t.hashes == s.hashes + [hash]
            && t.acked == s.acked && t.refused == s.refused && t.dropped == s.dropped
  {
  }
}

/** The loop as the object that runs it. */
module QueuedBroadcasters {
  import opened Ints
  import opened Outcomes
  import opened MsgQueues
  import opened BroadcastLoop

  function Batches(s: seq<seq<Entry>>): (r: seq<seq<Any>>)
    ensures |r| == |s| && forall i :: 0 <= i < |s| ==> r[i] == Messages(s[i])
  {
    seq(|s|, i requires 0 <= i < |s| => Messages(s[i]))
  }

  class QueuedBroadcaster {
    const batchGasLimit: u64
    const queue: MsgQueue
    var channelOpen: bool
    /** what the underlying broadcaster has accepted, and the hashes passed to the confirmer */
    var broadcasts: seq<seq<Any>>
    var txHashes: seq<string>
    ghost var model: State

    ghost predicate Valid()
      reads this, queue
    {
      && Inv(model)
      && model.limit == batchGasLimit
      && queue.Valid()
      && queue.entries == model.queue
      && broadcasts == Batches(model.delivered)
      && txHashes == model.hashes
    }

    constructor (limit: u64)
      ensures Valid() && fresh(queue) && model == Initial(limit) && !channelOpen
    {
      batchGasLimit := limit;
      queue := new MsgQueue();
      channelOpen := false;
      broadcasts, txHashes := [], [];
      model := Initial(limit);
    }

    /** Hands out a client, opening the channel on first use. */
    method Connect()
      requires Valid()
      modifies this`channelOpen
      ensures Valid() && channelOpen
    {
      channelOpen := true;
    }

    method BroadcastAll(link: Link, ghost byGas: bool) returns (r: Result<(), Error>)
      requires queue.Valid() && model.status.Running?
      requires queue.entries == model.queue && broadcasts == Batches(model.delivered) && txHashes == model.hashes
      modifies this`broadcasts, this`txHashes, this`model, queue
      ensures queue.Valid()
      ensures queue.entries == model.queue && broadcasts == Batches(model.delivered) && txHashes == model.hashes
      ensures model == Flush(old(model), link, byGas)
      ensures model.status == if r.Ok? then Running else Failed(r.error)
    {
      var msgs := queue.PopAll();
      model := Flush(model, link, byGas);
      if |msgs| == 0 {
        return Ok(());
      }
      if link.Rejected? {
        return Err(Error.Broadcast);
      }
      broadcasts := broadcasts + [msgs];
      match link {
        case ConfirmerGone(_) =>
          return Err(TxConfirmation);
        case Sent(hash) =>
          txHashes := txHashes + [hash];
          return Ok(());
      }
    }

    method HandleArrival(msg: Any, estimate: Option<u64>, clientGone: bool, link: Link)
      returns (r: Result<(), Error>)
      requires Valid() && model.status.Running?
      modifies this`broadcasts, this`txHashes, this`model, queue
      ensures Valid()
      ensures model == HandleMsg(old(model), msg, estimate, clientGone, link)
      ensures model.status == if r.Ok? then Running else Failed(r.error)
    {
      StepKeeps(model, Arrival(msg, estimate, clientGone, link));
      if clientGone {
        model := model.(status := Failed(Client));
        return Err(Client);
      }
      if estimate.None? {
        return Ok(());
      }
      var fee := estimate.value;
      ghost var e := Entry(msg, fee);
      ghost var before := model;
      model := model.(acked := model.acked + [e]);
      if SaturatingAdd64(fee, queue.gasCost) >= batchGasLimit {
        FlushMakesRoom(before, e, link);
        r := BroadcastAll(link, true);
        if r.Err? {
          model := model.(dropped := [e]);
          return;
        }
      } else {
        NoFlushNeeded(before, e);
      }
      EnqueueKeeps(model, e);
      model := Enqueue(model, e);
      var ok := queue.Push(msg, fee);
      r := if ok then Ok(()) else Err(Error.Queue);
    }

    method HandleEvent(event: Event) returns (r: Result<(), Error>)
      requires Valid() && model.status.Running?
      modifies this`broadcasts, this`txHashes, this`model, queue
      ensures Valid()
      ensures model == Step(old(model), event)
      ensures model.status == if r.Ok? then Running else Failed(r.error)
    {
      match event {
        case Arrival(msg, estimate, clientGone, link) =>
          r := HandleArrival(msg, estimate, clientGone, link);
        case Tick(link) =>
          FlushKeeps(model, link);
          r := BroadcastAll(link, false);
        case Response =>
          r := Ok(());
      }
    }

    /** The whole event loop and the clean-up that follows it. */
    method RunLoop(events: seq<Event>, last: Link) returns (r: Result<(), Error>)
      requires Valid() && model == Initial(batchGasLimit)
      modifies this, queue
      ensures !old(channelOpen) ==> r == Err(NoClients) && model == old(model)
      ensures old(channelOpen) ==>
                && model == Run(batchGasLimit, events, last)
                && model.status == (if r.Ok? then Finished else Failed(r.error))
      ensures Valid()
    {
      if !channelOpen {
        return Err(NoClients);
      }
      channelOpen := false;
      var i := 0;
      while i < |events|
        invariant 0 <= i <= |events|
        invariant Valid() && model.status.Running?
        invariant Loop(model, events[i..]) == Loop(old(model), events)
      {
        assert events[i..][1..] == events[i + 1..];
        r := HandleEvent(events[i]);
        if r.Err? {
          return;
        }
        i := i + 1;
      }
      assert events[|events|..] == [];
      CleanUpKeeps(model, last);
      r := BroadcastAll(last, false);
      if r.Ok? {
        model := model.(status := Finished);
      }
    }
  }
}
