/** The block stream: block begin and end markers around a block's events. */
module BlockStreams {
  import opened Outcomes

  datatype Event = BlockBegin(height: nat) | BlockEnd(height: nat) | Abci(payload: string)

  /** What a client returns for a block; an event that cannot be decoded is None. */
  datatype BlockResults = BlockResults(
    begin: Option<seq<Option<string>>>,
    txs: Option<seq<seq<Option<string>>>>,
    end: Option<seq<Option<string>>>)

  function Decoded(raw: seq<Option<string>>): (r: Option<seq<Event>>)
    ensures r.Some? <==> forall i :: 0 <= i < |raw| ==> raw[i].Some?
    ensures r.Some? ==> |r.value| == |raw|
    ensures r.Some? ==> forall i :: 0 <= i < |raw| ==> r.value[i] == Abci(raw[i].value)
  {
    if raw == [] then Some([])
    else if raw[0].None? then None
    else
      var rest := Decoded(raw[1..]);
      if rest.None? then None else Some([Abci(raw[0].value)] + rest.value)
  }

  function Joined(s: seq<seq<Option<string>>>): seq<Option<string>> {
    if s == [] then [] else s[0] + Joined(s[1..])
  }

  /** The events of a block in order: begin-block, transactions, end-block. */
  function EventsOf(r: BlockResults): Option<seq<Event>> {
    Decoded(r.begin.GetOr([]) + Joined(r.txs.GetOr([])) + r.end.GetOr([]))
  }

  lemma {:induction false} JoinedAt(s: seq<seq<Option<string>>>, j: nat, k: nat)
    requires j < |s| && k < |s[j]|
    ensures |Joined(s[..j])| + k < |Joined(s)| && Joined(s)[|Joined(s[..j])| + k] == s[j][k]
    decreases |s|
  {
    if j > 0 {
      assert s[..j][0] == s[0] && s[..j][1..] == s[1..][..j - 1];
      JoinedAt(s[1..], j - 1, k);
    }
  }

  /** Every event of a decodable block is published, at its place: begin-block events first, then each
      transaction's events in order, then end-block events. */
  lemma {:induction false} EventPlaces(r: BlockResults, j: nat, k: nat)
    requires EventsOf(r).Some?
    ensures var begin, txs, end := r.begin.GetOr([]), r.txs.GetOr([]), r.end.GetOr([]);
            var events := EventsOf(r).value;
            && |events| == |begin| + |Joined(txs)| + |end|
            && (k < |begin| ==> begin[k].Some? && events[k] == Abci(begin[k].value))
            && (k < |end| ==> end[k].Some? && events[|begin| + |Joined(txs)| + k] == Abci(end[k].value))
            && (j < |txs| && k < |txs[j]| ==>
                  && txs[j][k].Some? && |Joined(txs[..j])| + k < |Joined(txs)|
                  && events[|begin| + |Joined(txs[..j])| + k] == Abci(txs[j][k].value))
  {
    var begin, txs, end := r.begin.GetOr([]), r.txs.GetOr([]), r.end.GetOr([]);
    var all := begin + Joined(txs) + end;
    if k < |begin| { assert all[k] == begin[k]; }
    if k < |end| { assert all[|begin| + |Joined(txs)| + k] == end[k]; }
    if j < |txs| && k < |txs[j]| {
      JoinedAt(txs, j, k);
      assert all[|begin| + |Joined(txs[..j])| + k] == txs[j][k];
    }
  }

  /** One published block. */
  function Framed(height: nat, events: seq<Event>): seq<Event> {
    [BlockBegin(height)] + events + [BlockEnd(height)]
  }

  ghost predicate Plain(events: seq<Event>) {
    forall i :: 0 <= i < |events| ==> events[i].Abci?
  }

  /** The events of the open block, if any, while reading a stream of whole blocks from the left: None
      between blocks, Some(h) inside block h; `ok` turns false on a misplaced marker. */
  datatype Reader = Reader(ok: bool, open: Option<nat>)

  function Read(r: Reader, e: Event): Reader {
    match e
    case BlockBegin(h) => Reader(r.ok && r.open == None, Some(h))
    case BlockEnd(h) => Reader(r.ok && r.open == Some(h), None)
    case Abci(_) => Reader(r.ok && r.open.Some?, r.open)
  }

  function ReadAll(r: Reader, s: seq<Event>): Reader
    decreases |s|
  {
    if s == [] then r else ReadAll(Read(r, s[0]), s[1..])
  }

  /** A sequence of whole blocks: matching markers, every event between them. */
  predicate WholeBlocks(s: seq<Event>) {
    ReadAll(Reader(true, None), s) == Reader(true, None)
  }

  lemma {:induction false} ReadConcat(r: Reader, s: seq<Event>, t: seq<Event>)
    ensures ReadAll(r, s + t) == ReadAll(ReadAll(r, s), t)
    decreases |s|
  {
    if s == [] { assert s + t == t; }
    else {
      assert (s + t)[0] == s[0] && (s + t)[1..] == s[1..] + t;
      ReadConcat(Read(r, s[0]), s[1..], t);
    }
  }

  lemma {:induction false} ReadPlain(h: nat, s: seq<Event>)
    requires Plain(s)
    ensures ReadAll(Reader(true, Some(h)), s) == Reader(true, Some(h))
    decreases |s|
  {
    if s != [] { ReadPlain(h, s[1..]); }
  }

  lemma {:induction false} FramedIsWhole(height: nat, events: seq<Event>)
    requires Plain(events)
    ensures WholeBlocks(Framed(height, events))
  {
    var start := Reader(true, None);
    ReadPlain(height, events);
    ReadConcat(start, [BlockBegin(height)], events);
    ReadConcat(start, [BlockBegin(height)] + events, [BlockEnd(height)]);
  }

  lemma {:induction false} WholeConcat(s: seq<Event>, t: seq<Event>)
    requires WholeBlocks(s) && WholeBlocks(t)
    ensures WholeBlocks(s + t)
  {
    ReadConcat(Reader(true, None), s, t);
  }

  lemma {:induction false} BadStaysBad(r: Reader, s: seq<Event>)
    requires !r.ok
    ensures !ReadAll(r, s).ok
    decreases |s|
  {
    if s != [] { BadStaysBad(Read(r, s[0]), s[1..]); }
  }

  /** Cutting a stream of whole blocks behind any end marker leaves whole blocks. */
  lemma {:induction false} CutAtBlockEnd(s: seq<Event>, t: seq<Event>)
    requires WholeBlocks(s + t) && s != [] && s[|s| - 1].BlockEnd?
    ensures WholeBlocks(s)
  {
    var start, n := Reader(true, None), |s| - 1;
    ReadConcat(start, s, t);
    var r := ReadAll(start, s);
    if !r.ok { BadStaysBad(r, t); }
    assert s == s[..n] + [s[n]];
    ReadConcat(start, s[..n], [s[n]]);
  }
}

/** What a stream must hold for the blocks of a chain: the markers, and every event of a block's results
    between them. */
module ChainEvents {
  import opened Outcomes
  import opened BlockStreams

  function Abcis(raw: seq<Option<string>>): seq<Event> {
    if raw == [] then [] else [Abci(raw[0].GetOr(""))] + Abcis(raw[1..])
  }

  function TxAbcis(txs: seq<seq<Option<string>>>): seq<Event> {
    if txs == [] then [] else TxAbcis(txs[..|txs| - 1]) + Abcis(txs[|txs| - 1])
  }

  /** A block of the chain: begin marker, begin-block events, the events of each transaction, end-block events,
      end marker. */
  function Block(height: nat, r: BlockResults): seq<Event> {
    [BlockBegin(height)] + (Abcis(r.begin.GetOr([])) + TxAbcis(r.txs.GetOr([])) + Abcis(r.end.GetOr([]))) + [BlockEnd(height)]
  }

  /** The blocks of these heights, one after the other. */
  function Blocks(heights: seq<nat>, chain: nat -> BlockResults): seq<Event>
    decreases |heights|
  {
    if heights == [] then []
    else Blocks(heights[..|heights| - 1], chain) + Block(heights[|heights| - 1], chain(heights[|heights| - 1]))
  }

  // ---------------------------------------------------------------- where the events of a block stand

  /** How many events the transactions before the j-th one have. */
  function EventsBefore(txs: seq<seq<Option<string>>>, j: nat): nat
    requires j <= |txs|
  {
    if j == 0 then 0 else EventsBefore(txs, j - 1) + |txs[j - 1]|
  }

  lemma {:induction false} AbcisAt(raw: seq<Option<string>>)
    ensures |Abcis(raw)| == |raw| && forall k :: 0 <= k < |raw| ==> Abcis(raw)[k] == Abci(raw[k].GetOr(""))
  {
    if raw != [] { AbcisAt(raw[1..]); }
  }

  lemma {:induction false} EventsBeforePrefix(txs: seq<seq<Option<string>>>, n: nat, j: nat)
    requires j <= n <= |txs|
    ensures EventsBefore(txs[..n], j) == EventsBefore(txs, j)
    decreases j
  {
    if j > 0 { EventsBeforePrefix(txs, n, j - 1); }
  }

  lemma {:induction false} TxAbcisLength(txs: seq<seq<Option<string>>>)
    ensures |TxAbcis(txs)| == EventsBefore(txs, |txs|)
    decreases |txs|
  {
    if txs != [] {
      var n := |txs| - 1;
      TxAbcisLength(txs[..n]);
      EventsBeforePrefix(txs, n, n);
      AbcisAt(txs[n]);
    }
  }

  lemma {:induction false} TxAbcisAt(txs: seq<seq<Option<string>>>, j: nat, k: nat)
    requires j < |txs| && k < |txs[j]|
    ensures EventsBefore(txs, j) + k < |TxAbcis(txs)|
    ensures TxAbcis(txs)[EventsBefore(txs, j) + k] == Abci(txs[j][k].GetOr(""))
    decreases |txs|
  {
    var n := |txs| - 1;
    TxAbcisLength(txs[..n]);
    AbcisAt(txs[n]);
    EventsBeforePrefix(txs, n, n);
    if j < n {
      TxAbcisAt(txs[..n], j, k);
      EventsBeforePrefix(txs, n, j);
    }
  }

  /** Every event of the results stands in the block at its place: begin-block events first, then transaction by
      transaction, end-block events last, the markers around them, and nothing else. */
  lemma {:induction false} BlockHolds(height: nat, r: BlockResults, j: nat, k: nat)
    ensures var begin, txs, end := r.begin.GetOr([]), r.txs.GetOr([]), r.end.GetOr([]);
            var b, n := Block(height, r), |begin| + EventsBefore(txs, |txs|) + |end|;
            && |b| == n + 2 && b[0] == BlockBegin(height) && b[n + 1] == BlockEnd(height)
            && (k < |begin| ==> b[1 + k] == Abci(begin[k].GetOr("")))
            && (j < |txs| && k < |txs[j]| ==>
                  && EventsBefore(txs, j) + k < EventsBefore(txs, |txs|)
                  && b[1 + |begin| + EventsBefore(txs, j) + k] == Abci(txs[j][k].GetOr("")))
            && (k < |end| ==> b[1 + |begin| + EventsBefore(txs, |txs|) + k] == Abci(end[k].GetOr("")))
  {
    var begin, txs, end := r.begin.GetOr([]), r.txs.GetOr([]), r.end.GetOr([]);
    AbcisAt(begin);
    AbcisAt(end);
    TxAbcisLength(txs);
    if j < |txs| && k < |txs[j]| { TxAbcisAt(txs, j, k); }
  }

  // ---------------------------------------------------------------- what a decoded block is

  lemma {:induction false} AbcisConcat(a: seq<Option<string>>, b: seq<Option<string>>)
    ensures Abcis(a + b) == Abcis(a) + Abcis(b)
    decreases |a|
  {
    if a == [] { assert a + b == b; }
    else {
      assert (a + b)[0] == a[0] && (a + b)[1..] == a[1..] + b;
      AbcisConcat(a[1..], b);
    }
  }

  lemma {:induction false} JoinedSnoc(s: seq<seq<Option<string>>>, x: seq<Option<string>>)
    ensures Joined(s + [x]) == Joined(s) + x
    decreases |s|
  {
    if s == [] {
      assert s + [x] == [x] && [x][1..] == [];
    } else {
      assert (s + [x])[0] == s[0] && (s + [x])[1..] == s[1..] + [x];
      JoinedSnoc(s[1..], x);
    }
  }

  lemma {:induction false} JoinedAbcis(txs: seq<seq<Option<string>>>)
    ensures Abcis(Joined(txs)) == TxAbcis(txs)
    decreases |txs|
  {
    if txs != [] {
      var n := |txs| - 1;
      assert txs == txs[..n] + [txs[n]];
      JoinedAbcis(txs[..n]);
      JoinedSnoc(txs[..n], txs[n]);
      AbcisConcat(Joined(txs[..n]), txs[n]);
    }
  }

  lemma {:induction false} DecodedAbcis(raw: seq<Option<string>>)
    requires Decoded(raw).Some?
    ensures Decoded(raw).value == Abcis(raw)
  {
    AbcisAt(raw);
  }

  /** What is framed and sent for a block is the block of the chain. */
  lemma {:induction false} FramedIsBlock(height: nat, r: BlockResults)
    requires EventsOf(r).Some?
    ensures Framed(height, EventsOf(r).value) == Block(height, r)
  {
    var begin, txs, end := r.begin.GetOr([]), Joined(r.txs.GetOr([])), r.end.GetOr([]);
    DecodedAbcis(begin + txs + end);
    AbcisConcat(begin + txs, end);
    AbcisConcat(begin, txs);
    JoinedAbcis(r.txs.GetOr([]));
  }

  // ---------------------------------------------------------------- parts of a chain

  lemma {:induction false} BlocksSnoc(heights: seq<nat>, height: nat, chain: nat -> BlockResults)
    ensures Blocks(heights + [height], chain) == Blocks(heights, chain) + Block(height, chain(height))
  {
    assert (heights + [height])[..|heights|] == heights;
  }

  lemma {:induction false} AbcisPlain(raw: seq<Option<string>>)
    ensures Plain(Abcis(raw))
  {
    AbcisAt(raw);
  }

  lemma {:induction false} TxAbcisPlain(txs: seq<seq<Option<string>>>)
    ensures Plain(TxAbcis(txs))
    decreases |txs|
  {
    if txs != [] {
      TxAbcisPlain(txs[..|txs| - 1]);
      AbcisPlain(txs[|txs| - 1]);
    }
  }

  /** The events between the markers. */
  lemma {:induction false} BlockInside(height: nat, r: BlockResults) returns (events: seq<Event>)
    ensures Block(height, r) == Framed(height, events) && Plain(events)
  {
    events := Abcis(r.begin.GetOr([])) + TxAbcis(r.txs.GetOr([])) + Abcis(r.end.GetOr([]));
    AbcisPlain(r.begin.GetOr([]));
    TxAbcisPlain(r.txs.GetOr([]));
    AbcisPlain(r.end.GetOr([]));
  }

  lemma {:induction false} BlocksAreWhole(heights: seq<nat>, chain: nat -> BlockResults)
    ensures WholeBlocks(Blocks(heights, chain))
    decreases |heights|
  {
    if heights != [] {
      var n := |heights| - 1;
      BlocksAreWhole(heights[..n], chain);
      var events := BlockInside(heights[n], chain(heights[n]));
      FramedIsWhole(heights[n], events);
      WholeConcat(Blocks(heights[..n], chain), Block(heights[n], chain(heights[n])));
    }
  }

  /** A cut inside a block does not leave whole blocks. */
  lemma {:induction false} CutInside(front: seq<Event>, height: nat, events: seq<Event>, k: nat)
    requires WholeBlocks(front) && Plain(events) && 0 < k < |events| + 2
    ensures !WholeBlocks(front + Framed(height, events)[..k])
  {
    var block := Framed(height, events);
    var some := events[..k - 1];
    assert block[..k] == [BlockBegin(height)] + some;
    ReadConcat(Reader(true, None), front, block[..k]);
    ReadConcat(Reader(true, None), [BlockBegin(height)], some);
    ReadPlain(height, some);
    assert [BlockBegin(height)][1..] == [];
  }

  /** Whoever has received whole blocks from the start of a chain has received the blocks of its first heights. */
  lemma {:induction false} WholePrefix(p: seq<Event>, heights: seq<nat>, chain: nat -> BlockResults) returns (n: nat)
    requires p <= Blocks(heights, chain) && WholeBlocks(p)
    ensures n <= |heights| && p == Blocks(heights[..n], chain)
    decreases |heights|
  {
    var all := Blocks(heights, chain);
    if |p| == |all| {
      n := |heights|;
      assert heights[..n] == heights;
    } else {
      var m := |heights| - 1;
      var front := Blocks(heights[..m], chain);
      var events := BlockInside(heights[m], chain(heights[m]));
      var k := |p| - |front|;
      if k > 0 {
        assert p == front + Framed(heights[m], events)[..k];
        BlocksAreWhole(heights[..m], chain);
        CutInside(front, heights[m], events, k);
      }
      assert p <= front;
      n := WholePrefix(p, heights[..m], chain);
      assert heights[..m][..n] == heights[..n];
    }
  }

  lemma {:induction false} Associative(a: seq<Event>, b: seq<Event>, c: seq<Event>)
    ensures (a + b) + c == a + (b + c)
  {
  }

  /** Parts of a chain that follow each other are the blocks of heights that follow each other. */
  lemma {:induction false} BlocksBetween(heights: seq<nat>, chain: nat -> BlockResults, i: nat, j: nat)
    requires i <= j <= |heights|
    ensures Blocks(heights[..i], chain) + Blocks(heights[i..j], chain) == Blocks(heights[..j], chain)
    decreases j
  {
    if i < j {
      BlocksBetween(heights, chain, i, j - 1);
      var h, block := heights[j - 1], Block(heights[j - 1], chain(heights[j - 1]));
      assert heights[..j] == heights[..j - 1] + [h];
      assert heights[i..j] == heights[i..j - 1] + [h];
      BlocksSnoc(heights[..j - 1], h, chain);
      BlocksSnoc(heights[i..j - 1], h, chain);
      Associative(Blocks(heights[..i], chain), Blocks(heights[i..j - 1], chain), block);
      assert Blocks(heights[..j], chain) == Blocks(heights[..j - 1], chain) + block;
      assert Blocks(heights[i..j], chain) == Blocks(heights[i..j - 1], chain) + block;
    } else {
      assert heights[i..j] == [];
      assert Blocks(heights[..i], chain) + [] == Blocks(heights[..i], chain);
    }
  }

  lemma {:induction false} BlocksGrow(heights: seq<nat>, chain: nat -> BlockResults, i: nat, j: nat)
    requires i < j <= |heights|
    ensures |Blocks(heights[..i], chain)| < |Blocks(heights[..j], chain)|
    decreases j
  {
    assert heights[..j] == heights[..j - 1] + [heights[j - 1]];
    BlocksSnoc(heights[..j - 1], heights[j - 1], chain);
    if i < j - 1 { BlocksGrow(heights, chain, i, j - 1); }
  }

  /** What is received between two block borders of a chain are the blocks of some heights in between. */
  lemma {:induction false} WholePart(missed: seq<Event>, part: seq<Event>, heights: seq<nat>, chain: nat -> BlockResults)
    returns (i: nat, j: nat)
    requires missed + part <= Blocks(heights, chain) && WholeBlocks(missed) && WholeBlocks(part)
    ensures i <= j <= |heights| && missed == Blocks(heights[..i], chain) && part == Blocks(heights[i..j], chain)
  {
    assert missed <= missed + part;
    WholeConcat(missed, part);
    i := WholePrefix(missed, heights, chain);
    j := WholePrefix(missed + part, heights, chain);
    if j < i { BlocksGrow(heights, chain, j, i); }
    BlocksBetween(heights, chain, i, j);
    assert missed + part == missed + Blocks(heights[i..j], chain);
    assert part == (missed + part)[|missed|..];
  }
}

/** The publisher's polling loop (ampd/src/event_sub.rs). */
module Publishing {
  import opened Outcomes
  import opened BlockStreams
  import opened ChainEvents

  datatype Error = Rpc | EventQuery | EventDecoding

  /** What the publisher sees while it handles one height: whether anyone is subscribed, the block's
      results if the client answers, and whether the token is cancelled afterwards. */
  datatype View = View(receivers: bool, results: Option<BlockResults>, cancelled: bool)

  /** One firing of the poll interval: the latest height, if the client answers, and a view per height. */
  datatype Tick = Tick(latest: Option<nat>, view: nat -> View)

  /** What handling one block publishes. */
  function BlockEvents(height: nat, v: View): Result<seq<Event>, Error> {
    if !v.receivers then Ok([])
    else match v.results
    case None => Err(EventQuery)
    case Some(r) =>
      match EventsOf(r)
      case None => Err(EventDecoding)
      case Some(events) => Ok(Framed(height, events))
  }

  /** The heights handled so far in order, everything published, and the error that ended the run. */
  datatype State = State(next: nat, visited: seq<nat>, sent: seq<Event>, failed: Option<Error>)

  /** `process_blocks_from`: handles next..last, stopping early behind a block if the token is cancelled;
      the next height follows the last one handled, or `last` if the loop ran out. */
  function Sweep(s: State, last: nat, view: nat -> View): State
    decreases last + 1 - s.next
  {
    if s.next > last then s.(next := last + 1)
    else
      match BlockEvents(s.next, view(s.next))
      case Err(e) => s.(failed := Some(e))
      case Ok(events) =>
        var t := s.(next := s.next + 1, visited := s.visited + [s.next], sent := s.sent + events);
        if view(s.next).cancelled then t else Sweep(t, last, view)
  }

  function Polled(s: State, t: Tick): State {
    if s.failed.Some? then s
    else match t.latest
    case None => s.(failed := Some(Rpc))
    case Some(last) => Sweep(s, last, t.view)
  }

  /** The run over any number of polls, ended by cancellation or an error. */
  function Run(s: State, ticks: seq<Tick>): State
    decreases |ticks|
  {
    if |ticks| == 0 then s else Run(Polled(s, ticks[0]), ticks[1..])
  }

  function Begin(start: nat): State {
    State(start, [], [], None)
  }

  // ---------------------------------------------------------------- whole blocks

  lemma {:induction false} BlockIsWhole(height: nat, v: View)
    requires BlockEvents(height, v).Ok?
    ensures WholeBlocks(BlockEvents(height, v).value)
  {
    if v.receivers { FramedIsWhole(height, EventsOf(v.results.value).value); }
  }

  lemma {:induction false} SweepKeepsWhole(s: State, last: nat, view: nat -> View)
    requires WholeBlocks(s.sent)
    ensures WholeBlocks(Sweep(s, last, view).sent)
    decreases last + 1 - s.next
  {
    if s.next <= last && BlockEvents(s.next, view(s.next)).Ok? {
      var events := BlockEvents(s.next, view(s.next)).value;
      BlockIsWhole(s.next, view(s.next));
      WholeConcat(s.sent, events);
      var t := s.(next := s.next + 1, visited := s.visited + [s.next], sent := s.sent + events);
      if !view(s.next).cancelled { SweepKeepsWhole(t, last, view); }
    }
  }

  lemma {:induction false} RunKeepsWhole(s: State, ticks: seq<Tick>)
    requires WholeBlocks(s.sent)
    ensures WholeBlocks(Run(s, ticks).sent)
    decreases |ticks|
  {
    if |ticks| > 0 {
      var t := ticks[0];
      if s.failed.None? && t.latest.Some? { SweepKeepsWhole(s, t.latest.value, t.view); }
      RunKeepsWhole(Polled(s, t), ticks[1..]);
    }
  }

  /** Whatever the polls report and however the run ends, only whole blocks are published. */
  lemma {:induction false} OnlyWholeBlocks(start: nat, ticks: seq<Tick>)
    ensures WholeBlocks(Run(Begin(start), ticks).sent)
  {
    RunKeepsWhole(Begin(start), ticks);
  }

  /** The heights whose end markers have been published. */
  function Ends(s: seq<Event>): seq<nat> {
    if s == [] then []
    else Ends(s[..|s| - 1]) + (if s[|s| - 1].BlockEnd? then [s[|s| - 1].height] else [])
  }

  lemma {:induction false} EndsConcat(s: seq<Event>, t: seq<Event>)
    ensures Ends(s + t) == Ends(s) + Ends(t)
  {
    if t == [] { assert s + t == s; }
    else {
      assert (s + t)[..|s + t| - 1] == s + t[..|t| - 1];
      EndsConcat(s, t[..|t| - 1]);
    }
  }

  lemma {:induction false} EndsPlain(s: seq<Event>)
    requires Plain(s)
    ensures Ends(s) == []
  {
    if s != [] { EndsPlain(s[..|s| - 1]); }
  }

  lemma {:induction false} FramedEnds(height: nat, events: seq<Event>)
    requires Plain(events)
    ensures Ends(Framed(height, events)) == [height]
  {
    EndsPlain(events);
    EndsConcat([BlockBegin(height)], events);
    EndsConcat([BlockBegin(height)] + events, [BlockEnd(height)]);
    assert Ends([BlockBegin(height)]) == [] && Ends([BlockEnd(height)]) == [height];
  }

  ghost predicate Heard(view: nat -> View) {
    forall h :: view(h).receivers
  }

  lemma {:induction false} SweepPublishes(s: State, last: nat, view: nat -> View)
    requires Heard(view) && Ends(s.sent) == s.visited
    ensures Ends(Sweep(s, last, view).sent) == Sweep(s, last, view).visited
    decreases last + 1 - s.next
  {
    assert view(s.next).receivers;
    if s.next <= last && BlockEvents(s.next, view(s.next)).Ok? {
      var events := BlockEvents(s.next, view(s.next)).value;
      FramedEnds(s.next, EventsOf(view(s.next).results.value).value);
      EndsConcat(s.sent, events);
      var t := s.(next := s.next + 1, visited := s.visited + [s.next], sent := s.sent + events);
      if !view(s.next).cancelled { SweepPublishes(t, last, view); }
    }
  }

  /** While someone is subscribed, the published blocks are those of the handled heights, one each, in order. */
  lemma {:induction false} PublishesWhatItHandles(s: State, ticks: seq<Tick>)
    requires Ends(s.sent) == s.visited && forall i :: 0 <= i < |ticks| ==> Heard(ticks[i].view)
    ensures Ends(Run(s, ticks).sent) == Run(s, ticks).visited
    decreases |ticks|
  {
    if |ticks| > 0 {
      var t := ticks[0];
      if s.failed.None? && t.latest.Some? { SweepPublishes(s, t.latest.value, t.view); }
      PublishesWhatItHandles(Polled(s, t), ticks[1..]);
    }
  }

  // ---------------------------------------------------------------- the events of the chain

  /** Someone is subscribed, and the client answers with what is on the chain, if it answers. */
  ghost predicate Shows(view: nat -> View, chain: nat -> BlockResults) {
    forall h :: view(h).receivers && (view(h).results.Some? ==> view(h).results.value == chain(h))
  }

  ghost predicate Shown(ticks: seq<Tick>, chain: nat -> BlockResults) {
    forall i :: 0 <= i < |ticks| ==> Shows(ticks[i].view, chain)
  }

  /** A block is refused exactly when the client does not answer or one of its events cannot be decoded. */
  lemma {:induction false} BlockFailsIff(height: nat, v: View)
    ensures BlockEvents(height, v) == Err(EventQuery) <==> v.receivers && v.results.None?
    ensures BlockEvents(height, v) == Err(EventDecoding) <==>
              && v.receivers && v.results.Some?
              && (exists raw: Option<string> :: raw.None? && HoldsRaw(v.results.value, raw))
    ensures BlockEvents(height, v).Err? ==> BlockEvents(height, v).error != Rpc
    ensures !v.receivers ==> BlockEvents(height, v) == Ok([])
  {
    if v.results.Some? { DecodesIff(v.results.value); }
  }

  /** The raw event is one of the block's. */
  ghost predicate HoldsRaw(r: BlockResults, raw: Option<string>) {
    || raw in r.begin.GetOr([])
    || raw in r.end.GetOr([])
    || exists j :: 0 <= j < |r.txs.GetOr([])| && raw in r.txs.GetOr([])[j]
  }

  lemma {:induction false} InJoined(s: seq<seq<Option<string>>>, raw: Option<string>)
    ensures raw in Joined(s) <==> exists j :: 0 <= j < |s| && raw in s[j]
  {
    if s != [] {
      InJoined(s[1..], raw);
      if raw in Joined(s[1..]) {
        var j :| 0 <= j < |s[1..]| && raw in s[1..][j];
        assert raw in s[j + 1];
      }
      if exists j :: 0 <= j < |s| && raw in s[j] {
        var j :| 0 <= j < |s| && raw in s[j];
        if j > 0 { assert raw in s[1..][j - 1]; }
      }
    }
  }

  lemma {:induction false} DecodesIff(r: BlockResults)
    ensures EventsOf(r).None? <==> exists raw: Option<string> :: raw.None? && HoldsRaw(r, raw)
  {
    var none: Option<string> := None;
    InJoined(r.txs.GetOr([]), none);
    var all := r.begin.GetOr([]) + Joined(r.txs.GetOr([])) + r.end.GetOr([]);
    assert none in all <==> HoldsRaw(r, none);
    assert EventsOf(r).None? <==> none in all;
  }

  lemma {:induction false} BlockPublished(height: nat, view: nat -> View, chain: nat -> BlockResults)
    requires Shows(view, chain) && BlockEvents(height, view(height)).Ok?
    ensures BlockEvents(height, view(height)).value == Block(height, chain(height))
  {
    FramedIsBlock(height, chain(height));
  }

  lemma {:induction false} SweepOnce(s: State, last: nat, view: nat -> View, t: State)
    requires s.next <= last && BlockEvents(s.next, view(s.next)).Ok?
    requires t == s.(next := s.next + 1, visited := s.visited + [s.next], sent := s.sent + BlockEvents(s.next, view(s.next)).value)
    ensures Sweep(s, last, view) == if view(s.next).cancelled then t else Sweep(t, last, view)
  {
  }

  lemma {:induction false} SweepNone(s: State, last: nat, view: nat -> View)
    requires s.next > last || BlockEvents(s.next, view(s.next)).Err?
    ensures Sweep(s, last, view).sent == s.sent && Sweep(s, last, view).visited == s.visited
  {
  }

  lemma {:induction false} SweepPublishesChain(s: State, last: nat, view: nat -> View, chain: nat -> BlockResults)
    requires Shows(view, chain) && s.sent == Blocks(s.visited, chain)
    ensures Sweep(s, last, view).sent == Blocks(Sweep(s, last, view).visited, chain)
    decreases last + 1 - s.next
  {
    if s.next > last || BlockEvents(s.next, view(s.next)).Err? { SweepNone(s, last, view); }
    else {
      var h, events := s.next, BlockEvents(s.next, view(s.next)).value;
      var t := s.(next := h + 1, visited := s.visited + [h], sent := s.sent + events);
      assert t.sent == Blocks(t.visited, chain) by {
        BlockPublished(h, view, chain);
        BlocksSnoc(s.visited, h, chain);
      }
      SweepOnce(s, last, view, t);
      if !view(h).cancelled { SweepPublishesChain(t, last, view, chain); }
    }
  }

  lemma {:induction false} RunPublishesChain(s: State, ticks: seq<Tick>, chain: nat -> BlockResults)
    requires s.sent == Blocks(s.visited, chain) && Shown(ticks, chain)
    ensures Run(s, ticks).sent == Blocks(Run(s, ticks).visited, chain)
    decreases |ticks|
  {
    if |ticks| > 0 {
      var t := ticks[0];
      if s.failed.None? && t.latest.Some? { SweepPublishesChain(s, t.latest.value, t.view, chain); }
      RunPublishesChain(Polled(s, t), ticks[1..], chain);
    }
  }

  /** Over every run with subscribers, failing and cancelled ones included, the published stream is, for each of
      the handled heights in order, the begin marker, every event of the block's results and the end marker. */
  lemma {:induction false} PublishesTheChain(start: nat, ticks: seq<Tick>, chain: nat -> BlockResults)
    requires Shown(ticks, chain)
    ensures Run(Begin(start), ticks).sent == Blocks(Run(Begin(start), ticks).visited, chain)
  {
    RunPublishesChain(Begin(start), ticks, chain);
  }

  // ---------------------------------------------------------------- one sweep

  /** The heights from `from` up to, but without, `next`. */
  function Heights(from: nat, next: nat): (r: seq<nat>)
    ensures |r| == (if from <= next then next - from else 0)
    ensures forall i :: 0 <= i < |r| ==> r[i] == from + i
  {
    if from >= next then [] else Heights(from, next - 1) + [next - 1]
  }

  lemma {:induction false} HeightsConcat(a: nat, b: nat, c: nat)
    requires a <= b <= c
    ensures Heights(a, b) + Heights(b, c) == Heights(a, c)
  {
    if b < c { HeightsConcat(a, b, c - 1); }
  }

  lemma {:induction false} HeightsFirst(before: seq<nat>, from: nat, next: nat)
    requires from < next
    ensures before + [from] + Heights(from + 1, next) == before + Heights(from, next)
  {
    assert [from] + Heights(from + 1, next) == Heights(from, next);
  }

  /** A sweep over at least one height handles consecutive heights and goes on behind the last of them; a
      sweep over none only sets the next height. */
  lemma {:induction false} SweepIsConsecutive(s: State, last: nat, view: nat -> View)
    requires s.failed.None?
    ensures var t := Sweep(s, last, view);
            && (last < s.next ==> t == s.(next := last + 1))
            && (s.next <= last ==>
                  && s.next <= t.next <= last + 1
                  && (t.failed.None? ==> s.next < t.next)
                  && t.visited == s.visited + Heights(s.next, t.next))
    decreases last + 1 - s.next
  {
    if s.next <= last && BlockEvents(s.next, view(s.next)).Ok? {
      var events := BlockEvents(s.next, view(s.next)).value;
      var t := s.(next := s.next + 1, visited := s.visited + [s.next], sent := s.sent + events);
      if !view(s.next).cancelled { SweepIsConsecutive(t, last, view); }
      HeightsFirst(s.visited, s.next, Sweep(s, last, view).next);
    }
  }

  /** A run fails when a poll is not answered, or with the error of the first block that cannot be published, which
      is the one it would have handled next. */
  lemma {:induction false} FailsBecause(s: State, t: Tick)
    requires s.failed.None?
    ensures var u := Polled(s, t);
            && (u.failed == Some(Rpc) <==> t.latest.None?)
            && (u.failed.Some? && t.latest.Some? ==>
                  u.next <= t.latest.value && BlockEvents(u.next, t.view(u.next)) == Err(u.failed.value))
  {
    if t.latest.Some? { SweepFailsBecause(s, t.latest.value, t.view); }
  }

  lemma {:induction false} SweepFailsBecause(s: State, last: nat, view: nat -> View)
    requires s.failed.None?
    ensures var u := Sweep(s, last, view);
            u.failed.Some? ==> u.next <= last && BlockEvents(u.next, view(u.next)) == Err(u.failed.value)
    decreases last + 1 - s.next
  {
    if s.next <= last && BlockEvents(s.next, view(s.next)).Ok? && !view(s.next).cancelled {
      var events := BlockEvents(s.next, view(s.next)).value;
      SweepFailsBecause(s.(next := s.next + 1, visited := s.visited + [s.next], sent := s.sent + events), last, view);
    }
  }

  // ---------------------------------------------------------------- reported heights that never decrease

  /** Every answered poll reports at least the previous height. */
  predicate NeverDecreases(latest: nat, ticks: seq<Tick>)
    decreases |ticks|
  {
    |ticks| > 0 ==>
      && (ticks[0].latest.Some? ==> latest <= ticks[0].latest.value)
      && NeverDecreases(ticks[0].latest.GetOr(latest), ticks[1..])
  }

  lemma {:induction false} PollInOrder(start: nat, s: State, latest: nat, t: Tick)
    requires s.visited == Heights(start, s.next) && start <= s.next <= latest + 1
    requires t.latest.Some? ==> latest <= t.latest.value
    ensures var u := Polled(s, t);
            u.visited == Heights(start, u.next) && s.next <= u.next <= t.latest.GetOr(latest) + 1
  {
    if s.failed.None? && t.latest.Some? {
      SweepIsConsecutive(s, t.latest.value, t.view);
      var u := Polled(s, t);
      if s.next <= t.latest.value { HeightsConcat(start, s.next, u.next); }
    }
  }

  lemma {:induction false} RunInOrder(start: nat, s: State, latest: nat, ticks: seq<Tick>)
    requires s.visited == Heights(start, s.next) && start <= s.next <= latest + 1
    requires NeverDecreases(latest, ticks)
    ensures var u := Run(s, ticks); u.visited == Heights(start, u.next) && start <= u.next
    decreases |ticks|
  {
    if |ticks| > 0 {
      PollInOrder(start, s, latest, ticks[0]);
      RunInOrder(start, Polled(s, ticks[0]), ticks[0].latest.GetOr(latest), ticks[1..]);
    }
  }

  /** If reported heights never decrease, every height from the start on is handled exactly once, in
      ascending order, and the run goes on with the first height not handled. */
  lemma {:induction false} EveryHeightOnce(start: nat, ticks: seq<Tick>)
    requires NeverDecreases(start, ticks)
    ensures var u := Run(Begin(start), ticks); u.visited == Heights(start, u.next) && start <= u.next
  {
    assert Heights(start, start) == [];
    RunInOrder(start, Begin(start), start, ticks);
  }

  // ---------------------------------------------------------------- any reported heights

  /** Every height from `start` below `top` has been handled, and the run goes on no later than `top`. */
  ghost predicate NoGap(start: nat, s: State, top: nat) {
    && start <= top && s.next <= top
    && (forall h :: start <= h < top ==> h in s.visited)
    && (forall i :: 0 <= i < |s.visited| ==> s.visited[i] < top)
  }

  lemma {:induction false} PollLeavesNoGap(start: nat, s: State, top: nat, t: Tick)
    requires NoGap(start, s, top)
    ensures NoGap(start, Polled(s, t), if Polled(s, t).next > top then Polled(s, t).next else top)
  {
    if s.failed.None? && t.latest.Some? {
      SweepIsConsecutive(s, t.latest.value, t.view);
      var u := Polled(s, t);
      if s.next <= t.latest.value {
        var handled := Heights(s.next, u.next);
        forall h | start <= h < u.next || start <= h < top ensures h in u.visited {
          if h < top { assert h in s.visited; }
          else { assert handled[h - s.next] == h; }
        }
      }
    }
  }

  lemma {:induction false} RunLeavesNoGap(start: nat, s: State, top: nat, ticks: seq<Tick>)
    requires NoGap(start, s, top)
    ensures exists last :: NoGap(start, Run(s, ticks), last)
    decreases |ticks|
  {
    if |ticks| == 0 { assert NoGap(start, Run(s, ticks), top); }
    else {
      PollLeavesNoGap(start, s, top, ticks[0]);
      var u := Polled(s, ticks[0]);
      RunLeavesNoGap(start, u, if u.next > top then u.next else top, ticks[1..]);
      assert Run(s, ticks) == Run(u, ticks[1..]);
    }
  }

  /** Even if reported heights decrease, or the token is cancelled half way through a sweep, no height
      between the start and the highest one handled is left out. */
  lemma {:induction false} NoHeightSkipped(start: nat, ticks: seq<Tick>, h: nat, highest: nat)
    requires highest in Run(Begin(start), ticks).visited && start <= h <= highest
    ensures h in Run(Begin(start), ticks).visited
  {
    RunLeavesNoGap(start, Begin(start), start, ticks);
    var last :| NoGap(start, Run(Begin(start), ticks), last);
  }

  // ---------------------------------------------------------------- catching up

  /** Every poll and block is answered and the token is not cancelled within a sweep. */
  ghost predicate Undisturbed(ticks: seq<Tick>) {
    forall i :: 0 <= i < |ticks| ==> ticks[i].latest.Some? && Calm(ticks[i])
  }

  ghost predicate Calm(t: Tick) {
    forall h :: BlockEvents(h, t.view(h)).Ok? && !t.view(h).cancelled
  }

  lemma {:induction false} CalmSweep(s: State, last: nat, t: Tick)
    requires Calm(t) && s.failed.None?
    ensures Sweep(s, last, t.view).failed.None? && Sweep(s, last, t.view).next == last + 1
    decreases last + 1 - s.next
  {
    if s.next <= last {
      assert BlockEvents(s.next, t.view(s.next)).Ok? && !t.view(s.next).cancelled;
      var events := BlockEvents(s.next, t.view(s.next)).value;
      CalmSweep(s.(next := s.next + 1, visited := s.visited + [s.next], sent := s.sent + events), last, t);
    }
  }

  lemma {:induction false} CalmRun(s: State, ticks: seq<Tick>)
    requires Undisturbed(ticks) && |ticks| > 0 && s.failed.None?
    ensures Run(s, ticks).next == ticks[|ticks| - 1].latest.value + 1
    decreases |ticks|
  {
    CalmSweep(s, ticks[0].latest.value, ticks[0]);
    if |ticks| > 1 { CalmRun(Polled(s, ticks[0]), ticks[1..]); }
  }

  /** Undisturbed and with heights that never decrease, the publisher has handled every height from the
      start to the last reported one. */
  lemma {:induction false} CatchesUp(start: nat, ticks: seq<Tick>)
    requires Undisturbed(ticks) && |ticks| > 0 && NeverDecreases(start, ticks)
    ensures Run(Begin(start), ticks).visited == Heights(start, ticks[|ticks| - 1].latest.value + 1)
  {
    EveryHeightOnce(start, ticks);
    CalmRun(Begin(start), ticks);
  }

  // ---------------------------------------------------------------- when exactly heights are handled in order

  /** The first height that a sweep from `next` leaves unhandled, and whether it failed there. */
  function Through(next: nat, latest: nat, view: nat -> View): (r: (nat, bool))
    ensures next <= r.0
    decreases latest + 1 - next
  {
    if next > latest then (next, false)
    else if BlockEvents(next, view(next)).Err? then (next, true)
    else if view(next).cancelled then (next + 1, false)
    else Through(next + 1, latest, view)
  }

  /** No height is handled after a fall. A fall is a reported height at least two below the next height to
      handle, once some block has been handled; `next` is where the sweep of the first poll would begin. */
  predicate NoneAfterFall(next: nat, seen: bool, fallen: bool, ticks: seq<Tick>)
    decreases |ticks|
  {
    |ticks| > 0 && ticks[0].latest.Some? ==>
      var latest := ticks[0].latest.value;
      if latest < next then NoneAfterFall(latest + 1, seen, fallen || (seen && latest + 1 < next), ticks[1..])
      else
        var (stop, bad) := Through(next, latest, ticks[0].view);
        && (next < stop ==> !fallen)
        && (bad || NoneAfterFall(stop, true, false, ticks[1..]))
  }

  predicate Ascending(s: seq<nat>) {
    forall i, j :: 0 <= i < j < |s| ==> s[i] < s[j]
  }

  /** The last handled height is just below the next one, or at or above it after a fall. */
  ghost predicate Position(s: State, seen: bool, fallen: bool) {
    && s.failed.None? && Ascending(s.visited)
    && (seen <==> s.visited != []) && (fallen ==> seen)
    && (seen ==> (fallen <==> s.visited[|s.visited| - 1] >= s.next))
    && (seen && !fallen ==> s.visited[|s.visited| - 1] + 1 == s.next)
  }

  lemma {:induction false} SweepThrough(s: State, last: nat, view: nat -> View)
    requires s.failed.None?
    ensures var (stop, bad) := Through(s.next, last, view);
            && (Sweep(s, last, view).failed.Some? <==> bad)
            && (s.next <= last ==> Sweep(s, last, view).next == stop)
    decreases last + 1 - s.next
  {
    if s.next <= last && BlockEvents(s.next, view(s.next)).Ok? && !view(s.next).cancelled {
      var events := BlockEvents(s.next, view(s.next)).value;
      SweepThrough(s.(next := s.next + 1, visited := s.visited + [s.next], sent := s.sent + events), last, view);
    }
  }

  /** What has been handled stays handled. */
  lemma {:induction false} VisitedGrows(s: State, ticks: seq<Tick>)
    ensures s.visited <= Run(s, ticks).visited
    decreases |ticks|
  {
    if |ticks| > 0 {
      var t := ticks[0];
      if s.failed.None? && t.latest.Some? { SweepIsConsecutive(s, t.latest.value, t.view); }
      VisitedGrows(Polled(s, t), ticks[1..]);
    }
  }

  lemma {:induction false} AppendHeights(visited: seq<nat>, next: nat, stop: nat)
    requires Ascending(visited) && next < stop
    ensures Ascending(visited + Heights(next, stop)) <==> visited == [] || visited[|visited| - 1] < next
  {
    var all, n := visited + Heights(next, stop), |visited|;
    assert all[n] == next;
    assert n > 0 ==> all[n - 1] == visited[n - 1];
  }

  /** One sweep over at least one height: it breaks the order exactly when it handles a block after a fall. */
  lemma {:induction false} SweepOrder(s: State, seen: bool, fallen: bool, last: nat, view: nat -> View)
    requires Position(s, seen, fallen) && s.next <= last
    ensures var u, (stop, bad) := Sweep(s, last, view), Through(s.next, last, view);
            && (Ascending(u.visited) <==> (s.next < stop ==> !fallen))
            && (!bad ==> s.next < stop)
            && (!bad && !fallen ==> Position(u, true, false))
  {
    SweepThrough(s, last, view);
    SweepIsConsecutive(s, last, view);
    var u := Sweep(s, last, view);
    if s.next < u.next { AppendHeights(s.visited, s.next, u.next); }
    else { assert Heights(s.next, u.next) == [] && u.visited == s.visited; }
  }

  lemma {:induction false} AscendingFrom(s: State, seen: bool, fallen: bool, ticks: seq<Tick>)
    requires Position(s, seen, fallen)
    ensures Ascending(Run(s, ticks).visited) <==> NoneAfterFall(s.next, seen, fallen, ticks)
    decreases |ticks|
  {
    if |ticks| > 0 {
      var u := Polled(s, ticks[0]);
      if ticks[0].latest.None? { FailedStays(u, ticks[1..]); }
      else {
        var latest := ticks[0].latest.value;
        if latest < s.next {
          AscendingFrom(u, seen, fallen || (seen && latest + 1 < s.next), ticks[1..]);
        } else {
          AscendingAcross(s, seen, fallen, ticks);
        }
      }
    }
  }

  lemma {:induction false} AscendingAcross(s: State, seen: bool, fallen: bool, ticks: seq<Tick>)
    requires Position(s, seen, fallen) && |ticks| > 0
    requires ticks[0].latest.Some? && s.next <= ticks[0].latest.value
    ensures Ascending(Run(s, ticks).visited) <==> NoneAfterFall(s.next, seen, fallen, ticks)
    decreases |ticks|, 0
  {
    var t, rest := ticks[0], ticks[1..];
    var u, bad := Polled(s, t), Through(s.next, t.latest.value, t.view).1;
    SweepThrough(s, t.latest.value, t.view);
    SweepOrder(s, seen, fallen, t.latest.value, t.view);
    if bad { FailedStays(u, rest); }
    else if fallen { VisitedGrows(u, rest); }
    else { AscendingFrom(u, true, false, rest); }
  }

  /** Whatever is reported, cancelled or failing: heights are handled in ascending order, each at most once,
      exactly when none is handled after a fall of the reported heights. */
  lemma {:induction false} AscendingIff(start: nat, ticks: seq<Tick>)
    ensures Ascending(Run(Begin(start), ticks).visited) <==> NoneAfterFall(start, false, false, ticks)
  {
    AscendingFrom(Begin(start), false, false, ticks);
  }

  // ---------------------------------------------------------------- in terms of the reported heights alone

  function Reports(ticks: seq<Tick>): (h: seq<nat>)
    requires forall i :: 0 <= i < |ticks| ==> ticks[i].latest.Some?
    ensures |h| == |ticks| && forall i :: 0 <= i < |h| ==> h[i] == ticks[i].latest.value
  {
    seq(|ticks|, i requires 0 <= i < |ticks| => ticks[i].latest.value)
  }

  /** The first height that report j can bring: one above the report before it. */
  function Expected(start: nat, h: seq<nat>, j: nat): nat
    requires j <= |h|
  {
    if j == 0 then start else h[j - 1] + 1
  }

  predicate Rises(start: nat, h: seq<nat>, j: nat)
    requires j < |h|
  {
    Expected(start, h, j) <= h[j]
  }

  /** Report j rises from below the height that report i has risen to. */
  ghost predicate Regains(start: nat, h: seq<nat>, i: nat, j: nat) {
    i < j < |h| && Rises(start, h, i) && Rises(start, h, j) && h[j - 1] < h[i]
  }

  /** No report rises from below a height that an earlier one has risen to. */
  ghost predicate NeverRegains(start: nat, h: seq<nat>) {
    forall i: nat, j: nat :: !Regains(start, h, i, j)
  }

  ghost predicate LastRise(start: nat, h: seq<nat>, i: nat) {
    i < |h| && Rises(start, h, i) && forall j: nat :: i < j < |h| ==> !Rises(start, h, j)
  }

  lemma {:induction false} SameRises(start: nat, h: seq<nat>, x: nat, i: nat)
    requires i < |h|
    ensures Rises(start, h + [x], i) <==> Rises(start, h, i)
  {
  }

  lemma {:induction false} RegainsPrefix(start: nat, h: seq<nat>, x: nat)
    requires NeverRegains(start, h + [x])
    ensures NeverRegains(start, h)
  {
    forall i: nat, j: nat | Regains(start, h, i, j) ensures false {
      SameRises(start, h, x, i);
      SameRises(start, h, x, j);
      assert Regains(start, h + [x], i, j);
    }
  }

  lemma {:induction false} RegainsAt(start: nat, h: seq<nat>, i: nat, j: nat)
    requires NeverRegains(start, h) && i < j < |h| && Rises(start, h, i) && Rises(start, h, j)
    ensures h[i] <= h[j - 1]
  {
    assert !Regains(start, h, i, j);
  }

  lemma {:induction false} NotBehindLast(start: nat, h: seq<nat>, last: nat, i: nat)
    requires LastRise(start, h, last) && i < |h| && Rises(start, h, i)
    ensures i <= last
  {
  }

  /** A rise is not above the last one. */
  lemma {:induction false} BelowLast(start: nat, h: seq<nat>, last: nat, i: nat)
    requires NeverRegains(start, h) && LastRise(start, h, last) && i < |h| && Rises(start, h, i)
    ensures h[i] <= h[last]
  {
    NotBehindLast(start, h, last, i);
    if i < last { RegainsAt(start, h, i, last); }
  }

  lemma {:induction false} StillNeverRegains(start: nat, h: seq<nat>, x: nat, last: nat, i: nat, j: nat)
    requires NeverRegains(start, h) && LastRise(start, h, last)
    requires h[|h| - 1] < x ==> h[last] <= h[|h| - 1]
    requires i < j <= |h| && Rises(start, h + [x], i) && Rises(start, h + [x], j)
    ensures h[i] <= h[j - 1]
  {
    SameRises(start, h, x, i);
    if j < |h| {
      SameRises(start, h, x, j);
      RegainsAt(start, h, i, j);
    } else {
      BelowLast(start, h, last, i);
    }
  }

  /** What one more report adds to the condition, given the last rise before it. */
  lemma {:induction false} RegainsSnoc(start: nat, h: seq<nat>, x: nat, last: nat)
    requires NeverRegains(start, h) && LastRise(start, h, last)
    ensures NeverRegains(start, h + [x]) <==> (h[|h| - 1] < x ==> h[last] <= h[|h| - 1])
  {
    var all, n := h + [x], |h|;
    if h[n - 1] < x ==> h[last] <= h[n - 1] {
      forall i: nat, j: nat ensures !Regains(start, all, i, j) {
        if i < j < |all| && Rises(start, all, i) && Rises(start, all, j) { StillNeverRegains(start, h, x, last, i, j); }
      }
    } else {
      SameRises(start, h, x, last);
      assert Regains(start, all, last, n);
    }
  }

  lemma {:induction false} RegainsIff(start: nat, h: seq<nat>, x: nat, last: nat)
    requires LastRise(start, h, last)
    ensures NeverRegains(start, h + [x]) <==> NeverRegains(start, h) && (h[|h| - 1] < x ==> h[last] <= h[|h| - 1])
  {
    if NeverRegains(start, h) { RegainsSnoc(start, h, x, last); }
    else if NeverRegains(start, h + [x]) { RegainsPrefix(start, h, x); }
  }

  lemma {:induction false} FirstRise(start: nat, h: seq<nat>, x: nat)
    requires forall i: nat :: i < |h| ==> !Rises(start, h, i)
    ensures NeverRegains(start, h + [x])
  {
    forall i: nat | i < |h| ensures !Rises(start, h + [x], i) { SameRises(start, h, x, i); }
  }

  lemma {:induction false} RunSnoc(s: State, ticks: seq<Tick>, t: Tick)
    ensures Run(s, ticks + [t]) == Polled(Run(s, ticks), t)
    decreases |ticks|
  {
    if |ticks| == 0 {
      assert ticks + [t] == [t] && [t][1..] == [];
    } else {
      assert (ticks + [t])[0] == ticks[0] && (ticks + [t])[1..] == ticks[1..] + [t];
      RunSnoc(Polled(s, ticks[0]), ticks[1..], t);
    }
  }

  /** The last rise reported the last height handled. */
  ghost predicate Follows(start: nat, h: seq<nat>, s: State) {
    && s.failed.None? && s.next == Expected(start, h, |h|)
    && (s.visited == [] ==> forall i: nat :: i < |h| ==> !Rises(start, h, i))
    && (s.visited != [] ==> exists i: nat :: LastRise(start, h, i) && s.visited[|s.visited| - 1] == h[i])
  }

  /** An undisturbed poll handles the heights from the next one to the reported one. */
  lemma {:induction false} CalmPoll(s: State, t: Tick)
    requires Calm(t) && t.latest.Some? && s.failed.None?
    ensures var u, x := Polled(s, t), t.latest.value;
            && u.failed.None? && u.next == x + 1
            && u.visited == s.visited + Heights(s.next, x + 1)
  {
    CalmSweep(s, t.latest.value, t);
    SweepIsConsecutive(s, t.latest.value, t.view);
    if t.latest.value < s.next { assert s.visited + [] == s.visited; }
  }

  lemma {:induction false} LastRiseStays(start: nat, h: seq<nat>, x: nat, i: nat)
    requires LastRise(start, h, i) && !Rises(start, h + [x], |h|)
    ensures LastRise(start, h + [x], i)
  {
    SameRises(start, h, x, i);
    forall j: nat | i < j < |h| ensures !Rises(start, h + [x], j) { SameRises(start, h, x, j); }
  }

  lemma {:induction false} NoRiseStays(start: nat, h: seq<nat>, x: nat)
    requires (forall i: nat :: i < |h| ==> !Rises(start, h, i)) && !Rises(start, h + [x], |h|)
    ensures forall i: nat :: i < |h + [x]| ==> !Rises(start, h + [x], i)
  {
    forall i: nat | i < |h| ensures !Rises(start, h + [x], i) { SameRises(start, h, x, i); }
  }

  lemma {:induction false} FollowsSnoc(start: nat, h: seq<nat>, s: State, x: nat, u: State)
    requires Follows(start, h, s) && u.failed.None? && u.next == x + 1 && u.visited == s.visited + Heights(s.next, x + 1)
    ensures Follows(start, h + [x], u)
  {
    var all, n := h + [x], |h|;
    assert Rises(start, all, n) <==> s.next <= x;
    if s.next <= x { assert LastRise(start, all, n) && u.visited[|u.visited| - 1] == all[n]; }
    else {
      assert u.visited == s.visited;
      if s.visited == [] { NoRiseStays(start, h, x); }
      else {
        var i: nat :| LastRise(start, h, i) && s.visited[|s.visited| - 1] == h[i];
        LastRiseStays(start, h, x, i);
      }
    }
  }

  lemma {:induction false} AppendAny(visited: seq<nat>, next: nat, stop: nat)
    requires visited != [] && next < stop
    ensures Ascending(visited + Heights(next, stop)) <==> Ascending(visited) && visited[|visited| - 1] < next
  {
    var all := visited + Heights(next, stop);
    if Ascending(all) {
      forall i, j | 0 <= i < j < |visited| ensures visited[i] < visited[j] {
        assert all[i] < all[j];
      }
    }
    if Ascending(visited) { AppendHeights(visited, next, stop); }
  }

  lemma {:induction false} VisitedSnoc(visited: seq<nat>, next: nat, x: nat)
    requires visited != []
    ensures Ascending(visited + Heights(next, x + 1)) <==> Ascending(visited) && (next <= x ==> visited[|visited| - 1] < next)
  {
    if next <= x { AppendAny(visited, next, x + 1); }
    else { assert visited + Heights(next, x + 1) == visited; }
  }

  lemma {:induction false} OrderSnoc(start: nat, h: seq<nat>, s: State, x: nat, u: State)
    requires Follows(start, h, s) && u.visited == s.visited + Heights(s.next, x + 1)
    requires Ascending(s.visited) <==> NeverRegains(start, h)
    ensures Ascending(u.visited) <==> NeverRegains(start, h + [x])
  {
    if s.visited == [] {
      FirstRise(start, h, x);
      assert [] + Heights(s.next, x + 1) == Heights(s.next, x + 1);
    } else {
      var i: nat :| LastRise(start, h, i) && s.visited[|s.visited| - 1] == h[i];
      RegainsIff(start, h, x, i);
      VisitedSnoc(s.visited, s.next, x);
    }
  }

  lemma {:induction false} OrderFrom(start: nat, ticks: seq<Tick>)
    requires Undisturbed(ticks)
    ensures Follows(start, Reports(ticks), Run(Begin(start), ticks))
    ensures Ascending(Run(Begin(start), ticks).visited) <==> NeverRegains(start, Reports(ticks))
    decreases |ticks|
  {
    if |ticks| > 0 {
      var n := |ticks| - 1;
      var front, t := ticks[..n], ticks[n];
      assert ticks == front + [t] && Undisturbed(front) && Calm(ticks[n]);
      var h, s, x := Reports(front), Run(Begin(start), front), t.latest.value;
      assert Reports(ticks) == h + [x];
      OrderFrom(start, front);
      RunSnoc(Begin(start), front, t);
      CalmPoll(s, t);
      FollowsSnoc(start, h, s, x, Polled(s, t));
      OrderSnoc(start, h, s, x, Polled(s, t));
    }
  }

  /** In terms of the reported heights alone: undisturbed, heights are handled in ascending order, each at most
      once, exactly when no report rises from below a height that an earlier one has risen to. */
  lemma {:induction false} AscendingIffNeverRegains(start: nat, ticks: seq<Tick>)
    requires Undisturbed(ticks)
    ensures Ascending(Run(Begin(start), ticks).visited) <==> NeverRegains(start, Reports(ticks))
  {
    OrderFrom(start, ticks);
  }

  /** A report that falls from 7 to 5 and rises to 7 again makes the publisher handle 6 and 7 twice. */
  lemma {:induction false} FallingReportRepeatsHeights(t7: Tick, t5: Tick)
    requires Calm(t7) && Calm(t5) && t7.latest == Some(7) && t5.latest == Some(5)
    ensures Run(Begin(5), [t7, t5, t7]).visited == [5, 6, 7, 6, 7]
    ensures !NeverRegains(5, Reports([t7, t5, t7]))
  {
    assert [t7, t5, t7] == [t7, t5] + [t7] && [t7, t5] == [t7] + [t5] && [t7] == [] + [t7];
    RunSnoc(Begin(5), [], t7);
    RunSnoc(Begin(5), [t7], t5);
    RunSnoc(Begin(5), [t7, t5], t7);
    var s1 := Polled(Begin(5), t7);
    CalmPoll(Begin(5), t7);
    assert s1.visited == [5, 6, 7];
    CalmPoll(s1, t5);
    CalmPoll(Polled(s1, t5), t7);
    var h := Reports([t7, t5, t7]);
    assert Regains(5, h, 0, 2);
  }

  // ---------------------------------------------------------------- the loops themselves

  class EventPublisher {
    var currentHeight: nat
    var visited: seq<nat>
    var sent: seq<Event>

    constructor (start: nat)
      ensures this.Contents(None) == Begin(start)
    {
      currentHeight, visited, sent := start, [], [];
    }

    function Contents(failed: Option<Error>): State
      reads this
    {
      State(currentHeight, visited, sent, failed)
    }

    method ProcessBlock(height: nat, v: View) returns (e: Option<Error>)
      modifies this`sent
      ensures match BlockEvents(height, v)
              case Ok(events) => e == None && sent == old(sent) + events
              case Err(error) => e == Some(error) && sent == old(sent)
    {
      if !v.receivers { return None; }
      if v.results.None? { return Some(EventQuery); }
      var events := EventsOf(v.results.value);
      if events.None? { return Some(EventDecoding); }
      var all := Framed(height, events.value);
      for i := 0 to |all|
        invariant sent == old(sent) + all[..i]
      {
        sent := sent + [all[i]];
      }
      assert all[..|all|] == all;
      return None;
    }

    method ProcessBlocksFrom(last: nat, view: nat -> View) returns (e: Option<Error>)
      modifies this
      ensures Contents(e) == Sweep(old(Contents(None)), last, view)
    {
      ghost var whole := Sweep(Contents(None), last, view);
      while currentHeight <= last
        invariant Sweep(Contents(None), last, view) == whole
        decreases last + 1 - currentHeight
      {
        var height := currentHeight;
        e := ProcessBlock(height, view(height));
        if e.Some? { return; }
        visited := visited + [height];
        currentHeight := height + 1;
        if view(height).cancelled { return None; }
      }
      currentHeight := last + 1;
      return None;
    }

    /** The loop of `run`, driven by the polls that fire before the token wins the select. */
    method RunLoop(ticks: seq<Tick>) returns (e: Option<Error>)
      modifies this
      ensures Contents(e) == Run(old(Contents(None)), ticks)
    {
      ghost var whole := Run(Contents(None), ticks);
      e := None;
      for i := 0 to |ticks|
        invariant Run(Contents(e), ticks[i..]) == whole && e.None?
      {
        ghost var s := Contents(None);
        assert ticks[i..][0] == ticks[i] && ticks[i..][1..] == ticks[i + 1..];
        match ticks[i].latest {
          case None => e := Some(Rpc);
          case Some(last) => e := ProcessBlocksFrom(last, ticks[i].view);
        }
        assert Contents(e) == Polled(s, ticks[i]);
        if e.Some? {
          FailedStays(Contents(e), ticks[i + 1..]);
          return;
        }
      }
    }
  }

  lemma {:induction false} FailedStays(s: State, ticks: seq<Tick>)
    requires s.failed.Some?
    ensures Run(s, ticks) == s
    decreases |ticks|
  {
    if |ticks| > 0 { FailedStays(s, ticks[1..]); }
  }
}
