/** Messages routed and executed by the gateway (contracts/axelarnet-gateway/src/state.rs). */
module Gateways {
  import opened Outcomes

  type Id = string

  datatype Message = Message(id: Id, sourceAddress: string, destinationChain: string, destinationAddress: string,
                             payloadHash: string)

  datatype Executable = Approved(msg: Message) | Executed(msg: Message)

  datatype Error =
    | MessageMismatch
    | MessageNotApproved
    | MessageAlreadyExecuted
    | MessageAlreadyExists
    | Refused

  datatype Store = Store(routable: map<Id, Message>, executable: map<Id, Executable>)

  const EMPTY := Store(map[], map[])

  /** A message saved for routing or for execution, or marked as executed if it passes the caller's check. */
  datatype Call =
    | SaveRoutable(id: Id, msg: Message)
    | SaveExecutable(id: Id, msg: Message)
    | MarkExecuted(id: Id, validate: Message -> bool)

  function Perform(s: Store, call: Call): Result<Store, Error> {
    match call
    case SaveRoutable(id, msg) =>
      if id in s.routable then Err(MessageAlreadyExists) else Ok(s.(routable := s.routable[id := msg]))
    case SaveExecutable(id, msg) =>
      if id !in s.executable then Ok(s.(executable := s.executable[id := Approved(msg)]))
      else if s.executable[id].msg != msg then Err(MessageMismatch)
      else Ok(s)
    case MarkExecuted(id, validate) =>
      if id !in s.executable then Err(MessageNotApproved)
      else match s.executable[id]
      case Executed(_) => Err(MessageAlreadyExecuted)
      case Approved(msg) =>
        if validate(msg) then Ok(s.(executable := s.executable[id := Executed(msg)])) else Err(Refused)
  }

  /** What the outside world sees: accepted approvals, and executions with the message returned. */
  datatype Happening = Approval(id: Id, msg: Message) | Execution(id: Id, msg: Message)

  datatype World = World(store: Store, history: seq<Happening>)

  const START := World(EMPTY, [])

  function Seen(s: Store, call: Call): seq<Happening>
    requires Perform(s, call).Ok?
  {
    match call
    case SaveRoutable(_, _) => []
    case SaveExecutable(id, msg) => [Approval(id, msg)]
    case MarkExecuted(id, _) => [Execution(id, s.executable[id].msg)]
  }

  function Step(w: World, call: Call): World {
    match Perform(w.store, call)
    case Err(_) => w
    case Ok(s) => World(s, w.history + Seen(w.store, call))
  }

  function Run(w: World, calls: seq<Call>): World
    decreases |calls|
  {
    if |calls| == 0 then w else Run(Step(w, calls[0]), calls[1..])
  }

  // ---------------------------------------------------------------- the store tells the history

  /** The executions of an id. */
  function Executions(history: seq<Happening>, id: Id): nat {
    if history == [] then 0
    else
      var last := history[|history| - 1];
      Executions(history[..|history| - 1], id) + (if last.Execution? && last.id == id then 1 else 0)
  }

  /** The first message approved for an id. */
  function FirstApproved(history: seq<Happening>, id: Id): Option<Message> {
    if history == [] then None
    else if history[0].Approval? && history[0].id == id then Some(history[0].msg)
    else FirstApproved(history[1..], id)
  }

  /** An id is stored exactly when it has been approved, with the message first approved for it; it counts as
      executed exactly when it has been executed, and then once. */
  ghost predicate Told(w: World, id: Id) {
    Tells(w.history, id, Status(w.store, id))
  }

  function Status(s: Store, id: Id): Option<Executable> {
    if id in s.executable then Some(s.executable[id]) else None
  }

  ghost predicate Tells(history: seq<Happening>, id: Id, status: Option<Executable>) {
    && FirstApproved(history, id) == (if status.Some? then Some(status.value.msg) else None)
    && Executions(history, id) == (if status.Some? && status.value.Executed? then 1 else 0)
    && (forall i :: 0 <= i < |history| && history[i].id == id ==> status.Some? && history[i].msg == status.value.msg)
  }

  lemma {:induction false} FirstApprovedSnoc(history: seq<Happening>, h: Happening, id: Id)
    ensures FirstApproved(history + [h], id) ==
              if FirstApproved(history, id).Some? then FirstApproved(history, id)
              else if h.Approval? && h.id == id then Some(h.msg) else None
    decreases |history|
  {
    if history == [] { assert history + [h] == [h]; }
    else {
      assert (history + [h])[0] == history[0] && (history + [h])[1..] == history[1..] + [h];
      FirstApprovedSnoc(history[1..], h, id);
    }
  }

  lemma {:induction false} ExecutionsSnoc(history: seq<Happening>, h: Happening, id: Id)
    ensures Executions(history + [h], id) == Executions(history, id) + (if h.Execution? && h.id == id then 1 else 0)
  {
    assert (history + [h])[..|history|] == history;
  }

  /** How a happening moves the status of an id. */
  predicate Moves(h: Happening, id: Id, before: Option<Executable>, after: Option<Executable>) {
    if h.id != id then after == before
    else if h.Execution? then before == Some(Approved(h.msg)) && after == Some(Executed(h.msg))
    else if before.None? then after == Some(Approved(h.msg))
    else before.value.msg == h.msg && after == before
  }

  lemma {:induction false} Extend(history: seq<Happening>, h: Happening, id: Id, before: Option<Executable>, after: Option<Executable>)
    requires Tells(history, id, before) && Moves(h, id, before, after)
    ensures Tells(history + [h], id, after)
  {
    FirstApprovedSnoc(history, h, id);
    ExecutionsSnoc(history, h, id);
  }

  lemma {:induction false} StepKeeps(w: World, call: Call, id: Id)
    requires Told(w, id)
    ensures Told(Step(w, call), id)
  {
    if Perform(w.store, call).Ok? {
      var seen, t := Seen(w.store, call), Perform(w.store, call).value;
      if call.SaveRoutable? { assert w.history + seen == w.history; }
      else { Extend(w.history, seen[0], id, Status(w.store, id), Status(t, id)); }
    }
  }

  lemma {:induction false} RunKeeps(w: World, calls: seq<Call>, id: Id)
    requires Told(w, id)
    ensures Told(Run(w, calls), id)
    decreases |calls|
  {
    if |calls| > 0 {
      StepKeeps(w, calls[0], id);
      RunKeeps(Step(w, calls[0]), calls[1..], id);
    }
  }

  /** Over every run each id is executed at most once, only after an approval, and with the message first
      approved for it. */
  lemma {:induction false} ExecutedOnceAsApproved(calls: seq<Call>, id: Id)
    ensures var history := Run(START, calls).history;
            && Executions(history, id) <= 1
            && (forall i :: 0 <= i < |history| && history[i].Execution? && history[i].id == id ==>
                  FirstApproved(history, id) == Some(history[i].msg))
  {
    RunKeeps(START, calls, id);
  }

  // ---------------------------------------------------------------- statuses only move forward

  /** Nothing stored is forgotten or replaced, and an executed message stays executed. */
  ghost predicate MovesForward(s: Store, t: Store) {
    && (forall id :: id in s.routable ==> id in t.routable && t.routable[id] == s.routable[id])
    && (forall id :: id in s.executable ==>
          && id in t.executable && t.executable[id].msg == s.executable[id].msg
          && (s.executable[id].Executed? ==> t.executable[id].Executed?))
  }

  /** From any point of any run statuses only move forward: never from Executed back to Approved, and a stored
      message is never replaced. */
  lemma {:induction false} StatusesMoveForward(w: World, calls: seq<Call>)
    ensures MovesForward(w.store, Run(w, calls).store)
    decreases |calls|
  {
    if |calls| > 0 {
      StatusesMoveForward(Step(w, calls[0]), calls[1..]);
      var s, t := w.store, Step(w, calls[0]).store;
      assert MovesForward(s, t);
    }
  }

  lemma {:induction false} EarlierApproval(w: World, calls: seq<Call>)
    requires ApprovedBefore(w.history) && forall id :: Told(w, id)
    ensures ApprovedBefore(Run(w, calls).history)
    decreases |calls|
  {
    if |calls| > 0 {
      var call := calls[0];
      forall id ensures Told(Step(w, call), id) { StepKeeps(w, call, id); }
      assert Told(w, call.id);
      if Perform(w.store, call).Ok? && !call.SaveRoutable? {
        ExtendApproved(w.history, Seen(w.store, call)[0]);
      } else if call.SaveRoutable? && Perform(w.store, call).Ok? {
        assert w.history + [] == w.history;
      }
      EarlierApproval(Step(w, call), calls[1..]);
    }
  }

  /** Every execution comes after an approval of the same id with the same message. */
  ghost predicate ApprovedBefore(history: seq<Happening>) {
    forall i :: 0 <= i < |history| && history[i].Execution? ==>
      FirstApproved(history[..i], history[i].id) == Some(history[i].msg)
  }

  lemma {:induction false} ExtendApproved(history: seq<Happening>, h: Happening)
    requires ApprovedBefore(history)
    requires h.Execution? ==> FirstApproved(history, h.id) == Some(h.msg)
    ensures ApprovedBefore(history + [h])
  {
    var all := history + [h];
    forall i | 0 <= i < |all| && all[i].Execution?
      ensures FirstApproved(all[..i], all[i].id) == Some(all[i].msg)
    {
      if i < |history| { assert all[..i] == history[..i]; } else { assert all[..i] == history; }
    }
  }

  /** In the order of things, too: when a message is executed it has been approved before. */
  lemma {:induction false} ApprovalComesFirst(calls: seq<Call>)
    ensures ApprovedBefore(Run(START, calls).history)
  {
    EarlierApproval(START, calls);
  }

  // ---------------------------------------------------------------- which calls succeed

  /** After any run, by its history: a message is marked as executed exactly when it has been approved, has not been
      executed, and the caller's check accepts it. A refused message stays as it was. An approval is accepted
      exactly when it is the first one for its id or repeats the message of the first one. */
  lemma {:induction false} SucceedsIff(past: seq<Call>, call: Call)
    ensures var w := Run(START, past);
            var approved, r := FirstApproved(w.history, call.id), Perform(w.store, call);
            match call
            case MarkExecuted(id, validate) =>
              && (r == Err(MessageNotApproved) <==> approved.None?)
              && (r == Err(MessageAlreadyExecuted) <==> approved.Some? && Executions(w.history, id) == 1)
              && (r == Err(Refused) <==> approved.Some? && Executions(w.history, id) == 0 && !validate(approved.value))
              && (r.Ok? <==> approved.Some? && Executions(w.history, id) == 0 && validate(approved.value))
              && (r.Ok? ==> r.value == w.store.(executable := w.store.executable[id := Executed(approved.value)]))
              && (r == Err(Refused) ==> Status(Step(w, call).store, id) == Some(Approved(approved.value)))
            case SaveExecutable(id, msg) =>
              && (r.Ok? <==> approved.None? || approved.value == msg)
              && (r.Err? ==> r.error == MessageMismatch)
              && (r.Ok? ==> r.value == if approved.Some? then w.store
                                       else w.store.(executable := w.store.executable[id := Approved(msg)]))
            case SaveRoutable(id, msg) =>
              && (r.Ok? <==> id !in w.store.routable)
              && (r.Err? ==> r.error == MessageAlreadyExists)
              && (r.Ok? ==> r.value == w.store.(routable := w.store.routable[id := msg]))
  {
    RunKeeps(START, past, call.id);
  }

  lemma {:induction false} RunSnoc(w: World, calls: seq<Call>, call: Call)
    ensures Run(w, calls + [call]) == Step(Run(w, calls), call)
    decreases |calls|
  {
    if |calls| == 0 {
      assert calls + [call] == [call] && [call][1..] == [];
    } else {
      assert (calls + [call])[0] == calls[0] && (calls + [call])[1..] == calls[1..] + [call];
      RunSnoc(Step(w, calls[0]), calls[1..], call);
    }
  }

  /** The call finds the message of this id approved and accepts it. */
  ghost predicate Executes(past: seq<Call>, call: Call, id: Id) {
    && call.MarkExecuted? && call.id == id
    && FirstApproved(Run(START, past).history, id).Some?
    && call.validate(FirstApproved(Run(START, past).history, id).value)
  }

  ghost predicate SomeExecutes(calls: seq<Call>, id: Id, n: nat)
    requires n <= |calls|
  {
    exists i :: 0 <= i < n && Executes(calls[..i], calls[i], id)
  }

  lemma {:induction false} StepExecutes(past: seq<Call>, call: Call, id: Id)
    ensures var before, after := Run(START, past).history, Run(START, past + [call]).history;
            && Executions(before, id) <= 1
            && Executions(after, id) == if Executions(before, id) == 1 || Executes(past, call, id) then 1 else 0
  {
    RunSnoc(START, past, call);
    RunKeeps(START, past, id);
    var w := Run(START, past);
    StepKeeps(w, call, id);
    if call.id == id { SucceedsIff(past, call); }
  }

  lemma {:induction false} ExecutedUpTo(calls: seq<Call>, id: Id, n: nat)
    requires n <= |calls|
    ensures Executions(Run(START, calls[..n]).history, id) == if SomeExecutes(calls, id, n) then 1 else 0
  {
    if n > 0 {
      ExecutedUpTo(calls, id, n - 1);
      assert calls[..n] == calls[..n - 1] + [calls[n - 1]];
      StepExecutes(calls[..n - 1], calls[n - 1], id);
      assert SomeExecutes(calls, id, n) <==> SomeExecutes(calls, id, n - 1) || Executes(calls[..n - 1], calls[n - 1], id);
    }
  }

  /** Over every run: a message has been executed exactly when, after its approval, some caller's check has accepted
      it. Calls whose check refuses it do not count. */
  lemma {:induction false} ExecutedIff(calls: seq<Call>, id: Id)
    ensures Executions(Run(START, calls).history, id) == 1 <==>
              exists i :: 0 <= i < |calls| && Executes(calls[..i], calls[i], id)
  {
    assert calls[..|calls|] == calls;
    ExecutedUpTo(calls, id, |calls|);
  }

  class Gateway {
    var routable: map<Id, Message>
    var executable: map<Id, Executable>

    constructor ()
      ensures Contents() == EMPTY
    {
      routable, executable := map[], map[];
    }

    function Contents(): Store
      reads this
    {
      Store(routable, executable)
    }

    method SaveUniqueRoutableMsg(id: Id, msg: Message) returns (e: Option<Error>)
      modifies this`routable
      ensures match Perform(old(Contents()), SaveRoutable(id, msg))
              case Ok(s) => e == None && Contents() == s
              case Err(error) => e == Some(error) && Contents() == old(Contents())
    {
      if id in routable { return Some(MessageAlreadyExists); }
      routable := routable[id := msg];
      return None;
    }

    method SaveExecutableMsg(id: Id, msg: Message) returns (e: Option<Error>)
      modifies this`executable
      ensures match Perform(old(Contents()), SaveExecutable(id, msg))
              case Ok(s) => e == None && Contents() == s
              case Err(error) => e == Some(error) && Contents() == old(Contents())
    {
      if id in executable {
        if executable[id].msg != msg { return Some(MessageMismatch); }
        return None;
      }
      executable := executable[id := Approved(msg)];
      return None;
    }

    method MarkAsExecuted(id: Id, validate: Message -> bool) returns (r: Result<Message, Error>)
      modifies this`executable
      ensures match Perform(old(Contents()), MarkExecuted(id, validate))
              case Ok(s) => r == Ok(old(executable)[id].msg) && Contents() == s
              case Err(error) => r == Err(error) && Contents() == old(Contents())
    {
      if id !in executable { return Err(MessageNotApproved); }
      if executable[id].Executed? { return Err(MessageAlreadyExecuted); }
      var msg := executable[id].msg;
      if !validate(msg) { return Err(Refused); }
      executable := executable[id := Executed(msg)];
      return Ok(msg);
    }
  }
}
