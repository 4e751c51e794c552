/** The driver mailboxes of kernel/src/gdf.rs as a step system: each step is what one call does while
    it holds the driver table's lock. A log per driver name records what happened to its mailbox, and
    the runs are proved to deliver what the log says. A vCPU may be registered under several names.
    Drivers do not use the blocked receive buffer. */
module Mailboxes {
  import opened Basics

  type Name = s: seq<Byte> | |s| == 32 witness seq(32, _ => 0)

  const MAX_DRIVERS: nat := 16
  const NO_RESULT: nat := 0xFFFF_FFFF_FFFF_FFFF

  datatype Flags = Idle | Pending | Response

  datatype Command = Command(cmd: nat, arg0: nat, arg1: nat, arg2: nat)

  // `caller` is 0 when nobody waits for the answer.
  datatype Entry = Entry(name: Name, vcpu: nat, flags: Flags, cmd: Command, result: nat, caller: nat)

  type Table = seq<Option<Entry>>

  datatype Step =
    | Register(name: seq<Byte>, vcpu: nat, present: bool)
    | Send(to: seq<Byte>, cmd: Command)
    | Call(caller: nat, to: seq<Byte>, cmd: Command)
    | Receive(vcpu: nat)
    | Respond(vcpu: nat, result: nat)
    | Crash(vcpu: nat)

  // What the caller sees: success, a command received, a vCPU woken.
  datatype Out = Out(ok: bool, cmd: Option<Command>, wake: Option<nat>)

  // -- Names --------------------------------------------------------------------------

  function Cut(name: seq<Byte>): seq<Byte> {
    if |name| < 31 then name else name[..31]
  }

  function Padded(name: seq<Byte>): Name {
    Cut(name) + seq<Byte>(32 - |Cut(name)|, _ => 0)
  }

  // The comparison send_cmd makes.
  predicate StartsAs(full: Name, name: seq<Byte>) {
    var n := |Cut(name)|;
    full[..n] == Cut(name) && (n == 31 || full[n] == 0)
  }

  // -- The table ------------------------------------------------------------------------

  // The first slot from `i` on whose entry satisfies `p`, or the length of the table.
  function First(t: Table, p: Entry -> bool, i: nat): (k: nat)
    requires i <= |t|
    ensures i <= k <= |t|
    ensures k < |t| ==> t[k].Some? && p(t[k].value)
    ensures forall j :: i <= j < k && t[j].Some? ==> !p(t[j].value)
    decreases |t| - i
  {
    if i == |t| || (t[i].Some? && p(t[i].value)) then i else First(t, p, i + 1)
  }

  function Vacant(t: Table, i: nat): (k: nat)
    requires i <= |t|
    ensures i <= k <= |t| && (k < |t| ==> t[k] == None)
    ensures forall j :: i <= j < k ==> t[j].Some?
    decreases |t| - i
  {
    if i == |t| || t[i] == None then i else Vacant(t, i + 1)
  }

  // The number of slots in use.
  function Filled(t: Table): nat {
    if t == [] then 0 else (if t[0].Some? then 1 else 0) + Filled(t[1..])
  }

  const REFUSED := Out(false, None, None)

  // The mailbox takes a command.
  function Accept(e: Entry, cmd: Command): Entry {
    e.(cmd := cmd, flags := Pending)
  }

  function Next(t: Table, step: Step): (Table, Out) {
    match step
    case Register(name, vcpu, present) =>
      var free := Vacant(t, 0);
      if Filled(t) >= MAX_DRIVERS || First(t, (e: Entry) => e.name == Padded(name), 0) < |t| || !present || free == |t|
      then (t, REFUSED)
      else (t[free := Some(Entry(Padded(name), vcpu, Idle, Command(0, 0, 0, 0), 0, 0))], Out(true, None, None))
    case Send(to, cmd) =>
      var k := First(t, (e: Entry) => StartsAs(e.name, to), 0);
      if k == |t| || t[k].value.flags != Idle then (t, REFUSED)
      else (t[k := Some(Accept(t[k].value, cmd).(result := NO_RESULT))], Out(true, None, Some(t[k].value.vcpu)))
    case Call(caller, to, cmd) =>
      var k := First(t, (e: Entry) => e.name == Padded(to) && e.vcpu != caller, 0);
      if to == [] || k == |t| || t[k].value.flags != Idle then (t, REFUSED)
      else (t[k := Some(Accept(t[k].value, cmd).(caller := caller))], Out(true, None, Some(t[k].value.vcpu)))
    case Receive(vcpu) =>
      var k := First(t, (e: Entry) => e.vcpu == vcpu && e.flags == Pending, 0);
      if k == |t| then (t, REFUSED)
      else (t[k := Some(t[k].value.(flags := Response))], Out(true, Some(t[k].value.cmd), None))
    case Respond(vcpu, result) =>
      var k := First(t, (e: Entry) => e.vcpu == vcpu, 0);
      if k == |t| then (t, REFUSED)
      else (t[k := Some(t[k].value.(result := result, flags := Idle, caller := 0))],
            Out(true, None, if t[k].value.caller == 0 then None else Some(t[k].value.caller)))
    case Crash(vcpu) =>
      var k := First(t, (e: Entry) => e.vcpu == vcpu, 0);
      if k == |t| then (t, REFUSED) else (t[k := None], Out(true, None, None))
  }

  // The slot a step works on.
  function Target(t: Table, step: Step): nat {
    match step
    case Register(_, _, _) => Vacant(t, 0)
    case Send(to, _) => First(t, (e: Entry) => StartsAs(e.name, to), 0)
    case Call(caller, to, _) => First(t, (e: Entry) => e.name == Padded(to) && e.vcpu != caller, 0)
    case Receive(vcpu) => First(t, (e: Entry) => e.vcpu == vcpu && e.flags == Pending, 0)
    case Respond(vcpu, _) => First(t, (e: Entry) => e.vcpu == vcpu, 0)
    case Crash(vcpu) => First(t, (e: Entry) => e.vcpu == vcpu, 0)
  }

  // -- Logs ------------------------------------------------------------------------------

  // For the mailbox of one name: the commands it accepted and gave out, whether the last one accepted
  // is still unread, how many were answered or lost unread, and who waits in a call.
  datatype Log = Log(accepted: seq<Command>, received: seq<Command>, unread: bool, lost: nat, waiting: Option<nat>)

  const NEW_LOG := Log([], [], false, 0, None)

  function Answered(log: Log): Log {
    log.(unread := false, lost := log.lost + (if log.unread then 1 else 0), waiting := None)
  }

  // The step works on the mailbox of `name`.
  predicate Touches(t: Table, step: Step, name: Name) {
    !step.Register? && Next(t, step).1.ok && Named(t, Target(t, step), name)
  }

  // The log of a name after a step on its mailbox.
  function Record(log: Log, step: Step, out: Out): Log {
    match step
    case Register(_, _, _) => log
    case Send(_, cmd) => log.(accepted := log.accepted + [cmd], unread := true, waiting := None)
    case Call(caller, _, cmd) => log.(accepted := log.accepted + [cmd], unread := true, waiting := Some(caller))
    case Receive(_) =>
      if out.cmd.Some? then log.(received := log.received + [out.cmd.value], unread := false) else log
    case Respond(_, _) => Answered(log)
    case Crash(_) => Answered(log)
  }

  function Recorded(log: Log, t: Table, step: Step, name: Name): Log {
    if Touches(t, step, name) then Record(log, step, Next(t, step).1) else log
  }

  // `a` can be had from `b` by leaving out elements.
  predicate Subsequence<T(==)>(a: seq<T>, b: seq<T>) {
    a == [] || (b != [] &&
      ((a[|a| - 1] == b[|b| - 1] && Subsequence(a[..|a| - 1], b[..|b| - 1])) || Subsequence(a, b[..|b| - 1])))
  }

  // -- Invariant ----------------------------------------------------------------------------

  // One entry per name.
  predicate Apart(t: Table) {
    forall i, j :: 0 <= i < j < |t| && t[i].Some? && t[j].Some? ==> t[i].value.name != t[j].value.name
  }

  predicate IdleFree(t: Table) {
    forall i :: 0 <= i < |t| && t[i].Some? && t[i].value.flags == Idle ==> t[i].value.caller == 0
  }

  predicate Named(t: Table, i: nat, name: Name) {
    i < |t| && t[i].Some? && t[i].value.name == name
  }

  predicate Serves(t: Table, i: nat, v: nat) {
    i < |t| && t[i].Some? && t[i].value.vcpu == v
  }

  // The vCPU an answer must wake, 0 for none.
  function Owed(waiting: Option<nat>): nat {
    if waiting.Some? then waiting.value else 0
  }

  predicate EntryOk(e: Entry, log: Log) {
    && (log.unread <==> e.flags == Pending)
    && (e.flags == Pending ==> log.accepted != [] && log.accepted[|log.accepted| - 1] == e.cmd)
    && (e.flags == Idle ==> log.waiting == None)
    && e.caller == Owed(log.waiting)
  }

  // The commands that count as delivered or dropped.
  function Settled(log: Log): seq<Command> {
    if log.unread && log.accepted != [] then log.accepted[..|log.accepted| - 1] else log.accepted
  }

  predicate LogOk(log: Log) {
    && (log.unread ==> log.accepted != [])
    && |Settled(log)| == |log.received| + log.lost && Subsequence(log.received, Settled(log))
  }

  ghost predicate Inv(t: Table, name: Name, log: Log) {
    && Apart(t) && IdleFree(t) && LogOk(log)
    && (forall i: nat {:trigger Named(t, i, name)} :: Named(t, i, name) ==> EntryOk(t[i].value, log))
    && ((forall i: nat :: !Named(t, i, name)) ==> !log.unread && log.waiting == None)
  }

  // -- What steps do to logs -----------------------------------------------------------------

  lemma AcceptLog(log: Log, cmd: Command, waiting: Option<nat>)
    requires LogOk(log) && !log.unread
    ensures LogOk(log.(accepted := log.accepted + [cmd], unread := true, waiting := waiting))
  {
    assert (log.accepted + [cmd])[..|log.accepted|] == log.accepted;
  }

  lemma ReceiveLog(log: Log)
    requires LogOk(log) && log.unread
    ensures LogOk(log.(received := log.received + [log.accepted[|log.accepted| - 1]], unread := false))
  {
    var last := log.accepted[|log.accepted| - 1];
    assert Settled(log) + [last] == log.accepted;
  }

  lemma AnswerLog(log: Log)
    requires LogOk(log)
    ensures LogOk(Answered(log))
  {
    if log.unread {
      var last := log.accepted[|log.accepted| - 1];
      assert Settled(log) + [last] == log.accepted;
    }
  }

  // -- One step ------------------------------------------------------------------------------

  // A slot changes its entry but not its name; other slots stay.
  lemma SlotChanges(t: Table, k: nat, e: Entry, name: Name, log: Log, log': Log)
    requires Inv(t, name, log) && k < |t| && t[k].Some? && e.name == t[k].value.name
    requires e.flags == Idle ==> e.caller == 0
    requires LogOk(log') && if e.name == name then EntryOk(e, log') else log' == log
    ensures Inv(t[k := Some(e)], name, log')
  {
    var t' := t[k := Some(e)];
    assert Named(t, k, e.name);
    forall i: nat | Named(t', i, name)
      ensures EntryOk(t'[i].value, log')
    {
      assert Named(t, i, name);
    }
    if forall i: nat :: !Named(t', i, name) {
      assert !Named(t', k, name);
      forall i: nat ensures !Named(t, i, name) { assert !Named(t', i, name); }
    }
  }

  lemma RegisterKeeps(t: Table, step: Step, name: Name, log: Log)
    requires Inv(t, name, log) && step.Register?
    ensures Inv(Next(t, step).0, name, log)
  {
    var (t', out) := Next(t, step);
    if out.ok {
      var k := Vacant(t, 0);
      assert !Named(t, k, name);
      forall i: nat
        ensures i != k ==> Named(t', i, name) == Named(t, i, name)
      {
      }
      assert First(t, (e: Entry) => e.name == Padded(step.name), 0) == |t|;
      assert Named(t', k, Padded(step.name));
    }
  }

  lemma CrashKeeps(t: Table, vcpu: nat, name: Name, log: Log)
    requires Inv(t, name, log)
    ensures Inv(Next(t, Crash(vcpu)).0, name, Recorded(log, t, Crash(vcpu), name))
  {
    var (t', out) := Next(t, Crash(vcpu));
    if out.ok {
      var k := Target(t, Crash(vcpu));
      AnswerLog(log);
      forall i: nat
        ensures i != k ==> Named(t', i, name) == Named(t, i, name)
      {
      }
      assert Named(t, k, t[k].value.name) && !Named(t', k, name);
    }
  }

  // The step changes the entry it works on to what the new log says.
  lemma EntryLog(t: Table, step: Step, k: nat, log: Log)
    requires !step.Register? && !step.Crash? && Next(t, step).1.ok && k == Target(t, step)
    requires LogOk(log) && EntryOk(t[k].value, log)
    ensures var (t', out) := Next(t, step);
      t'[k].Some? && LogOk(Record(log, step, out)) && EntryOk(t'[k].value, Record(log, step, out))
  {
    match step {
      case Send(_, cmd) => AcceptLog(log, cmd, None);
      case Call(caller, _, cmd) => AcceptLog(log, cmd, Some(caller));
      case Receive(_) => ReceiveLog(log);
      case Respond(_, _) => AnswerLog(log);
    }
  }

  // The step changes one slot, and neither its name nor its vCPU.
  lemma OneSlot(t: Table, step: Step, k: nat)
    requires !step.Register? && !step.Crash? && Next(t, step).1.ok && k == Target(t, step) && IdleFree(t)
    ensures k < |t| && t[k].Some?
    ensures var t' := Next(t, step).0;
      && |t'| == |t| && t'[k].Some? && t' == t[k := t'[k]] && t'[k].value.name == t[k].value.name
      && (t'[k].value.flags == Idle ==> t'[k].value.caller == 0)
  {
  }

  lemma EntryKeeps(t: Table, step: Step, name: Name, log: Log)
    requires Inv(t, name, log) && !step.Register? && !step.Crash? && Next(t, step).1.ok
    ensures Inv(Next(t, step).0, name, Recorded(log, t, step, name))
  {
    var k := Target(t, step);
    OneSlot(t, step, k);
    if t[k].value.name == name {
      assert Named(t, k, name);
      EntryLog(t, step, k, log);
    }
    SlotChanges(t, k, Next(t, step).0[k].value, name, log, Recorded(log, t, step, name));
  }

  lemma StepKeeps(t: Table, step: Step, name: Name, log: Log)
    requires Inv(t, name, log)
    ensures Inv(Next(t, step).0, name, Recorded(log, t, step, name))
  {
    match step {
      case Register(_, _, _) => RegisterKeeps(t, step, name, log);
      case Crash(vcpu) => CrashKeeps(t, vcpu, name, log);
      case _ => if Next(t, step).1.ok { EntryKeeps(t, step, name, log); }
    }
  }

  // -- Runs ----------------------------------------------------------------------------------

  function Empty(): Table {
    seq(MAX_DRIVERS, _ => None)
  }

  function After(steps: seq<Step>): Table {
    if steps == [] then Empty() else Next(After(steps[..|steps| - 1]), steps[|steps| - 1]).0
  }

  function LogOf(steps: seq<Step>, name: Name): Log {
    if steps == [] then NEW_LOG else
    var before, step := steps[..|steps| - 1], steps[|steps| - 1];
    Recorded(LogOf(before, name), After(before), step, name)
  }

  lemma {:induction false} RunKeeps(steps: seq<Step>, name: Name)
    ensures Inv(After(steps), name, LogOf(steps, name))
  {
    if steps != [] {
      RunKeeps(steps[..|steps| - 1], name);
      StepKeeps(After(steps[..|steps| - 1]), steps[|steps| - 1], name, LogOf(steps[..|steps| - 1], name));
    }
  }

  /** In every run, what the driver registered under a name has received for it is a subsequence of what
      was accepted for it, and every accepted command was received, is still unread, or was dropped by
      an answer or a crash that came before it was read. */
  lemma Delivery(steps: seq<Step>, name: Name)
    ensures var log := LogOf(steps, name);
      Subsequence(log.received, log.accepted) &&
      |log.accepted| == |log.received| + log.lost + if log.unread then 1 else 0
  {
    RunKeeps(steps, name);
    var log := LogOf(steps, name);
    if log.unread {
      var last := log.accepted[|log.accepted| - 1];
      assert Settled(log) + [last] == log.accepted;
    }
  }

  lemma SlotLog(steps: seq<Step>, i: nat)
    requires i < |After(steps)| && After(steps)[i].Some?
    ensures EntryOk(After(steps)[i].value, LogOf(steps, After(steps)[i].value.name))
  {
    RunKeeps(steps, After(steps)[i].value.name);
    assert Named(After(steps), i, After(steps)[i].value.name);
  }

  // Slot `i` is the vCPU's and the last command accepted under its name is unread.
  predicate Waiting(steps: seq<Step>, i: nat, v: nat) {
    Serves(After(steps), i, v) && LogOf(steps, After(steps)[i].value.name).unread
  }

  lemma WaitingIs(steps: seq<Step>, i: nat, v: nat)
    ensures Waiting(steps, i, v) <==> Serves(After(steps), i, v) && After(steps)[i].value.flags == Pending
  {
    if Serves(After(steps), i, v) {
      SlotLog(steps, i);
    }
  }

  /** In every run, a receive by a vCPU succeeds if and only if the last command accepted under one of
      its names is unread, and returns the one of the first such slot. */
  lemma ReceiveIsLast(steps: seq<Step>, v: nat)
    ensures var t := After(steps);
      var out, k := Next(t, Receive(v)).1, Target(t, Receive(v));
      && (out.ok <==> exists i: nat :: Waiting(steps, i, v))
      && (out.ok ==> Waiting(steps, k, v) && var log := LogOf(steps, t[k].value.name);
          log.accepted != [] && out.cmd == Some(log.accepted[|log.accepted| - 1]))
      && forall i: nat :: i < k ==> !Waiting(steps, i, v)
  {
    var t := After(steps);
    var k := Target(t, Receive(v));
    forall i: nat
      ensures Waiting(steps, i, v) ==> k <= i && k < |t|
    {
      WaitingIs(steps, i, v);
    }
    if k < |t| {
      WaitingIs(steps, k, v);
      SlotLog(steps, k);
    }
  }

  /** In every run, an answer by a vCPU wakes the caller that waits for the name of its first slot, and
      nobody else. */
  lemma AnswerWakesCaller(steps: seq<Step>, v: nat, result: nat)
    ensures var t := After(steps);
      var out, k := Next(t, Respond(v, result)).1, Target(t, Respond(v, result));
      && (out.ok <==> exists i: nat :: Serves(t, i, v))
      && (!out.ok ==> out.wake == None)
      && (out.ok ==> Serves(t, k, v) && var waiting := LogOf(steps, t[k].value.name).waiting;
          out.wake == if Owed(waiting) == 0 then None else waiting)
  {
    var t := After(steps);
    var k := Target(t, Respond(v, result));
    if k < |t| {
      RunKeeps(steps, t[k].value.name);
      assert Named(t, k, t[k].value.name) && Serves(t, k, v);
    }
  }

  /** The answer ends the wait for a name of the vCPU if and only if no slot of the vCPU comes before
      that name's. With one name per vCPU it always does. */
  lemma AnswerReachesIff(steps: seq<Step>, v: nat, result: nat, i: nat)
    requires Serves(After(steps), i, v) && LogOf(steps, After(steps)[i].value.name).waiting.Some?
    ensures LogOf(steps + [Respond(v, result)], After(steps)[i].value.name).waiting == None
       <==> forall j: nat :: j < i ==> !Serves(After(steps), j, v)
  {
    var t, all := After(steps), steps + [Respond(v, result)];
    assert all[..|steps|] == steps;
    var k := Target(t, Respond(v, result));
    RunKeeps(steps, t[i].value.name);
    assert k <= i && (k < i ==> Serves(t, k, v));
    assert Touches(t, Respond(v, result), t[i].value.name) <==> k == i;
  }

  lemma {:induction false} FilledBelow(t: Table, k: nat)
    requires k < |t| && t[k] == None
    ensures Filled(t) < |t|
  {
    if k > 0 {
      FilledBelow(t[1..], k - 1);
    } else {
      FilledAtMost(t[1..]);
    }
  }

  lemma {:induction false} FilledAtMost(t: Table)
    ensures Filled(t) <= |t|
  {
    if t != [] {
      FilledAtMost(t[1..]);
    }
  }

  lemma OneMore(steps: seq<Step>, step: Step, name: Name)
    ensures After(steps + [step]) == Next(After(steps), step).0
    ensures LogOf(steps + [step], name) == Recorded(LogOf(steps, name), After(steps), step, name)
  {
    assert (steps + [step])[..|steps|] == steps;
  }

  // Driver `v` as it is registered.
  function Fresh(name: seq<Byte>, v: nat): Option<Entry> {
    Some(Entry(Padded(name), v, Idle, Command(0, 0, 0, 0), 0, 0))
  }

  // The table of slots `0` to `k - 1` takes one more name.
  lemma Registers(t: Table, name: seq<Byte>, v: nat, k: nat)
    requires |t| == MAX_DRIVERS && k < |t| && forall i :: 0 <= i < |t| ==> (t[i].Some? <==> i < k)
    requires forall i :: 0 <= i < k ==> t[i].value.name != Padded(name)
    ensures Next(t, Register(name, v, true)).0 == t[k := Fresh(name, v)]
  {
    FilledBelow(t, k);
    assert First(t, (e: Entry) => e.name == Padded(name), 0) == |t|;
    assert Vacant(t, 0) == k;
  }

  // Driver `v` registers under two names.
  lemma TwoNames(v: nat, a: seq<Byte>, b: seq<Byte>) returns (steps: seq<Step>)
    requires Padded(a) != Padded(b)
    ensures After(steps) == Empty()[0 := Fresh(a, v)][1 := Fresh(b, v)] && LogOf(steps, Padded(b)) == NEW_LOG
  {
    Registers(Empty(), a, v, 0);
    Registers(Empty()[0 := Fresh(a, v)], b, v, 1);
    var none := [];
    OneMore(none, Register(a, v, true), Padded(b));
    steps := none + [Register(a, v, true)];
    OneMore(steps, Register(b, v, true), Padded(b));
    steps := steps + [Register(b, v, true)];
  }

  // The slot of the second name, of a table whose first two slots are driver `v`'s.
  lemma SecondSlot(t: Table, v: nat, a: seq<Byte>, b: seq<Byte>, caller: nat, cmd: Command)
    requires |t| >= 2 && t[0] == Fresh(a, v) && t[1] == Fresh(b, v) && Padded(a) != Padded(b) && caller != v
    ensures Target(t, Call(caller, b, cmd)) == 1 && Named(t, 1, Padded(b))
  {
    var k := Target(t, Call(caller, b, cmd));
    assert t[0].value.name != Padded(b);
    assert t[1].value.name == Padded(b) && t[1].value.vcpu != caller;
    assert k != 0;
    assert k <= 1;
  }

  // A command called under the second name is received, and the answer goes to the first slot.
  lemma SecondReceives(t: Table, v: nat, a: seq<Byte>, b: seq<Byte>, caller: nat, cmd: Command)
    requires |t| >= 2 && t[0] == Fresh(a, v) && t[1] == Some(Accept(Fresh(b, v).value, cmd).(caller := caller))
    ensures Target(t, Receive(v)) == 1 && Named(t, 1, Padded(b))
    ensures Next(t, Receive(v)).1 == Out(true, Some(cmd), None) && Next(t, Receive(v)).0[0] == t[0]
  {
    var k := Target(t, Receive(v));
    assert t[0].value.flags != Pending;
    assert t[1].value.vcpu == v && t[1].value.flags == Pending;
    assert k != 0;
    assert k <= 1;
  }

  lemma FirstAnswers(t: Table, v: nat, a: seq<Byte>, result: nat)
    requires |t| > 0 && t[0] == Fresh(a, v)
    ensures Next(t, Respond(v, result)).1.wake == None
  {
    assert t[0].value.vcpu == v;
    assert Target(t, Respond(v, result)) == 0;
  }

  /** A driver with two names receives a command that was called under the second; its answer goes to the
      first, and the caller is not woken. */
  lemma AnswerToOtherName(v: nat, a: seq<Byte>, b: seq<Byte>, caller: nat, cmd: Command, result: nat)
    returns (steps: seq<Step>)
    requires Padded(a) != Padded(b) && b != [] && caller != v
    ensures var log := LogOf(steps, Padded(b));
      log.received == [cmd] && log.waiting == Some(caller) && Next(After(steps), Respond(v, result)).1.wake == None
  {
    var two := TwoNames(v, a, b);
    var call := Call(caller, b, cmd);
    assert |After(two)| == MAX_DRIVERS && After(two)[0] == Fresh(a, v) && After(two)[1] == Fresh(b, v);
    SecondSlot(After(two), v, a, b, caller, cmd);
    OneMore(two, call, Padded(b));
    var called := two + [call];
    SecondReceives(After(called), v, a, b, caller, cmd);
    OneMore(called, Receive(v), Padded(b));
    steps := called + [Receive(v)];
    FirstAnswers(After(steps), v, a, result);
  }

  // -- Crashed drivers -------------------------------------------------------------------------------

  // The slots of vCPU `v` are one at most.
  ghost predicate OneSlotAtMost(t: Table, v: nat) {
    forall i: nat, j: nat :: Serves(t, i, v) && Serves(t, j, v) ==> i == j
  }

  /** A crash drops the first slot of the vCPU and no other, so that no slot of it is left if and only if it
      had one at most. */
  lemma CrashLeavesNoneIff(t: Table, v: nat)
    ensures forall i: nat ::
      Serves(Next(t, Crash(v)).0, i, v) <==> Serves(t, i, v) && exists j: nat :: j < i && Serves(t, j, v)
    ensures (forall i: nat :: !Serves(Next(t, Crash(v)).0, i, v)) <==> OneSlotAtMost(t, v)
  {
    var t', k := Next(t, Crash(v)).0, Target(t, Crash(v));
    assert forall i: nat :: i < k ==> !Serves(t, i, v);
    assert k < |t| ==> Serves(t, k, v);
    forall i: nat
      ensures Serves(t', i, v) <==> Serves(t, i, v) && exists j: nat :: j < i && Serves(t, j, v)
    {
      assert Serves(t', i, v) <==> Serves(t, i, v) && i != k;
      assert Serves(t, i, v) && i != k ==> k < i && Serves(t, k, v);
    }
    if !OneSlotAtMost(t, v) {
      var i: nat, j: nat :| Serves(t, i, v) && Serves(t, j, v) && i != j;
      assert Serves(t', if i < j then j else i, v);
    }
  }

  /** A driver with two names crashes, and the slot it leaves behind takes the next command. */
  lemma CrashedStillTakes(v: nat, a: seq<Byte>, b: seq<Byte>, cmd: Command) returns (steps: seq<Step>)
    requires Padded(a) != Padded(b) && Clean(Padded(b))
    ensures steps != [] && steps[|steps| - 1] == Crash(v)
    ensures Next(After(steps), Send(b, cmd)).1 == Out(true, None, Some(v))
  {
    var two := TwoNames(v, a, b);
    assert |After(two)| == MAX_DRIVERS && After(two)[0] == Fresh(a, v) && After(two)[1] == Fresh(b, v);
    assert After(two)[0].value.vcpu == v;
    assert Target(After(two), Crash(v)) == 0;
    OneMore(two, Crash(v), Padded(b));
    steps := two + [Crash(v)];
    var t := After(steps);
    assert t[0] == None && t[1] == Fresh(b, v);
    StartsAsIsEqual(Padded(b), b);
    var k := Target(t, Send(b, cmd));
    assert StartsAs(t[1].value.name, b);
    assert k == 1;
  }

  /** In every run, an idle mailbox has no caller. */
  lemma IdleHasNoCaller(steps: seq<Step>, i: nat)
    requires i < |After(steps)| && After(steps)[i].Some? && After(steps)[i].value.flags == Idle
    ensures After(steps)[i].value.caller == 0
  {
    RunKeeps(steps, After(steps)[i].value.name);
  }

  // -- Names over runs -------------------------------------------------------------------------

  // A name that ends at its first zero byte.
  predicate Clean(n: Name) {
    n[31] == 0 && forall i, j :: 0 <= i < j < 32 && n[i] == 0 ==> n[j] == 0
  }

  // On clean names the comparison of send_cmd is equality, as that of driver_call is.
  lemma StartsAsIsEqual(n: Name, to: seq<Byte>)
    requires Clean(n) && Clean(Padded(to))
    ensures StartsAs(n, to) <==> n == Padded(to)
  {
    var c := Cut(to);
    assert Padded(to)[..|c|] == c;
    if StartsAs(n, to) {
      forall i | 0 <= i < 32
        ensures n[i] == Padded(to)[i]
      {
        assert i < |c| ==> n[i] == n[..|c|][i];
        assert n[|c|] == 0;
      }
    }
  }

  predicate NamesOk(t: Table) {
    && (forall i :: 0 <= i < |t| && t[i].Some? ==> Clean(t[i].value.name))
    && forall i, j :: 0 <= i < j < |t| && t[i].Some? && t[j].Some? ==> t[i].value.name != t[j].value.name
  }

  lemma StepKeepsNames(t: Table, step: Step)
    requires NamesOk(t) && (step.Register? ==> Clean(Padded(step.name)))
    ensures NamesOk(Next(t, step).0)
  {
    if step.Register? {
      assert forall i :: 0 <= i < |t| && t[i].Some? && First(t, (e: Entry) => e.name == Padded(step.name), 0) == |t| ==>
        t[i].value.name != Padded(step.name);
    }
  }

  lemma {:induction false} RunKeepsNames(steps: seq<Step>)
    requires forall k :: 0 <= k < |steps| && steps[k].Register? ==> Clean(Padded(steps[k].name))
    ensures NamesOk(After(steps))
  {
    if steps != [] {
      RunKeepsNames(steps[..|steps| - 1]);
      StepKeepsNames(After(steps[..|steps| - 1]), steps[|steps| - 1]);
    }
  }

  /** In every run whose drivers register names that end at their first zero byte, padded or not, a
      command sent to such a name is taken by the one driver registered under it, if its mailbox is
      idle, and by no other; so is a call from another vCPU, unless the name is empty. */
  lemma CommandReachesItsDriver(steps: seq<Step>, to: seq<Byte>, cmd: Command, caller: nat, i: nat)
    requires forall k :: 0 <= k < |steps| && steps[k].Register? ==> Clean(Padded(steps[k].name))
    requires Clean(Padded(to))
    requires var t := After(steps); i < |t| && t[i].Some? && t[i].value.name == Padded(to)
    ensures var t := After(steps);
      var idle, d := t[i].value.flags == Idle, t[i].value.vcpu;
      && Next(t, Send(to, cmd)).1.wake == (if idle then Some(d) else None)
      && (caller != d ==> Next(t, Call(caller, to, cmd)).1.wake == if idle && to != [] then Some(d) else None)
  {
    var t := After(steps);
    RunKeepsNames(steps);
    forall k | 0 <= k < |t| && t[k].Some?
      ensures StartsAs(t[k].value.name, to) <==> k == i
      ensures t[k].value.name == Padded(to) <==> k == i
    {
      StartsAsIsEqual(t[k].value.name, to);
    }
    assert Target(t, Send(to, cmd)) == i;
    assert caller != t[i].value.vcpu ==> Target(t, Call(caller, to, cmd)) == i;
  }
}
