/**
 * Any number of threads calling the pin operations one statement at a time, on one core, with EXTI
 * interrupt handlers running in between (drivers/drv_gpio.c). Masking interrupts also stops preemption.
 */
module Interleaving {
  import opened Options
  import opened Pins
  import opened PinIrq
  import opened Dispatch

  /**
   * Where a thread is. `start` and `lin` are positions in the log of effects; `entry` is the mask level at the call.
   */
  datatype Phase =
    | Idle
    | Entered(call: Call, start: nat, entry: bool)
    | Critical(call: Call, start: nat, entry: bool, lin: nat, level: bool, line: LineNo, pc: nat)
    | Leaving(call: Call, start: nat, entry: bool, lin: nat, level: bool, err: Err)
    | Returned(call: Call, start: nat, entry: bool, lin: nat, err: Err)

  /** `outer` holds the levels saved by the thread's own nested masking around calls; `issued` the calls it has made. */
  datatype Thread = Thread(phase: Phase, outer: seq<bool>, issued: seq<Call>)

  /** The statements of an EXTI handler: the status test, two steps per line of its group, the clear. */
  datatype IsrPc = Testing | Checking(pos: nat) | Fetching(pos: nat) | Clearing | Done

  /** An active handler: `seen` is the table when it was entered. */
  datatype Isr = Isr(irq: nat, seen: Table, pc: IsrPc, called: seq<Invocation>)

  /** `log` lists the calls in the order of their effects and `who` the threads that made them. */
  datatype Sys = Sys(
    drv: Driver, pending: set<LineNo>, masked: bool,
    threads: seq<Thread>, cur: nat, isrs: seq<Isr>, log: seq<Call>, who: seq<nat>)

  datatype Action =
    | Switch(to: nat)
    | Invoke(call: Call)
    | Advance
    | ClientMask
    | ClientUnmask
    | Edge(line: LineNo)
    | IsrEnter(irq: nat)
    | IsrAdvance
    | IsrLeave

  function Init(n: nat): Sys {
    Sys(RESET, {}, false, seq(n, _ => Thread(Idle, [], [])), 0, [], [], [])
  }

  // ---- the statements between masking and unmasking ----

  datatype Flow = Goto(pc: nat) | Exit(err: Err)

  /** One statement of a critical section; slot fields are written one at a time, in the order of the source. */
  function Statement(pins: Board, d: Driver, c: Call, i: LineNo, pc: nat): (Driver, Flow) {
    var s := d.tab[i];
    match c
    case Attach(pin, mode, hdr, args) =>
      if pc == 0 then (d, if Identical(s, c) then Exit(EOK) else Goto(1))
      else if pc == 1 then (d, if s.pin != -1 then Exit(EBUSY) else Goto(2))
      else if pc == 2 then (d.(tab := d.tab[i := s.(pin := Int16(pin))]), Goto(3))
      else if pc == 3 then (d.(tab := d.tab[i := s.(hdr := hdr)]), Goto(4))
      else if pc == 4 then (d.(tab := d.tab[i := s.(mode := UInt16(mode))]), Goto(5))
      else (d.(tab := d.tab[i := s.(args := args)]), Exit(EOK))
    case Detach(_) =>
      if pc == 0 then (d, if s.pin == -1 then Exit(EOK) else Goto(1))
      else if pc == 1 then (d.(tab := d.tab[i := s.(pin := -1)]), Goto(2))
      else if pc == 2 then (d.(tab := d.tab[i := s.(hdr := 0)]), Goto(3))
      else if pc == 3 then (d.(tab := d.tab[i := s.(mode := 0)]), Goto(4))
      else (d.(tab := d.tab[i := s.(args := 0)]), Exit(EOK))
    case IrqEnable(pin, _, stale) =>
      if pc == 0 then (d, if s.pin == -1 then Exit(ENOSYS) else Goto(1))
      else if pc == 1 && GetPin(pins, pin).Some? then (d.(ports := d.ports[i := GetPin(pins, pin).value.port]), Goto(2))
      else if pc == 2 then
        (d.(lines := d.lines + {i}, triggers := d.triggers[i := TriggerOf(s.mode, stale)]), Goto(3))
      else (d.(irqs := d.irqs + {IrqOf(i)}), Exit(EOK))
  }

  /** Statement `pc` is about to run in a critical section that started in state `base`. */
  predicate Reaches(pins: Board, base: Driver, d: Driver, c: Call, i: LineNo, pc: nat) {
    var s := base.tab[i];
    match c
    case Attach(pin, mode, hdr, args) =>
      && (pc > 0 ==> !Identical(s, c))
      && (pc > 1 ==> s.pin == -1)
      && pc <= 5
      && d == base.(tab := base.tab[i := Slot(if pc > 2 then Int16(pin) else s.pin,
                                              if pc > 4 then UInt16(mode) else s.mode,
                                              if pc > 3 then hdr else s.hdr, s.args)])
    case Detach(_) =>
      && (pc > 0 ==> s.pin != -1)
      && pc <= 4
      && d == base.(tab := base.tab[i := Slot(if pc > 1 then -1 else s.pin, if pc > 3 then 0 else s.mode,
                                              if pc > 2 then 0 else s.hdr, s.args)])
    case IrqEnable(pin, enabled, stale) =>
      && enabled == 1 && GetPin(pins, pin).Some?
      && (pc > 0 ==> s.pin != -1)
      && pc <= 3
      && d == base.(ports := if pc > 1 then base.ports[i := GetPin(pins, pin).value.port] else base.ports,
                    lines := if pc > 2 then base.lines + {i} else base.lines,
                    triggers := if pc > 2 then base.triggers[i := TriggerOf(s.mode, stale)] else base.triggers)
  }

  lemma ReachesStart(pins: Board, base: Driver, c: Call, i: LineNo)
    requires Line(pins, c.pin) == Some(i) && (c.IrqEnable? ==> c.enabled == 1)
    ensures Reaches(pins, base, base, c, i, 0)
  {}

  /** The statements of a critical section, run in order, add up to the call's whole step. */
  lemma StatementAdds(pins: Board, base: Driver, d: Driver, c: Call, i: LineNo, pc: nat)
    requires Line(pins, c.pin) == Some(i) && Reaches(pins, base, d, c, i, pc)
    ensures var (d', flow) := Statement(pins, d, c, i, pc);
            match flow
            case Goto(pc') => Reaches(pins, base, d', c, i, pc')
            case Exit(err) => (d', err) == Step(pins, base, c)
  {
    var after := Statement(pins, d, c, i, pc).0.tab;
    assert after == base.tab[i := after[i]];
    assert base.tab[i := base.tab[i]] == base.tab;
    if c.Detach? && pc > 0 {
      assert Step(pins, base, c) == (base.(tab := base.tab[i := FREE]), EOK);
    } else if c.Attach? && pc > 1 {
      assert Step(pins, base, c) == (base.(tab := base.tab[i := Stored(c)]), EOK);
    } else if c.IrqEnable? && pc > 0 {
      assert Step(pins, base, c) == EnableStep(pins, base, i, c);
    }
  }

  // ---- the step relation ----

  function WithPhase(s: Sys, phase: Phase): Sys
    requires s.cur < |s.threads|
  {
    s.(threads := s.threads[s.cur := s.threads[s.cur].(phase := phase)])
  }

  function Logged(s: Sys, c: Call): Sys {
    s.(log := s.log + [c], who := s.who + [s.cur])
  }

  predicate AtRest(t: Thread) {
    t.phase.Idle? || t.phase.Returned?
  }

  /** A call needs no critical section: the pin has no line, or the request is not an enable. */
  predicate Unlocked(pins: Board, c: Call) {
    Line(pins, c.pin).None? || (c.IrqEnable? && c.enabled != 1)
  }

  /** The rest of such a call: `NVIC_DisableIRQ`, a single store made without masking, or an error return. */
  function UnlockedEffect(pins: Board, d: Driver, c: Call): (Driver, Err) {
    if c.IrqEnable? && c.enabled == 0 && Line(pins, c.pin).Some?
    then (d.(irqs := d.irqs - {IrqOf(Line(pins, c.pin).value)}), EOK)
    else (d, ENOSYS)
  }

  lemma UnlockedIsStep(pins: Board, d: Driver, c: Call)
    requires Unlocked(pins, c)
    ensures UnlockedEffect(pins, d, c) == Step(pins, d, c)
  {}

  /** The running thread executes its next statement. */
  function Advanced(pins: Board, s: Sys): Option<Sys>
    requires s.cur < |s.threads|
  {
    var phase := s.threads[s.cur].phase;
    match phase
    case Entered(c, start, entry) =>
      var s' := Logged(s, c);
      if Unlocked(pins, c) then
        var (d, err) := UnlockedEffect(pins, s.drv, c);
        Some(WithPhase(s', Returned(c, start, entry, |s.log|, err)).(drv := d))
      else
        Some(WithPhase(s', Critical(c, start, entry, |s.log|, s.masked, Line(pins, c.pin).value, 0)).(masked := true))
    case Critical(c, start, entry, lin, level, line, pc) =>
      var (d, flow) := Statement(pins, s.drv, c, line, pc);
      Some(WithPhase(s, match flow
                        case Goto(next) => phase.(pc := next)
                        case Exit(err) => Leaving(c, start, entry, lin, level, err)).(drv := d))
    case Leaving(c, start, entry, lin, level, err) =>
      Some(WithPhase(s, Returned(c, start, entry, lin, err)).(masked := level))
    case _ => None
  }

  function LineAt(irq: nat, pos: nat): Option<LineNo> {
    if pos < |Group(irq)| then Some(Group(irq)[pos]) else None
  }

  /** One statement of an interrupt handler. */
  function IsrStatement(isr: Isr, d: Driver, pending: set<LineNo>): Isr {
    match isr.pc
    case Testing => isr.(pc := if AnyPending(isr.irq, pending, d.lines) then Checking(0) else Done)
    case Checking(pos) =>
      (match LineAt(isr.irq, pos)
       case None => isr.(pc := Clearing)
       case Some(i) => isr.(pc := if d.tab[i].hdr != 0 then Fetching(pos) else Checking(pos + 1)))
    case Fetching(pos) =>
      (match LineAt(isr.irq, pos)
       case None => isr
       case Some(i) =>
         isr.(pc := Checking(pos + 1), called := isr.called + [Invocation(i, d.tab[i].hdr, d.tab[i].args)]))
    case Clearing => isr.(pc := Done)
    case Done => isr
  }

  /** The handler on top executes its next statement; the clear is a write of the whole group. */
  function IsrAdvanced(s: Sys): Option<Sys>
    requires s.isrs != []
  {
    var top := |s.isrs| - 1;
    var isr := s.isrs[top];
    if isr.pc.Done? then None
    else
      Some(s.(isrs := s.isrs[top := IsrStatement(isr, s.drv, s.pending)],
              pending := if isr.pc.Clearing? then Cleared(s.pending, isr.irq) else s.pending))
  }

  function Next(pins: Board, s: Sys, a: Action): Option<Sys>
    requires s.cur < |s.threads|
  {
    var t := s.threads[s.cur];
    match a
    case Switch(to) =>
      if s.isrs == [] && !s.masked && to < |s.threads| then Some(s.(cur := to)) else None
    case Invoke(c) =>
      if s.isrs == [] && AtRest(t)
      then Some(s.(threads := s.threads[s.cur := t.(phase := Entered(c, |s.log|, s.masked), issued := t.issued + [c])]))
      else None
    case Advance =>
      if s.isrs == [] then Advanced(pins, s) else None
    case ClientMask =>
      if s.isrs == [] && AtRest(t)
      then Some(s.(threads := s.threads[s.cur := t.(outer := t.outer + [s.masked])], masked := true))
      else None
    case ClientUnmask =>
      if s.isrs == [] && AtRest(t) && t.outer != []
      then
        var last := |t.outer| - 1;
        Some(s.(threads := s.threads[s.cur := t.(outer := t.outer[..last])], masked := t.outer[last]))
      else None
    case Edge(line) =>
      Some(s.(pending := s.pending + {line}))
    case IsrEnter(irq) =>
      if !s.masked && Group(irq) != [] then Some(s.(isrs := s.isrs + [Isr(irq, s.drv.tab, Testing, [])])) else None
    case IsrAdvance =>
      if s.isrs != [] then IsrAdvanced(s) else None
    case IsrLeave =>
      if s.isrs != [] && s.isrs[|s.isrs| - 1].pc.Done? then Some(s.(isrs := s.isrs[..|s.isrs| - 1])) else None
  }

  /**
   * When each action can happen: threads run only while no handler is active, and are switched only while interrupts
   * are unmasked; edges arrive at any time, and a handler may start whenever interrupts are unmasked.
   */
  lemma Possible(pins: Board, s: Sys, to: nat, c: Call, line: LineNo, irq: nat)
    requires s.cur < |s.threads|
    ensures Next(pins, s, Switch(to)).Some? <==> s.isrs == [] && !s.masked && to < |s.threads|
    ensures Next(pins, s, Invoke(c)).Some? <==> s.isrs == [] && AtRest(s.threads[s.cur])
    ensures Next(pins, s, Advance).Some? <==> s.isrs == [] && !AtRest(s.threads[s.cur])
    ensures Next(pins, s, ClientMask).Some? <==> s.isrs == [] && AtRest(s.threads[s.cur])
    ensures Next(pins, s, ClientUnmask).Some? <==>
              s.isrs == [] && AtRest(s.threads[s.cur]) && s.threads[s.cur].outer != []
    ensures Next(pins, s, Edge(line)).Some?
    ensures Next(pins, s, IsrEnter(irq)).Some? <==> !s.masked && (22 <= irq < 27 || irq == 39 || irq == 56)
    ensures Next(pins, s, IsrAdvance).Some? <==> s.isrs != [] && !s.isrs[|s.isrs| - 1].pc.Done?
    ensures Next(pins, s, IsrLeave).Some? <==> s.isrs != [] && s.isrs[|s.isrs| - 1].pc.Done?
  {}

  // ---- the invariant ----

  /** The calls in the log made by thread `t`, in order. */
  function CallsOf(log: seq<Call>, who: seq<nat>, t: nat): seq<Call>
    requires |log| == |who|
  {
    if log == [] then []
    else
      var last := |log| - 1;
      CallsOf(log[..last], who[..last], t) + if who[last] == t then [log[last]] else []
  }

  predicate Locked(t: Thread) {
    t.phase.Critical? || t.phase.Leaving?
  }

  /** Nested masking saved "unmasked" once, at the outermost level. */
  predicate LevelsOk(outer: seq<bool>) {
    forall k :: 0 <= k < |outer| ==> outer[k] == (k > 0)
  }

  /** What holds of thread `id`; `running` says whether it is the current one. */
  predicate ThreadOk(pins: Board, t: Thread, id: nat, running: bool, masked: bool, log: seq<Call>, who: seq<nat>)
    requires |log| == |who|
  {
    && LevelsOk(t.outer)
    && (running ==> (masked <==> t.outer != [] || Locked(t)))
    && (!running ==> t.outer == [] && !Locked(t))
    && (t.phase.Entered? || Locked(t) ==> t.phase.entry == (t.outer != []))
    && (Locked(t) ==> t.phase.level == t.phase.entry && t.phase.lin == |log| - 1)
    && (t.phase.Entered? ==> t.phase.start <= |log|)
    && (Locked(t) || t.phase.Returned? ==>
          && t.phase.start <= t.phase.lin < |log|
          && log[t.phase.lin] == t.phase.call && who[t.phase.lin] == id)
    && (t.phase.Returned? ==> t.phase.err == ResultAt(pins, log, t.phase.lin))
    && (t.phase.Entered? ==> t.issued == CallsOf(log, who, id) + [t.phase.call])
    && (!t.phase.Entered? ==> t.issued == CallsOf(log, who, id))
  }

  /** The driver's state, relative to the sequential run of the log. */
  predicate DriverOk(pins: Board, drv: Driver, t: Thread, log: seq<Call>) {
    match t.phase
    case Critical(c, _, _, lin, _, line, pc) =>
      && 0 < |log| && lin == |log| - 1 && log[lin] == c
      && Line(pins, c.pin) == Some(line)
      && Reaches(pins, After(pins, log, lin), drv, c, line, pc)
    case Leaving(_, _, _, lin, _, err) =>
      0 < |log| && lin == |log| - 1 && drv == Run(pins, log) && err == ResultAt(pins, log, lin)
    case _ => drv == Run(pins, log)
  }

  /** What a handler has called, together with what is left to call, is what its table asks for. */
  predicate IsrOk(isr: Isr, tab: Table) {
    && isr.seen == tab
    && var all := CallsFrom(tab, isr.irq, 0);
       match isr.pc
       case Testing => isr.called == []
       case Checking(pos) => pos <= |Group(isr.irq)| && isr.called + CallsFrom(tab, isr.irq, pos) == all
       case Fetching(pos) =>
         && pos < |Group(isr.irq)| && tab[Group(isr.irq)[pos]].hdr != 0
         && isr.called + CallsFrom(tab, isr.irq, pos) == all
       case Clearing => isr.called == all
       case Done => isr.called == [] || isr.called == all
  }

  predicate Inv(pins: Board, s: Sys) {
    && s.cur < |s.threads|
    && |s.log| == |s.who|
    && (s.isrs != [] ==> !s.masked)
    && (forall t :: 0 <= t < |s.threads| ==> ThreadOk(pins, s.threads[t], t, t == s.cur, s.masked, s.log, s.who))
    && DriverOk(pins, s.drv, s.threads[s.cur], s.log)
    && (forall k :: 0 <= k < |s.isrs| ==> IsrOk(s.isrs[k], s.drv.tab))
  }

  lemma CallsOfGrows(log: seq<Call>, who: seq<nat>, c: Call, w: nat, t: nat)
    requires |log| == |who|
    ensures CallsOf(log + [c], who + [w], t) == CallsOf(log, who, t) + if w == t then [c] else []
  {}

  /** A thread that is not running is not disturbed by another thread's effect. */
  lemma OthersKeep(
      pins: Board, t: Thread, id: nat, masked: bool, masked': bool, log: seq<Call>, who: seq<nat>, c: Call, w: nat)
    requires |log| == |who| && id != w
    requires ThreadOk(pins, t, id, false, masked, log, who)
    ensures ThreadOk(pins, t, id, false, masked', log + [c], who + [w])
  {
    CallsOfGrows(log, who, c, w, id);
    if t.phase.Returned? {
      AfterPrefix(pins, log, [c], t.phase.lin);
    }
  }

  lemma RunGrows(pins: Board, log: seq<Call>, c: Call)
    ensures After(pins, log + [c], |log|) == Run(pins, log)
    ensures Run(pins, log + [c]) == Step(pins, Run(pins, log), c).0
    ensures ResultAt(pins, log + [c], |log|) == Step(pins, Run(pins, log), c).1
  {
    AfterPrefix(pins, log, [c], |log|);
  }

  lemma InitOk(pins: Board, n: nat)
    requires n > 0
    ensures Inv(pins, Init(n))
  {}

  lemma EnteredUnlocked(pins: Board, s: Sys)
    requires Inv(pins, s) && s.threads[s.cur].phase.Entered? && Unlocked(pins, s.threads[s.cur].phase.call)
    ensures var s' := Advanced(pins, s).value;
            && |s'.log| == |s'.who| && s'.cur == s.cur < |s'.threads|
            && ThreadOk(pins, s'.threads[s.cur], s.cur, true, s'.masked, s'.log, s'.who)
            && DriverOk(pins, s'.drv, s'.threads[s.cur], s'.log)
  {
    var c := s.threads[s.cur].phase.call;
    assert ThreadOk(pins, s.threads[s.cur], s.cur, true, s.masked, s.log, s.who);
    RunGrows(pins, s.log, c);
    CallsOfGrows(s.log, s.who, c, s.cur, s.cur);
    UnlockedIsStep(pins, s.drv, c);
  }

  lemma EnteredLocking(pins: Board, s: Sys)
    requires Inv(pins, s) && s.threads[s.cur].phase.Entered? && !Unlocked(pins, s.threads[s.cur].phase.call)
    ensures var s' := Advanced(pins, s).value;
            && |s'.log| == |s'.who| && s'.cur == s.cur < |s'.threads|
            && ThreadOk(pins, s'.threads[s.cur], s.cur, true, s'.masked, s'.log, s'.who)
            && DriverOk(pins, s'.drv, s'.threads[s.cur], s'.log)
  {
    var c := s.threads[s.cur].phase.call;
    assert ThreadOk(pins, s.threads[s.cur], s.cur, true, s.masked, s.log, s.who);
    CallsOfGrows(s.log, s.who, c, s.cur, s.cur);
    AfterPrefix(pins, s.log, [c], |s.log|);
    ReachesStart(pins, s.drv, c, Line(pins, c.pin).value);
  }

  lemma EnteredKeeps(pins: Board, s: Sys)
    requires Inv(pins, s) && s.isrs == [] && s.threads[s.cur].phase.Entered?
    ensures Advanced(pins, s).Some? && Inv(pins, Advanced(pins, s).value)
  {
    if Unlocked(pins, s.threads[s.cur].phase.call) {
      EnteredUnlocked(pins, s);
    } else {
      EnteredLocking(pins, s);
    }
    var s' := Advanced(pins, s).value;
    forall k | 0 <= k < |s'.threads| && k != s.cur
      ensures ThreadOk(pins, s'.threads[k], k, false, s'.masked, s'.log, s'.who)
    {
      OthersKeep(pins, s.threads[k], k, s.masked, s'.masked, s.log, s.who, s.threads[s.cur].phase.call, s.cur);
    }
  }

  lemma LockedKeeps(pins: Board, s: Sys)
    requires Inv(pins, s) && s.isrs == [] && Locked(s.threads[s.cur])
    ensures Advanced(pins, s).Some? && Inv(pins, Advanced(pins, s).value)
  {
    var t := s.threads[s.cur];
    if t.phase.Critical? {
      assert s.log == s.log[..t.phase.lin] + [t.phase.call];
      StatementAdds(pins, After(pins, s.log, t.phase.lin), s.drv, t.phase.call, t.phase.line, t.phase.pc);
    }
  }

  lemma CheckingKeeps(isr: Isr, d: Driver, pending: set<LineNo>)
    requires IsrOk(isr, d.tab) && isr.pc.Checking?
    ensures IsrOk(IsrStatement(isr, d, pending), d.tab)
  {
    var pos := isr.pc.pos;
    if pos == |Group(isr.irq)| {
      assert isr.called + [] == isr.called;
    } else {
      CallMoves(isr.called, d.tab, isr.irq, pos);
      if d.tab[Group(isr.irq)[pos]].hdr == 0 {
        assert isr.called + CallOn(d.tab, Group(isr.irq)[pos]) == isr.called;
      }
    }
  }

  lemma FetchingKeeps(isr: Isr, d: Driver, pending: set<LineNo>)
    requires IsrOk(isr, d.tab) && isr.pc.Fetching?
    ensures IsrOk(IsrStatement(isr, d, pending), d.tab)
  {
    CallMoves(isr.called, d.tab, isr.irq, isr.pc.pos);
  }

  lemma IsrStatementKeeps(isr: Isr, d: Driver, pending: set<LineNo>)
    requires IsrOk(isr, d.tab)
    ensures IsrOk(IsrStatement(isr, d, pending), d.tab)
  {
    if isr.pc.Checking? {
      CheckingKeeps(isr, d, pending);
    } else if isr.pc.Fetching? {
      FetchingKeeps(isr, d, pending);
    } else {
      assert [] + CallsFrom(d.tab, isr.irq, 0) == CallsFrom(d.tab, isr.irq, 0);
    }
  }

  lemma IsrKeeps(pins: Board, s: Sys)
    requires Inv(pins, s) && s.isrs != [] && IsrAdvanced(s).Some?
    ensures Inv(pins, IsrAdvanced(s).value)
  {
    IsrStatementKeeps(s.isrs[|s.isrs| - 1], s.drv, s.pending);
  }

  lemma ClientKeeps(pins: Board, s: Sys, a: Action)
    requires Inv(pins, s) && Next(pins, s, a).Some? && (a.Invoke? || a.ClientMask? || a.ClientUnmask?)
    ensures Inv(pins, Next(pins, s, a).value)
  {}

  lemma HardwareKeeps(pins: Board, s: Sys, a: Action)
    requires Inv(pins, s) && Next(pins, s, a).Some? && (a.Switch? || a.Edge? || a.IsrEnter? || a.IsrLeave?)
    ensures Inv(pins, Next(pins, s, a).value)
  {}

  /** Every possible action, of a thread, a handler or the hardware, keeps the invariant. */
  lemma NextKeeps(pins: Board, s: Sys, a: Action)
    requires Inv(pins, s) && Next(pins, s, a).Some?
    ensures Inv(pins, Next(pins, s, a).value)
  {
    if a.IsrAdvance? {
      IsrKeeps(pins, s);
    } else if a.Advance? {
      if s.threads[s.cur].phase.Entered? {
        EnteredKeeps(pins, s);
      } else {
        LockedKeeps(pins, s);
      }
    } else if a.Invoke? || a.ClientMask? || a.ClientUnmask? {
      ClientKeeps(pins, s, a);
    } else {
      HardwareKeeps(pins, s, a);
    }
  }

  /** The state after a run of actions, or `None` if one of them was not possible. */
  function Exec(pins: Board, n: nat, acts: seq<Action>): Option<Sys> {
    if n == 0 then None
    else if acts == [] then Some(Init(n))
    else
      match Exec(pins, n, acts[..|acts| - 1])
      case None => None
      case Some(s) => if s.cur < |s.threads| then Next(pins, s, acts[|acts| - 1]) else None
  }

  lemma {:induction false} ExecKeeps(pins: Board, n: nat, acts: seq<Action>)
    requires Exec(pins, n, acts).Some?
    ensures Inv(pins, Exec(pins, n, acts).value)
  {
    if acts == [] {
      InitOk(pins, n);
    } else {
      ExecKeeps(pins, n, acts[..|acts| - 1]);
      NextKeeps(pins, Exec(pins, n, acts[..|acts| - 1]).value, acts[|acts| - 1]);
    }
  }

  // ---- main results ----

  /** The run after `acts`, followed by one more action. */
  lemma ExecOne(pins: Board, n: nat, acts: seq<Action>, a: Action)
    requires Exec(pins, n, acts + [a]).Some?
    ensures Exec(pins, n, acts).Some?
    ensures var s := Exec(pins, n, acts).value;
            s.cur < |s.threads| && Next(pins, s, a) == Exec(pins, n, acts + [a])
  {
    assert (acts + [a])[..|acts|] == acts;
  }

  /** And the other way round: an action that is possible goes on with the run. */
  lemma ExecNext(pins: Board, n: nat, acts: seq<Action>, a: Action)
    requires Exec(pins, n, acts).Some? && Exec(pins, n, acts).value.cur < |Exec(pins, n, acts).value.threads|
    ensures Exec(pins, n, acts + [a]) == Next(pins, Exec(pins, n, acts).value, a)
  {
    assert (acts + [a])[..|acts|] == acts;
  }

  /** No action takes anything out of the log. */
  lemma NextExtendsLog(pins: Board, s: Sys, a: Action)
    requires Inv(pins, s) && Next(pins, s, a).Some?
    ensures s.log <= Next(pins, s, a).value.log && s.who <= Next(pins, s, a).value.who
  {}

  lemma {:induction false} LogGrows(pins: Board, n: nat, acts: seq<Action>, more: seq<Action>)
    requires Exec(pins, n, acts + more).Some?
    ensures Exec(pins, n, acts).Some?
    ensures Exec(pins, n, acts).value.log <= Exec(pins, n, acts + more).value.log
    ensures Exec(pins, n, acts).value.who <= Exec(pins, n, acts + more).value.who
  {
    if more == [] {
      assert acts + more == acts;
    } else {
      var last := |more| - 1;
      assert acts + more == acts + more[..last] + [more[last]];
      ExecOne(pins, n, acts + more[..last], more[last]);
      LogGrows(pins, n, acts, more[..last]);
      ExecKeeps(pins, n, acts + more[..last]);
      NextExtendsLog(pins, Exec(pins, n, acts + more[..last]).value, more[last]);
    }
  }

  /** The last of some further actions is one action of the system. */
  lemma LastAction(pins: Board, n: nat, acts: seq<Action>, before: seq<Action>, a: Action)
    requires Exec(pins, n, acts + (before + [a])).Some?
    ensures Exec(pins, n, acts + before).Some? && Inv(pins, Exec(pins, n, acts + before).value)
    ensures Next(pins, Exec(pins, n, acts + before).value, a) == Exec(pins, n, acts + (before + [a]))
  {
    assert acts + (before + [a]) == acts + before + [a];
    ExecOne(pins, n, acts + before, a);
    ExecKeeps(pins, n, acts + before);
  }

  /** How many of the actions `more` that follow `acts` are, in the states they are taken in, of one kind. */
  ghost function Taken(pins: Board, n: nat, acts: seq<Action>, more: seq<Action>, kind: (Sys, Action) -> bool): nat
    requires Exec(pins, n, acts + more).Some?
  {
    if more == [] then 0
    else
      var before, a := more[..|more| - 1], more[|more| - 1];
      assert more == before + [a];
      LastAction(pins, n, acts, before, a);
      Taken(pins, n, acts, before, kind) + if kind(Exec(pins, n, acts + before).value, a) then 1 else 0
  }

  lemma TakenOne(pins: Board, n: nat, acts: seq<Action>, before: seq<Action>, a: Action, kind: (Sys, Action) -> bool)
    requires Exec(pins, n, acts + (before + [a])).Some?
    ensures Exec(pins, n, acts + before).Some?
    ensures Taken(pins, n, acts, before + [a], kind) ==
            Taken(pins, n, acts, before, kind) + if kind(Exec(pins, n, acts + before).value, a) then 1 else 0
  {
    assert (before + [a])[..|before|] == before;
    LastAction(pins, n, acts, before, a);
  }

  /** What the invariant says of one thread, at the end of a run. */
  lemma ThreadNow(pins: Board, n: nat, acts: seq<Action>, t: nat)
    requires Exec(pins, n, acts).Some? && t < |Exec(pins, n, acts).value.threads|
    ensures var s := Exec(pins, n, acts).value; var th := s.threads[t];
            && |s.log| == |s.who|
            && (th.phase.Returned? ==>
                  && th.phase.start <= th.phase.lin < |s.log|
                  && s.log[th.phase.lin] == th.phase.call && s.who[th.phase.lin] == t
                  && th.phase.err == ResultAt(pins, s.log, th.phase.lin))
            && th.issued == CallsOf(s.log, s.who, t) + (if th.phase.Entered? then [th.phase.call] else [])
            && (!s.masked ==> s.drv == Run(pins, s.log))
  {
    ExecKeeps(pins, n, acts);
    var s := Exec(pins, n, acts).value;
    assert ThreadOk(pins, s.threads[s.cur], s.cur, true, s.masked, s.log, s.who);
    assert ThreadOk(pins, s.threads[t], t, t == s.cur, s.masked, s.log, s.who);
  }

  /** What a call that has returned finds in the log, every longer log confirms. */
  lemma ReturnStands(pins: Board, n: nat, acts: seq<Action>, log: seq<Call>, who: seq<nat>, t: nat)
    requires Exec(pins, n, acts).Some? && |log| == |who|
    requires Exec(pins, n, acts).value.log <= log && Exec(pins, n, acts).value.who <= who
    ensures ReturnedWithin(pins, Exec(pins, n, acts).value, t, log, who)
  {
    var m := Exec(pins, n, acts).value;
    if t < |m.threads| && m.threads[t].phase.Returned? {
      ThreadNow(pins, n, acts, t);
      assert log == m.log + log[|m.log|..];
      AfterPrefix(pins, m.log, log[|m.log|..], m.threads[t].phase.lin);
    }
  }

  /**
   * If thread `t` has returned from its latest call in state `m`: the log has that call, by that thread, at a position
   * between its invocation and its return, and the sequential run of the log gives its return code there.
   */
  predicate ReturnedWithin(pins: Board, m: Sys, t: nat, log: seq<Call>, who: seq<nat>)
    requires |log| == |who|
  {
    t < |m.threads| && m.threads[t].phase.Returned? ==>
      var phase := m.threads[t].phase;
      && phase.start <= phase.lin < |m.log| <= |log|
      && log[phase.lin] == phase.call && who[phase.lin] == t
      && phase.err == ResultAt(pins, log, phase.lin)
  }

  /**
   * Every interleaving is equivalent to running its whole log one call after the other: each call that has returned at
   * any moment of the run, after the actions `acts`, took effect once, at a position of the final log between its
   * invocation and its return, with the return code the sequential run of the final log gives at that position; each
   * thread's calls are logged in the order it made them; and whenever no critical section is open the driver's state
   * is that of the sequential run.
   */
  lemma Linearizable(pins: Board, n: nat, acts: seq<Action>, more: seq<Action>, t: nat)
    requires Exec(pins, n, acts + more).Some?
    ensures Exec(pins, n, acts).Some?
    ensures var m, s := Exec(pins, n, acts).value, Exec(pins, n, acts + more).value;
            && |m.log| == |m.who| && |s.log| == |s.who| && m.log <= s.log && m.who <= s.who
            && ReturnedWithin(pins, m, t, s.log, s.who)
            && (t < |s.threads| ==>
                  var th := s.threads[t];
                  th.issued == CallsOf(s.log, s.who, t) + (if th.phase.Entered? then [th.phase.call] else []))
            && (!s.masked ==> s.drv == Run(pins, s.log))
  {
    LogGrows(pins, n, acts, more);
    ExecKeeps(pins, n, acts);
    ExecKeeps(pins, n, acts + more);
    var s := Exec(pins, n, acts + more).value;
    ReturnStands(pins, n, acts, s.log, s.who, t);
    ThreadNow(pins, n, acts + more, s.cur);
    if t < |s.threads| { ThreadNow(pins, n, acts + more, t); }
  }

  /**
   * A call that is made after another one has returned takes effect after it: what it records as the start of its
   * interval lies beyond the position of every call that has returned before, of any thread.
   */
  lemma LaterCallsComeLater(pins: Board, n: nat, acts: seq<Action>, more: seq<Action>, c: Call, t: nat)
    requires Exec(pins, n, acts + more + [Invoke(c)]).Some?
    ensures Exec(pins, n, acts).Some?
    ensures var m, s := Exec(pins, n, acts).value, Exec(pins, n, acts + more + [Invoke(c)]).value;
            && s.cur < |s.threads| && s.threads[s.cur].phase.Entered?
            && (t < |m.threads| && m.threads[t].phase.Returned? ==>
                  m.threads[t].phase.lin < s.threads[s.cur].phase.start)
  {
    ExecOne(pins, n, acts + more, Invoke(c));
    Linearizable(pins, n, acts, more, t);
  }

  /** Whenever interrupts are unmasked, and so whenever a handler is active, every slot is fully written. */
  lemma UnmaskedTableIsWellFormed(pins: Board, n: nat, acts: seq<Action>)
    requires Exec(pins, n, acts).Some?
    ensures var s := Exec(pins, n, acts).value;
            && (s.isrs != [] ==> !s.masked)
            && (!s.masked ==> WellFormed(pins, s.drv.tab))
  {
    ExecKeeps(pins, n, acts);
    var s := Exec(pins, n, acts).value;
    assert ThreadOk(pins, s.threads[s.cur], s.cur, true, s.masked, s.log, s.who);
    ReachableIsWellFormed(pins, s.log, |s.log|);
  }

  /**
   * Every handler that an active interrupt handler has called, however it was interleaved with the threads,
   * is the one given by the first attach on its line since the last detach, called with that attach's
   * argument; a detached handler is never called.
   */
  lemma CalledHandlersAreAttached(pins: Board, n: nat, acts: seq<Action>, k: nat, v: Invocation)
    requires Exec(pins, n, acts).Some?
    requires k < |Exec(pins, n, acts).value.isrs| && v in Exec(pins, n, acts).value.isrs[k].called
    ensures var log := Exec(pins, n, acts).value.log;
            exists a: nat ::
              FirstAttachSinceDetach(pins, log, |log|, v.line, a) && log[a].hdr == v.hdr && log[a].args == v.args
    ensures v.hdr != 0 && v.line in Group(Exec(pins, n, acts).value.isrs[k].irq)
  {
    ExecKeeps(pins, n, acts);
    var s := Exec(pins, n, acts).value;
    var isr := s.isrs[k];
    assert IsrOk(isr, s.drv.tab);
    assert v in CallsFrom(s.drv.tab, isr.irq, 0);
    CallsAreStored(s.drv.tab, isr.irq, 0, v);
    ThreadNow(pins, n, acts, s.cur);
    SlotFreeWhenNoneSinceDetach(pins, s.log, |s.log|, v.line);
    var a := FirstAttach(pins, s.log, |s.log|, v.line);
    SlotIsFirstAttachSinceDetach(pins, s.log, |s.log|, v.line, a);
  }

  /** Every return path leaves the interrupt mask as it was when the call was made, masked or not. */
  lemma ReturnRestoresLevel(pins: Board, n: nat, acts: seq<Action>)
    requires Exec(pins, n, acts + [Advance]).Some?
    ensures var s := Exec(pins, n, acts + [Advance]).value;
            s.cur < |s.threads| && (s.threads[s.cur].phase.Returned? ==> s.masked == s.threads[s.cur].phase.entry)
  {
    assert (acts + [Advance])[..|acts|] == acts;
    ExecKeeps(pins, n, acts);
    var s := Exec(pins, n, acts).value;
    assert ThreadOk(pins, s.threads[s.cur], s.cur, true, s.masked, s.log, s.who);
  }

  /** The table is written only while interrupts are masked. */
  lemma TableWritesAreMasked(pins: Board, n: nat, acts: seq<Action>, a: Action)
    requires Exec(pins, n, acts + [a]).Some?
    ensures Exec(pins, n, acts).Some?
    ensures Exec(pins, n, acts + [a]).value.drv.tab != Exec(pins, n, acts).value.drv.tab ==>
              Exec(pins, n, acts).value.masked
  {
    assert (acts + [a])[..|acts|] == acts;
    ExecKeeps(pins, n, acts);
    var s := Exec(pins, n, acts).value;
    assert ThreadOk(pins, s.threads[s.cur], s.cur, true, s.masked, s.log, s.who);
  }
}
