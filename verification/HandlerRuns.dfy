/**
 * What becomes of one active interrupt handler over the further actions of the system of `Interleaving`: nested
 * handlers and new edges included. While any handler is active no thread runs, so the table stands still.
 */
module HandlerRuns {
  import opened Options
  import opened Pins
  import opened PinIrq
  import opened Dispatch
  import opened Interleaving

  /** How far a handler has come: the position in its group of the first line it has not yet called for. */
  function Reached(isr: Isr): (p: nat)
    ensures IsrOk(isr, isr.seen) ==> p <= |Group(isr.irq)|
  {
    match isr.pc
    case Testing => 0
    case Checking(pos) => pos
    case Fetching(pos) => pos
    case _ => |Group(isr.irq)|
  }

  /** The status test has found something: the handler will make its calls. */
  predicate PastTest(isr: Isr) {
    isr.pc.Checking? || isr.pc.Fetching? || isr.pc.Clearing?
  }

  /** Past the test, or done with all calls made. */
  predicate Committed(isr: Isr, tab: Table) {
    IsrOk(isr, tab) && (PastTest(isr) || (isr.pc.Done? && isr.called == CallsFrom(tab, isr.irq, 0)))
  }

  /** A bound on the statements a handler has left. */
  function Remaining(isr: Isr): int {
    match isr.pc
    case Testing => 2 * |Group(isr.irq)| + 3
    case Checking(pos) => 2 * (|Group(isr.irq)| - pos) + 2
    case Fetching(pos) => 2 * (|Group(isr.irq)| - pos) + 1
    case Clearing => 1
    case Done => 0
  }

  /** Handler `k` is on the stack after `acts` and after each of the further actions. */
  ghost predicate Stays(pins: Board, n: nat, acts: seq<Action>, more: seq<Action>, k: nat) {
    forall j :: 0 <= j <= |more| ==>
      Exec(pins, n, acts + more[..j]).Some? && k < |Exec(pins, n, acts + more[..j]).value.isrs|
  }

  /** An action is a statement of handler `k`: the topmost handler is the one that runs. */
  predicate StatementOf(s: Sys, a: Action, k: nat) {
    a.IsrAdvance? && |s.isrs| == k + 1
  }

  /** The statements of handler `k` among the further actions. */
  ghost function Statements(pins: Board, n: nat, acts: seq<Action>, more: seq<Action>, k: nat): nat
    requires Exec(pins, n, acts + more).Some?
  {
    Taken(pins, n, acts, more, StatementsOf(k))
  }

  function StatementsOf(k: nat): (Sys, Action) -> bool {
    (s, a) => StatementOf(s, a, k)
  }

  lemma StaysBefore(pins: Board, n: nat, acts: seq<Action>, more: seq<Action>, k: nat)
    requires Stays(pins, n, acts, more, k) && more != []
    ensures Stays(pins, n, acts, more[..|more| - 1], k)
  {
    var last := |more| - 1;
    forall j | 0 <= j <= last
      ensures Exec(pins, n, acts + more[..last][..j]).Some?
      ensures k < |Exec(pins, n, acts + more[..last][..j]).value.isrs|
    {
      assert more[..last][..j] == more[..j];
    }
  }

  // ---- one action ----

  /** One action leaves a handler that stays on the stack alone, or runs one statement of it. */
  lemma HandlerStep(pins: Board, s: Sys, a: Action, k: nat)
    requires Inv(pins, s) && Next(pins, s, a).Some? && k < |s.isrs| && k < |Next(pins, s, a).value.isrs|
    ensures var s' := Next(pins, s, a).value;
            && s'.drv == s.drv
            && s'.isrs[k] == (if StatementOf(s, a, k) then IsrStatement(s.isrs[k], s.drv, s.pending) else s.isrs[k])
            && (StatementOf(s, a, k) ==> !s.isrs[k].pc.Done?)
            && (StatementOf(s, a, k) && s.isrs[k].pc.Clearing? ==> s'.pending == Cleared(s.pending, s.isrs[k].irq))
  {}

  lemma StatementKeeps(isr: Isr, d: Driver, pending: set<LineNo>)
    requires IsrOk(isr, d.tab) && !isr.pc.Done?
    ensures var next := IsrStatement(isr, d, pending);
            && next.irq == isr.irq && 0 <= Remaining(next) < Remaining(isr)
            && (Committed(isr, d.tab) ==> Committed(next, d.tab))
            && (isr.pc.Clearing? <==> PastTest(isr) && next.pc.Done?)
  {
    IsrStatementKeeps(isr, d, pending);
  }

  /** A handler that is not done can always run its next statement once it is on top. */
  lemma HandlerCanGoOn(pins: Board, s: Sys)
    requires Inv(pins, s) && s.isrs != [] && !s.isrs[|s.isrs| - 1].pc.Done?
    ensures Next(pins, s, IsrAdvance).Some?
  {}

  /** From `isr` to `later`, with `used` statements: same group, still committed, and fewer statements left. */
  predicate Onward(isr: Isr, later: Isr, tab: Table, used: nat) {
    && later.irq == isr.irq
    && (Committed(isr, tab) ==> Committed(later, tab))
    && 0 <= Remaining(later) <= Remaining(isr) - used
  }

  lemma OnwardStep(pins: Board, s: Sys, a: Action, k: nat)
    requires Inv(pins, s) && Next(pins, s, a).Some? && k < |s.isrs| && k < |Next(pins, s, a).value.isrs|
    ensures var s' := Next(pins, s, a).value;
            s'.drv == s.drv && Onward(s.isrs[k], s'.isrs[k], s.drv.tab, if StatementOf(s, a, k) then 1 else 0)
  {
    HandlerStep(pins, s, a, k);
    assert IsrOk(s.isrs[k], s.drv.tab);
    if StatementOf(s, a, k) { StatementKeeps(s.isrs[k], s.drv, s.pending); }
  }

  lemma OnwardTwice(isr: Isr, mid: Isr, later: Isr, tab: Table, used: nat, more: nat)
    requires Onward(isr, mid, tab, used) && Onward(mid, later, tab, more)
    ensures Onward(isr, later, tab, used + more)
  {}

  // ---- runs ----

  /** The same for handler `k` of two states of the system, which have the same table. */
  predicate RunsOn(s: Sys, s': Sys, k: nat, used: nat) {
    && k < |s.isrs| && k < |s'.isrs| && s'.drv == s.drv
    && Onward(s.isrs[k], s'.isrs[k], s.drv.tab, used)
  }

  lemma RunsOnStep(pins: Board, s: Sys, m: Sys, a: Action, k: nat, used: nat)
    requires RunsOn(s, m, k, used) && Inv(pins, m)
    requires Next(pins, m, a).Some? && k < |Next(pins, m, a).value.isrs|
    ensures RunsOn(s, Next(pins, m, a).value, k, used + if StatementOf(m, a, k) then 1 else 0)
  {
    OnwardStep(pins, m, a, k);
    var more := if StatementOf(m, a, k) then 1 else 0;
    OnwardTwice(s.isrs[k], m.isrs[k], Next(pins, m, a).value.isrs[k], s.drv.tab, used, more);
  }

  lemma StaysEnd(pins: Board, n: nat, acts: seq<Action>, more: seq<Action>, k: nat)
    requires Stays(pins, n, acts, more, k)
    ensures Exec(pins, n, acts + more).Some? && k < |Exec(pins, n, acts + more).value.isrs|
  {
    assert more[..|more|] == more;
  }

  lemma RunStarts(pins: Board, n: nat, acts: seq<Action>, k: nat)
    requires Exec(pins, n, acts).Some? && k < |Exec(pins, n, acts).value.isrs|
    ensures RunsOn(Exec(pins, n, acts).value, Exec(pins, n, acts).value, k, 0)
  {
    ExecKeeps(pins, n, acts);
    RemainingIsNatural(Exec(pins, n, acts).value.isrs[k], Exec(pins, n, acts).value.drv.tab);
  }

  /**
   * Over any further actions, a handler that stays on the stack keeps table and group, stays committed once it is, and
   * runs no more statements than `Remaining` allows: at most 15 from its entry.
   */
  lemma {:induction false} HandlerRun(pins: Board, n: nat, acts: seq<Action>, more: seq<Action>, k: nat)
    requires Stays(pins, n, acts, more, k)
    ensures Exec(pins, n, acts).Some? && Exec(pins, n, acts + more).Some?
    ensures RunsOn(Exec(pins, n, acts).value, Exec(pins, n, acts + more).value, k, Statements(pins, n, acts, more, k))
  {
    if more == [] {
      assert more[..0] == more && acts + more == acts;
      RunStarts(pins, n, acts, k);
    } else {
      var last := |more| - 1;
      StaysBefore(pins, n, acts, more, k);
      StaysEnd(pins, n, acts, more, k);
      assert more == more[..last] + [more[last]];
      LastAction(pins, n, acts, more[..last], more[last]);
      TakenOne(pins, n, acts, more[..last], more[last], StatementsOf(k));
      HandlerRun(pins, n, acts, more[..last], k);
      RunsOnStep(pins, Exec(pins, n, acts).value, Exec(pins, n, acts + more[..last]).value, more[last], k,
                 Statements(pins, n, acts, more[..last], k));
    }
  }

  lemma RemainingIsNatural(isr: Isr, tab: Table)
    requires IsrOk(isr, tab)
    ensures 0 <= Remaining(isr) <= 15
  {}

  // ---- main results ----

  /**
   * A handler past its status test that stays on the stack until it is done has then made all the calls of its group,
   * in order: those it had made, and those of the lines from where it was.
   */
  lemma HandlerCompletes(pins: Board, n: nat, acts: seq<Action>, more: seq<Action>, k: nat)
    requires Stays(pins, n, acts, more, k)
    requires Exec(pins, n, acts).Some? && k < |Exec(pins, n, acts).value.isrs|
    requires Exec(pins, n, acts + more).Some? && k < |Exec(pins, n, acts + more).value.isrs|
    requires PastTest(Exec(pins, n, acts).value.isrs[k]) && Exec(pins, n, acts + more).value.isrs[k].pc.Done?
    ensures var tab, isr := Exec(pins, n, acts).value.drv.tab, Exec(pins, n, acts).value.isrs[k];
            && Reached(isr) <= |Group(isr.irq)|
            && Exec(pins, n, acts + more).value.isrs[k].called == CallsFrom(tab, isr.irq, 0)
            && CallsFrom(tab, isr.irq, 0) == isr.called + CallsFrom(tab, isr.irq, Reached(isr))
  {
    HandlerRun(pins, n, acts, more, k);
    ExecKeeps(pins, n, acts);
    var s := Exec(pins, n, acts).value;
    assert IsrOk(s.isrs[k], s.drv.tab);
    assert s.isrs[k].called + [] == s.isrs[k].called;
  }

  /** The action with which it becomes done clears its whole group. */
  lemma DoneClears(pins: Board, s: Sys, a: Action, k: nat)
    requires Inv(pins, s) && Next(pins, s, a).Some? && k < |s.isrs| && k < |Next(pins, s, a).value.isrs|
    requires Committed(s.isrs[k], s.drv.tab) && !s.isrs[k].pc.Done? && Next(pins, s, a).value.isrs[k].pc.Done?
    ensures Next(pins, s, a).value.pending == Cleared(s.pending, s.isrs[k].irq)
  {
    HandlerStep(pins, s, a, k);
    StatementKeeps(s.isrs[k], s.drv, s.pending);
  }

  /** A handler runs at most two statements for each line of its group and three more, whatever happens meanwhile. */
  lemma HandlerIsBounded(pins: Board, n: nat, acts: seq<Action>, more: seq<Action>, k: nat)
    requires Stays(pins, n, acts, more, k)
    ensures Exec(pins, n, acts).Some? && k < |Exec(pins, n, acts).value.isrs|
    ensures Exec(pins, n, acts + more).Some?
    ensures Statements(pins, n, acts, more, k) <= Remaining(Exec(pins, n, acts).value.isrs[k]) <= 15
  {
    HandlerRun(pins, n, acts, more, k);
    ExecKeeps(pins, n, acts);
    RemainingIsNatural(Exec(pins, n, acts).value.isrs[k], Exec(pins, n, acts).value.drv.tab);
  }

  /**
   * An edge on a line of the group that has arrived by the time the handler is anywhere past its status test is gone
   * when the handler becomes done, with the action `a`, whatever happens in between. This handler answers it, by one
   * later call of the line's handler, exactly when the line lies at its position or beyond and has a handler; an edge
   * on a line that it has passed gets no call from it. `PendingEdges` says when no other handler answers either.
   */
  lemma EdgeAnsweredUnlessPassed(
      pins: Board, n: nat, acts: seq<Action>, more: seq<Action>, a: Action, k: nat, line: LineNo)
    requires Stays(pins, n, acts, more + [a], k)
    requires Exec(pins, n, acts).Some? && k < |Exec(pins, n, acts).value.isrs|
    requires Exec(pins, n, acts + more).Some? && k < |Exec(pins, n, acts + more).value.isrs|
    requires Exec(pins, n, acts + (more + [a])).Some? && k < |Exec(pins, n, acts + (more + [a])).value.isrs|
    requires PastTest(Exec(pins, n, acts).value.isrs[k])
    requires !Exec(pins, n, acts + more).value.isrs[k].pc.Done?
    requires Exec(pins, n, acts + (more + [a])).value.isrs[k].pc.Done?
    ensures var s, end := Exec(pins, n, acts).value, Exec(pins, n, acts + (more + [a])).value;
            var isr, called := s.isrs[k], end.isrs[k].called;
            && (line in Group(isr.irq) ==> line !in end.pending)
            && isr.called <= called && Reached(isr) <= |Group(isr.irq)|
            && Count(called[|isr.called|..], line) ==
               if line in Group(isr.irq)[Reached(isr)..] && s.drv.tab[line].hdr != 0 then 1 else 0
  {
    var s := Exec(pins, n, acts).value;
    var isr := s.isrs[k];
    HandlerCompletes(pins, n, acts, more + [a], k);
    CountFrom(s.drv.tab, isr.irq, Reached(isr), line);
    LastClears(pins, n, acts, more, a, k);
    GroupIsPreimage(isr.irq, line);
  }

  lemma LastClears(pins: Board, n: nat, acts: seq<Action>, more: seq<Action>, a: Action, k: nat)
    requires Stays(pins, n, acts, more + [a], k)
    requires Exec(pins, n, acts).Some? && k < |Exec(pins, n, acts).value.isrs|
    requires Exec(pins, n, acts + more).Some? && k < |Exec(pins, n, acts + more).value.isrs|
    requires Exec(pins, n, acts + (more + [a])).Some? && k < |Exec(pins, n, acts + (more + [a])).value.isrs|
    requires PastTest(Exec(pins, n, acts).value.isrs[k])
    requires !Exec(pins, n, acts + more).value.isrs[k].pc.Done?
    requires Exec(pins, n, acts + (more + [a])).value.isrs[k].pc.Done?
    ensures Exec(pins, n, acts + (more + [a])).value.pending ==
            Cleared(Exec(pins, n, acts + more).value.pending, Exec(pins, n, acts).value.isrs[k].irq)
  {
    assert (more + [a])[..|more|] == more;
    StaysBefore(pins, n, acts, more + [a], k);
    HandlerRun(pins, n, acts, more, k);
    ExecKeeps(pins, n, acts);
    assert IsrOk(Exec(pins, n, acts).value.isrs[k], Exec(pins, n, acts).value.drv.tab);
    LastAction(pins, n, acts, more, a);
    DoneClears(pins, Exec(pins, n, acts + more).value, a, k);
  }
}
