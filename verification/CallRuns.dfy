/**
 * Calls in the system of `Interleaving` end: in any run a thread has returned after a few statements of its own, and
 * left alone it does return.
 */
module CallRuns {
  import opened Options
  import opened Pins
  import opened PinIrq
  import opened Interleaving

  /** The statements a call has left; the longest critical section has six. */
  function Left(phase: Phase): int {
    match phase
    case Entered(_, _, _) => 8
    case Critical(_, _, _, _, _, _, pc) => 7 - pc
    case Leaving(_, _, _, _, _, _) => 1
    case _ => 0
  }

  predicate InCall(phase: Phase) {
    phase.Entered? || phase.Critical? || phase.Leaving?
  }

  /** What a statement of the running thread leaves alone, and what it logs. */
  predicate Alone(s: Sys, s': Sys) {
    && s'.pending == s.pending && s'.isrs == s.isrs && s'.cur == s.cur && |s'.threads| == |s.threads|
    && s.cur < |s.threads|
    && s'.threads[s.cur].outer == s.threads[s.cur].outer
    && s'.log == s.log + if s.threads[s.cur].phase.Entered? then [s.threads[s.cur].phase.call] else []
  }

  /** One statement of a call: it is always possible, and brings the return closer. */
  lemma AdvanceStep(pins: Board, s: Sys)
    requires Inv(pins, s) && s.isrs == [] && InCall(s.threads[s.cur].phase)
    ensures Next(pins, s, Advance).Some?
    ensures var s' := Next(pins, s, Advance).value;
            && Alone(s, s')
            && (InCall(s'.threads[s.cur].phase) || s'.threads[s.cur].phase.Returned?)
            && !s'.threads[s.cur].phase.Entered?
            && 0 <= Left(s'.threads[s.cur].phase) < Left(s.threads[s.cur].phase)
  {
    assert DriverOk(pins, s.drv, s.threads[s.cur], s.log);
  }

  /** `s` is the state after `acts`. */
  predicate At(pins: Board, n: nat, acts: seq<Action>, s: Sys) {
    Exec(pins, n, acts) == Some(s) && s.cur < |s.threads|
  }

  /** A statement of a call, as a step of a run. */
  lemma AdvanceExec(pins: Board, n: nat, acts: seq<Action>, s: Sys) returns (next: Sys)
    requires At(pins, n, acts, s) && s.isrs == [] && InCall(s.threads[s.cur].phase)
    ensures At(pins, n, acts + [Advance], next) && Alone(s, next)
    ensures !next.threads[s.cur].phase.Entered?
    ensures InCall(next.threads[s.cur].phase) || next.threads[s.cur].phase.Returned?
    ensures 0 <= Left(next.threads[s.cur].phase) < Left(s.threads[s.cur].phase) <= 8
  {
    ExecKeeps(pins, n, acts);
    AdvanceStep(pins, s);
    ExecNext(pins, n, acts, Advance);
    next := Next(pins, s, Advance).value;
  }

  lemma AloneTwice(s: Sys, m: Sys, s': Sys)
    requires Alone(s, m) && Alone(m, s') && !m.threads[s.cur].phase.Entered?
    ensures Alone(s, s')
  {}

  function Advances(m: nat): seq<Action> {
    if m == 0 then [] else [Advance] + Advances(m - 1)
  }

  lemma AdvancesFirst(acts: seq<Action>, m: nat)
    ensures acts + [Advance] + Advances(m) == acts + Advances(m + 1)
  {}

  /**
   * From every reachable moment in a call, the running thread returns after at most eight more statements, if no
   * handler is active and nothing else is scheduled meanwhile; it has then left everything but its own effect alone.
   */
  lemma {:induction false} CallCompletes(pins: Board, n: nat, acts: seq<Action>, s: Sys) returns (m: nat, end: Sys)
    requires At(pins, n, acts, s) && s.isrs == [] && InCall(s.threads[s.cur].phase)
    ensures m <= Left(s.threads[s.cur].phase) <= 8
    ensures At(pins, n, acts + Advances(m), end) && Alone(s, end) && end.threads[s.cur].phase.Returned?
    decreases Left(s.threads[s.cur].phase)
  {
    var next := AdvanceExec(pins, n, acts, s);
    if InCall(next.threads[s.cur].phase) {
      m, end := CallCompletes(pins, n, acts + [Advance], next);
      AdvancesFirst(acts, m);
      AloneTwice(s, next, end);
      m := m + 1;
    } else {
      m, end := 1, next;
      assert Advances(1) == [Advance];
    }
  }

  // ---- any run ----

  /** An action is a statement of thread `t`. */
  predicate StatementOf(s: Sys, a: Action, t: nat) {
    a.Advance? && s.cur == t
  }

  function StatementsOf(t: nat): (Sys, Action) -> bool {
    (s, a) => StatementOf(s, a, t)
  }

  predicate Calling(s: Sys, t: nat) {
    t < |s.threads| && InCall(s.threads[t].phase)
  }

  ghost predicate CallingAfter(pins: Board, n: nat, acts: seq<Action>, t: nat) {
    Exec(pins, n, acts).Some? && Calling(Exec(pins, n, acts).value, t)
  }

  /** Thread `t` is in a call after `acts` and after each of the further actions: it is the same call throughout. */
  ghost predicate KeepsCalling(pins: Board, n: nat, acts: seq<Action>, more: seq<Action>, t: nat) {
    forall j :: 0 <= j <= |more| ==> CallingAfter(pins, n, acts + more[..j], t)
  }

  lemma KeepsCallingBefore(pins: Board, n: nat, acts: seq<Action>, before: seq<Action>, a: Action, t: nat)
    requires KeepsCalling(pins, n, acts, before + [a], t)
    ensures KeepsCalling(pins, n, acts, before, t)
  {
    forall j | 0 <= j <= |before|
      ensures CallingAfter(pins, n, acts + before[..j], t)
    {
      assert (before + [a])[..j] == before[..j];
    }
  }

  lemma KeepsCallingEnds(pins: Board, n: nat, acts: seq<Action>, more: seq<Action>, t: nat)
    requires KeepsCalling(pins, n, acts, more, t)
    ensures CallingAfter(pins, n, acts, t) && CallingAfter(pins, n, acts + more, t)
  {
    assert more[..0] == [] && acts + [] == acts && more[..|more|] == more;
  }

  /** One action, of whatever kind, leaves a call of thread `t` alone, or is a statement of it and brings it closer. */
  lemma CallStep(pins: Board, s: Sys, a: Action, t: nat)
    requires Inv(pins, s) && Next(pins, s, a).Some? && Calling(s, t)
    ensures var s' := Next(pins, s, a).value;
            && t < |s'.threads| && (Calling(s', t) || s'.threads[t].phase.Returned?)
            && 0 <= Left(s'.threads[t].phase) && (Calling(s', t) ==> 0 < Left(s'.threads[t].phase))
            && Left(s'.threads[t].phase) <= Left(s.threads[t].phase) - if StatementOf(s, a, t) then 1 else 0
  {
    if StatementOf(s, a, t) {
      AdvanceStep(pins, s);
    } else {
      assert ThreadOk(pins, s.threads[t], t, t == s.cur, s.masked, s.log, s.who);
      if t == s.cur { assert DriverOk(pins, s.drv, s.threads[s.cur], s.log); }
    }
  }

  /** What it has left of it. */
  ghost function LeftAfter(pins: Board, n: nat, acts: seq<Action>, t: nat): (left: int)
    requires CallingAfter(pins, n, acts, t)
    ensures left <= 8
  {
    Left(Exec(pins, n, acts).value.threads[t].phase)
  }

  /** The last of some further actions. */
  lemma LastStep(pins: Board, n: nat, acts: seq<Action>, before: seq<Action>, a: Action, t: nat)
    requires Exec(pins, n, acts + (before + [a])).Some? && CallingAfter(pins, n, acts + before, t)
    ensures var s' := Exec(pins, n, acts + (before + [a])).value;
            && t < |s'.threads| && (Calling(s', t) || s'.threads[t].phase.Returned?)
            && 0 <= Left(s'.threads[t].phase)
            && Left(s'.threads[t].phase) + Taken(pins, n, acts, before + [a], StatementsOf(t)) <=
               LeftAfter(pins, n, acts + before, t) + Taken(pins, n, acts, before, StatementsOf(t))
  {
    LastAction(pins, n, acts, before, a);
    TakenOne(pins, n, acts, before, a, StatementsOf(t));
    CallStep(pins, Exec(pins, n, acts + before).value, a, t);
  }

  lemma {:induction false} CallRun(pins: Board, n: nat, acts: seq<Action>, more: seq<Action>, t: nat)
    requires KeepsCalling(pins, n, acts, more, t)
    ensures CallingAfter(pins, n, acts, t) && CallingAfter(pins, n, acts + more, t)
    ensures Taken(pins, n, acts, more, StatementsOf(t)) <=
            LeftAfter(pins, n, acts, t) - LeftAfter(pins, n, acts + more, t)
  {
    KeepsCallingEnds(pins, n, acts, more, t);
    if more == [] {
      assert acts + more == acts;
    } else {
      var before, a := more[..|more| - 1], more[|more| - 1];
      assert more == before + [a];
      KeepsCallingBefore(pins, n, acts, before, a, t);
      CallRun(pins, n, acts, before, t);
      LastStep(pins, n, acts, before, a, t);
    }
  }

  /**
   * Whatever else happens, switches, other calls, handlers and edges included, a thread runs at most eight statements
   * of a call, the one with which it returns among them.
   */
  lemma CallIsBounded(pins: Board, n: nat, acts: seq<Action>, more: seq<Action>, a: Action, t: nat)
    requires KeepsCalling(pins, n, acts, more, t) && Exec(pins, n, acts + (more + [a])).Some?
    ensures CallingAfter(pins, n, acts, t)
    ensures Taken(pins, n, acts, more + [a], StatementsOf(t)) <= LeftAfter(pins, n, acts, t) <= 8
    ensures var s' := Exec(pins, n, acts + (more + [a])).value;
            t < |s'.threads| && (Calling(s', t) || s'.threads[t].phase.Returned?)
  {
    CallRun(pins, n, acts, more, t);
    LastStep(pins, n, acts, more, a, t);
  }
}
