/** A run of the system of `Interleaving` in which an edge gets no answer. */
module LostEdge {
  import opened Options
  import opened Pins
  import opened PinIrq
  import opened Dispatch
  import opened Interleaving
  import opened CallRuns

  lemma StepTo(pins: Board, n: nat, acts: seq<Action>, s: Sys, a: Action, s': Sys)
    requires At(pins, n, acts, s) && Next(pins, s, a) == Some(s') && s'.cur < |s'.threads|
    ensures At(pins, n, acts + [a], s')
  {
    ExecNext(pins, n, acts, a);
  }

  /** A thread at rest makes a call and is left alone until it returns. */
  lemma MakeCall(pins: Board, n: nat, acts: seq<Action>, s: Sys, c: Call) returns (acts': seq<Action>, s': Sys)
    requires At(pins, n, acts, s) && s.isrs == [] && AtRest(s.threads[s.cur])
    ensures At(pins, n, acts', s') && AtRest(s'.threads[s'.cur]) && s'.log == s.log + [c]
    ensures s'.isrs == [] && s'.pending == s.pending && s'.cur == s.cur
    ensures s'.threads[s'.cur].outer == s.threads[s.cur].outer
  {
    ExecNext(pins, n, acts, Invoke(c));
    var called := Next(pins, s, Invoke(c)).value;
    var m, end := CallCompletes(pins, n, acts + [Invoke(c)], called);
    acts', s' := acts + [Invoke(c)] + Advances(m), end;
  }

  /** One thread attaches a handler to a pin of line 5 and enables it. */
  lemma SetUp(pins: Board, pin: int) returns (acts: seq<Action>, s: Sys)
    requires GetPin(pins, pin) == Some(Pin(A, 5))
    ensures At(pins, 1, acts, s) && s.isrs == [] && s.pending == {} && !s.masked
    ensures s.drv == Run(pins, [Attach(pin, 0, 1, 1), IrqEnable(pin, 1, Rising)])
  {
    var first := Init(1);
    assert At(pins, 1, [], first);
    var a1, s1 := MakeCall(pins, 1, [], first, Attach(pin, 0, 1, 1));
    var a2, s2 := MakeCall(pins, 1, a1, s1, IrqEnable(pin, 1, Rising));
    acts, s := a2, s2;
    assert s.log == [Attach(pin, 0, 1, 1), IrqEnable(pin, 1, Rising)];
    ExecKeeps(pins, 1, acts);
    assert ThreadOk(pins, s.threads[s.cur], s.cur, true, s.masked, s.log, s.who);
  }

  lemma SetUpDriver(pins: Board, pin: int)
    requires GetPin(pins, pin) == Some(Pin(A, 5))
    ensures var d := Run(pins, [Attach(pin, 0, 1, 1), IrqEnable(pin, 1, Rising)]);
            && d.tab[5].hdr == 1 && d.tab[5].args == 1 && d.lines == {5}
            && forall i :: 0 <= i < 16 && i != 5 ==> d.tab[i].hdr == 0
  {
    var calls := [Attach(pin, 0, 1, 1), IrqEnable(pin, 1, Rising)];
    assert calls[0].Attach? && calls[1].IrqEnable?;
    NarrowedPin(pins, pin);
    assert After(pins, calls, 1) == Step(pins, After(pins, calls, 0), calls[0]).0;
    assert After(pins, calls, 2) == Step(pins, After(pins, calls, 1), calls[1]).0;
  }

  /** The state `s` with the handler of lines 5 to 9 active at `pc`, and line 5 pending until the handler is done. */
  function Serving(s: Sys, pc: IsrPc, called: seq<Invocation>): Sys {
    s.(pending := if pc.Done? then {} else {5}, isrs := [Isr(39, s.drv.tab, pc, called)])
  }

  predicate Ready(s: Sys) {
    && s.isrs == [] && s.pending == {} && !s.masked && s.cur < |s.threads|
    && s.drv.tab[5].hdr == 1 && s.drv.tab[5].args == 1 && s.drv.lines == {5}
    && forall i :: 0 <= i < 16 && i != 5 ==> s.drv.tab[i].hdr == 0
  }

  /** One statement of the handler, before the last. */
  lemma ServeStep(pins: Board, acts: seq<Action>, s: Sys, pc: IsrPc, called: seq<Invocation>,
                  pc': IsrPc, called': seq<Invocation>)
    requires At(pins, 1, acts, Serving(s, pc, called)) && !pc.Done? && !pc.Clearing? && !pc'.Done?
    requires IsrStatement(Isr(39, s.drv.tab, pc, called), s.drv, {5}) == Isr(39, s.drv.tab, pc', called')
    ensures At(pins, 1, acts + [IsrAdvance], Serving(s, pc', called'))
  {
    var before, after := Serving(s, pc, called), Serving(s, pc', called');
    assert before.isrs[0 := after.isrs[0]] == after.isrs;
    StepTo(pins, 1, acts, before, IsrAdvance, after);
  }

  lemma GroupOf39()
    ensures Group(39) == [5, 6, 7, 8, 9] && forall lines: set<nat> :: 5 in lines ==> AnyPending(39, {5}, lines)
    ensures Cleared({5}, 39) == {}
  {
    assert Group(39)[0] == 5;
  }

  const ANSWER := [Invocation(5, 1, 1)]

  /** An edge on line 5, and its handler up to the call. */
  lemma FirstHalf(pins: Board, acts: seq<Action>, s: Sys) returns (acts': seq<Action>)
    requires At(pins, 1, acts, s) && Ready(s)
    ensures At(pins, 1, acts', Serving(s, Checking(1), ANSWER)) && Edge(5) in acts'
  {
    GroupOf39();
    var pending := s.(pending := {5});
    assert s.pending + {5} == {5};
    StepTo(pins, 1, acts, s, Edge(5), pending);
    var a1 := acts + [Edge(5)];
    assert pending.isrs + [Isr(39, s.drv.tab, Testing, [])] == [Isr(39, s.drv.tab, Testing, [])];
    StepTo(pins, 1, a1, pending, IsrEnter(39), Serving(s, Testing, []));
    var a2 := a1 + [IsrEnter(39)];
    ServeStep(pins, a2, s, Testing, [], Checking(0), []);
    var a3 := a2 + [IsrAdvance];
    ServeStep(pins, a3, s, Checking(0), [], Fetching(0), []);
    var a4 := a3 + [IsrAdvance];
    assert [] + ANSWER == ANSWER;
    ServeStep(pins, a4, s, Fetching(0), [], Checking(1), ANSWER);
    acts' := a4 + [IsrAdvance];
  }

  /** The last statement, which clears the group. */
  lemma LastStep(pins: Board, acts: seq<Action>, s: Sys)
    requires At(pins, 1, acts, Serving(s, Clearing, ANSWER))
    ensures At(pins, 1, acts + [IsrAdvance], Serving(s, Done, ANSWER))
  {
    GroupOf39();
    var before, after := Serving(s, Clearing, ANSWER), Serving(s, Done, ANSWER);
    assert before.isrs[0 := after.isrs[0]] == after.isrs;
    StepTo(pins, 1, acts, before, IsrAdvance, after);
  }

  /** The rest of the handler: no other line of the group has a handler. */
  lemma SecondHalf(pins: Board, acts: seq<Action>, s: Sys)
    requires At(pins, 1, acts, Serving(s, Checking(1), ANSWER)) && Ready(s)
    ensures At(pins, 1, acts + REST, Serving(s, Done, ANSWER))
  {
    GroupOf39();
    ServeStep(pins, acts, s, Checking(1), ANSWER, Checking(2), ANSWER);
    var a2 := acts + [IsrAdvance];
    ServeStep(pins, a2, s, Checking(2), ANSWER, Checking(3), ANSWER);
    var a3 := a2 + [IsrAdvance];
    ServeStep(pins, a3, s, Checking(3), ANSWER, Checking(4), ANSWER);
    var a4 := a3 + [IsrAdvance];
    ServeStep(pins, a4, s, Checking(4), ANSWER, Checking(5), ANSWER);
    var a5 := a4 + [IsrAdvance];
    ServeStep(pins, a5, s, Checking(5), ANSWER, Clearing, ANSWER);
    var a6 := a5 + [IsrAdvance];
    LastStep(pins, a6, s);
    assert a6 + [IsrAdvance] == acts + REST;
  }

  const REST := [IsrAdvance, IsrAdvance, IsrAdvance, IsrAdvance, IsrAdvance, IsrAdvance]

  /**
   * An edge is lost: it arrives on an unmasked line with a handler, while the handler of its group is active and has
   * passed it; at the end nothing is pending, and the handler was called for the first edge only.
   */
  lemma EdgeLost(pins: Board, pin: int) returns (acts: seq<Action>)
    requires GetPin(pins, pin) == Some(Pin(A, 5))
    ensures Exec(pins, 1, acts + [Edge(5)]).Some? && Exec(pins, 1, acts + [Edge(5)] + REST).Some?
    ensures var s, end := Exec(pins, 1, acts + [Edge(5)]).value, Exec(pins, 1, acts + [Edge(5)] + REST).value;
            && |s.isrs| == |end.isrs| == 1 && end.isrs[0].pc.Done?
            && 5 in s.drv.lines && s.drv.tab[5].hdr != 0
            && 5 in s.pending && end.pending == {} && end.isrs[0].called == s.isrs[0].called == ANSWER
    ensures Edge(5) in acts
  {
    var a1, s := SetUp(pins, pin);
    SetUpDriver(pins, pin);
    acts := FirstHalf(pins, a1, s);
    var passed := Serving(s, Checking(1), ANSWER);
    assert passed.pending + {5} == passed.pending;
    StepTo(pins, 1, acts, passed, Edge(5), passed);
    SecondHalf(pins, acts + [Edge(5)], s);
  }

  /** It happens on this board, to pin 30 (port A, line 5). */
  lemma EdgeLostOnBoard() returns (acts: seq<Action>)
    ensures Exec(PINS_100, 1, acts + [Edge(5)] + REST).Some?
    ensures var end := Exec(PINS_100, 1, acts + [Edge(5)] + REST).value;
            end.pending == {} && |end.isrs| == 1 && end.isrs[0].called == ANSWER
    ensures Edge(5) in acts
  {
    BoardRows();
    acts := EdgeLost(PINS_100, 30);
  }
}
