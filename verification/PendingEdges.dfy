/**
 * Which pending edges of the system of `Interleaving` can be lost, that is, cleared without an answer, by whatever
 * mixture of nested handlers, further edges and calls.
 */
module PendingEdges {
  import opened Options
  import opened Pins
  import opened PinIrq
  import opened Dispatch
  import opened Interleaving
  import opened HandlerRuns

  /** The next statement of a handler answers an edge on `line`: it calls the line's handler, or finds none stored. */
  predicate AnswersNext(isr: Isr, tab: Table, line: LineNo) {
    match isr.pc
    case Checking(pos) => LineAt(isr.irq, pos) == Some(line) && tab[line].hdr == 0
    case Fetching(pos) => LineAt(isr.irq, pos) == Some(line)
    case _ => false
  }

  predicate Answers(s: Sys, a: Action, line: LineNo) {
    a.IsrAdvance? && s.isrs != [] && AnswersNext(s.isrs[|s.isrs| - 1], s.drv.tab, line)
  }

  function AnswersTo(line: LineNo): (Sys, Action) -> bool {
    (s, a) => Answers(s, a, line)
  }

  /** The handler will clear the line, and makes no more calls for it. */
  predicate Passed(isr: Isr, line: LineNo) {
    && line in Group(isr.irq) && PastTest(isr)
    && (Reached(isr) <= |Group(isr.irq)| ==> line !in Group(isr.irq)[Reached(isr)..])
  }

  /** The handler will clear the line: it is past its status test, or would pass it now. */
  predicate Engaged(s: Sys, isr: Isr, line: LineNo) {
    && line in Group(isr.irq)
    && (PastTest(isr) || (isr.pc.Testing? && AnyPending(isr.irq, s.pending, s.drv.lines)))
  }

  /** Handler `k` has passed the line, and it is the topmost that will clear it. */
  ghost predicate LosesIt(s: Sys, k: nat, line: LineNo) {
    k < |s.isrs| && Passed(s.isrs[k], line) && forall j :: k < j < |s.isrs| ==> !Engaged(s, s.isrs[j], line)
  }

  ghost predicate MayBeLost(s: Sys, line: LineNo) {
    exists k: nat :: LosesIt(s, k, line)
  }

  /** Above every handler that has passed the line there is one that will clear it. */
  ghost predicate Protected(s: Sys, line: LineNo) {
    forall k :: 0 <= k < |s.isrs| && Passed(s.isrs[k], line) ==>
      exists j :: k < j < |s.isrs| && Engaged(s, s.isrs[j], line)
  }

  lemma ProtectedOrLost(s: Sys, line: LineNo)
    ensures Protected(s, line) <==> !MayBeLost(s, line)
  {
    if Protected(s, line) {
      forall k: nat
        ensures !LosesIt(s, k, line)
      {}
    } else {
      var k: nat :| k < |s.isrs| && Passed(s.isrs[k], line) &&
        forall j :: k < j < |s.isrs| ==> !Engaged(s, s.isrs[j], line);
      assert LosesIt(s, k, line);
    }
  }

  // ---- no other edge is lost ----

  lemma GroupsDiffer(irq: nat, irq': nat, line: LineNo)
    requires line in Group(irq) && line in Group(irq')
    ensures irq == irq'
  {
    GroupIsPreimage(irq, line);
    GroupIsPreimage(irq', line);
  }

  /** What one statement of a handler that has not passed the line and does not answer it makes of that handler. */
  lemma OwnStatement(isr: Isr, d: Driver, pending: set<LineNo>, line: LineNo)
    requires IsrOk(isr, d.tab) && !isr.pc.Done? && line in Group(isr.irq) && !Passed(isr, line)
    requires !AnswersNext(isr, d.tab, line)
    ensures var next := IsrStatement(isr, d, pending);
            && next.irq == isr.irq && !isr.pc.Clearing? && !Passed(next, line)
            && (PastTest(isr) || AnyPending(isr.irq, pending, d.lines) ==> PastTest(next))
  {
    var g, p := Group(isr.irq), Reached(isr);
    assert g[0..] == g && g[|g|..] == [];
    GroupTail(isr.irq, p, line);
  }

  /** Whether a handler would pass its test does not depend on the pending lines of other groups. */
  lemma TestUnaffected(irq: nat, other: nat, pending: set<LineNo>, lines: set<nat>)
    requires irq != other
    ensures AnyPending(irq, Cleared(pending, other), lines) <==> AnyPending(irq, pending, lines)
  {
    forall i: LineNo | i in Group(irq)
      ensures i !in Group(other)
    {
      if i in Group(other) { GroupsDiffer(irq, other, i); }
    }
    if AnyPending(irq, pending, lines) {
      var i: LineNo :| i in Group(irq) && i in pending && i in lines;
      assert i in Cleared(pending, other);
    }
  }

  /** From `s` to `s'`: the line is still pending, and whoever would clear it still would, from handler 0 to `n - 1`. */
  predicate StillEngaged(s: Sys, s': Sys, line: LineNo, n: nat) {
    && n <= |s.isrs| && n <= |s'.isrs|
    && forall j :: 0 <= j < n ==>
      && (Engaged(s, s.isrs[j], line) ==> Engaged(s', s'.isrs[j], line))
      && (Passed(s'.isrs[j], line) ==> Passed(s.isrs[j], line))
  }

  lemma StillProtected(s: Sys, s': Sys, line: LineNo, n: nat)
    requires Protected(s, line) && StillEngaged(s, s', line, n)
    requires forall j :: n <= j < |s.isrs| ==> !Engaged(s, s.isrs[j], line)
    requires forall j :: n <= j < |s'.isrs| ==> !Passed(s'.isrs[j], line)
    ensures Protected(s', line)
  {
    forall k | 0 <= k < |s'.isrs| && Passed(s'.isrs[k], line)
      ensures exists j :: k < j < |s'.isrs| && Engaged(s', s'.isrs[j], line)
    {
      var j :| k < j < |s.isrs| && Engaged(s, s.isrs[j], line);
      assert Engaged(s', s'.isrs[j], line);
    }
  }

  lemma TopNotPassed(s: Sys, line: LineNo)
    requires s.isrs != [] && Protected(s, line)
    ensures !Passed(s.isrs[|s.isrs| - 1], line)
  {}

  /** A statement of a handler of the line's group. */
  lemma GroupProtects(s: Sys, line: LineNo)
    requires s.isrs != [] && IsrAdvanced(s).Some? && line in s.pending && Protected(s, line)
    requires var isr := s.isrs[|s.isrs| - 1];
             line in Group(isr.irq) && IsrOk(isr, s.drv.tab) && !AnswersNext(isr, s.drv.tab, line)
    ensures line in IsrAdvanced(s).value.pending && Protected(IsrAdvanced(s).value, line)
  {
    TopNotPassed(s, line);
    OwnStatement(s.isrs[|s.isrs| - 1], s.drv, s.pending, line);
    OwnKeeps(s, line);
    StillProtected(s, IsrAdvanced(s).value, line, |s.isrs|);
  }

  lemma OwnKeeps(s: Sys, line: LineNo)
    requires s.isrs != [] && IsrAdvanced(s).Some?
    requires var isr := s.isrs[|s.isrs| - 1]; var next := IsrStatement(isr, s.drv, s.pending);
             && next.irq == isr.irq && !isr.pc.Clearing? && !Passed(next, line)
             && (PastTest(isr) || AnyPending(isr.irq, s.pending, s.drv.lines) ==> PastTest(next))
    ensures IsrAdvanced(s).value.pending == s.pending && StillEngaged(s, IsrAdvanced(s).value, line, |s.isrs|)
  {}

  /** A statement of another handler. */
  lemma OtherProtects(s: Sys, line: LineNo)
    requires s.isrs != [] && IsrAdvanced(s).Some? && line in s.pending && Protected(s, line)
    requires line !in Group(s.isrs[|s.isrs| - 1].irq)
    ensures line in IsrAdvanced(s).value.pending && Protected(IsrAdvanced(s).value, line)
  {
    var s', top := IsrAdvanced(s).value, |s.isrs| - 1;
    forall j | 0 <= j < top
      ensures Engaged(s, s.isrs[j], line) ==> Engaged(s', s'.isrs[j], line)
    {
      OtherUnaffected(s, s.isrs[j], line);
    }
    StatementIrq(s.isrs[top], s.drv, s.pending);
    StillProtected(s, s', line, top);
  }

  lemma StatementIrq(isr: Isr, d: Driver, pending: set<LineNo>)
    ensures IsrStatement(isr, d, pending).irq == isr.irq
  {}

  /** A statement of a handler of another group makes no difference to who will clear the line. */
  lemma OtherUnaffected(s: Sys, isr: Isr, line: LineNo)
    requires s.isrs != [] && IsrAdvanced(s).Some? && line !in Group(s.isrs[|s.isrs| - 1].irq)
    ensures Engaged(IsrAdvanced(s).value, isr, line) <==> Engaged(s, isr, line)
  {
    if line in Group(isr.irq) { TestUnaffected(isr.irq, s.isrs[|s.isrs| - 1].irq, s.pending, s.drv.lines); }
  }

  /** What the invariant says of the handler on top. */
  predicate TopOk(s: Sys) {
    s.cur < |s.threads| && (s.isrs != [] ==> IsrOk(s.isrs[|s.isrs| - 1], s.drv.tab))
  }

  lemma InvTopOk(pins: Board, s: Sys)
    requires Inv(pins, s)
    ensures TopOk(s)
  {}

  lemma AdvanceProtects(pins: Board, s: Sys, line: LineNo)
    requires TopOk(s) && Next(pins, s, IsrAdvance).Some?
    requires line in s.pending && Protected(s, line) && !Answers(s, IsrAdvance, line)
    ensures line in Next(pins, s, IsrAdvance).value.pending && Protected(Next(pins, s, IsrAdvance).value, line)
  {
    if line in Group(s.isrs[|s.isrs| - 1].irq) {
      GroupProtects(s, line);
    } else {
      OtherProtects(s, line);
    }
  }

  /** No action that does not answer it makes a protected edge disappear or lose its protection. */
  lemma StepProtects(pins: Board, s: Sys, a: Action, line: LineNo)
    requires TopOk(s) && Next(pins, s, a).Some?
    requires line in s.pending && Protected(s, line) && !Answers(s, a, line)
    ensures line in Next(pins, s, a).value.pending && Protected(Next(pins, s, a).value, line)
  {
    var s' := Next(pins, s, a).value;
    match a
    case IsrAdvance => AdvanceProtects(pins, s, line);
    case IsrLeave => StillProtected(s, s', line, |s'.isrs|);
    case _ =>
      OtherAction(pins, s, a);
      StillProtected(s, s', line, |s.isrs|);
  }

  /** All other actions leave the active handlers alone; they may add a pending line or a handler. */
  lemma OtherAction(pins: Board, s: Sys, a: Action)
    requires s.cur < |s.threads| && Next(pins, s, a).Some? && !a.IsrAdvance? && !a.IsrLeave?
    ensures var s' := Next(pins, s, a).value;
            && s.isrs <= s'.isrs && s.pending <= s'.pending && (s.isrs != [] ==> s'.drv == s.drv)
            && forall j :: |s.isrs| <= j < |s'.isrs| ==> s'.isrs[j].pc.Testing?
  {}

  /** The last of some further actions. */
  lemma LastStep(pins: Board, n: nat, acts: seq<Action>, before: seq<Action>, a: Action, line: LineNo)
    requires Exec(pins, n, acts + (before + [a])).Some? && Taken(pins, n, acts, before + [a], AnswersTo(line)) == 0
    ensures Exec(pins, n, acts + before).Some? && Taken(pins, n, acts, before, AnswersTo(line)) == 0
    ensures var s := Exec(pins, n, acts + before).value;
            TopOk(s) && !Answers(s, a, line) && Next(pins, s, a) == Exec(pins, n, acts + (before + [a]))
  {
    LastAction(pins, n, acts, before, a);
    TakenOne(pins, n, acts, before, a, AnswersTo(line));
    InvTopOk(pins, Exec(pins, n, acts + before).value);
  }

  /** After `acts` the line is pending, and protected. */
  ghost predicate SafeAfter(pins: Board, n: nat, acts: seq<Action>, line: LineNo) {
    && Exec(pins, n, acts).Some? && line in Exec(pins, n, acts).value.pending
    && Protected(Exec(pins, n, acts).value, line)
  }

  lemma LastProtects(pins: Board, n: nat, acts: seq<Action>, before: seq<Action>, a: Action, line: LineNo)
    requires Exec(pins, n, acts + (before + [a])).Some? && Taken(pins, n, acts, before + [a], AnswersTo(line)) == 0
    requires SafeAfter(pins, n, acts + before, line)
    ensures SafeAfter(pins, n, acts + (before + [a]), line)
  {
    LastStep(pins, n, acts, before, a, line);
    StepProtects(pins, Exec(pins, n, acts + before).value, a, line);
  }

  lemma {:induction false} StaysProtected(pins: Board, n: nat, acts: seq<Action>, more: seq<Action>, line: LineNo)
    requires Exec(pins, n, acts + more).Some? && Taken(pins, n, acts, more, AnswersTo(line)) == 0
    requires SafeAfter(pins, n, acts, line)
    ensures SafeAfter(pins, n, acts + more, line)
  {
    if more == [] {
      assert acts + more == acts;
    } else {
      var before, a := more[..|more| - 1], more[|more| - 1];
      assert more == before + [a];
      LastStep(pins, n, acts, before, a, line);
      StaysProtected(pins, n, acts, before, line);
      LastProtects(pins, n, acts, before, a, line);
    }
  }

  // ---- such an edge can be lost ----

  /** The next action on the way to losing the edge: the top handler goes on, or leaves. */
  function Away(s: Sys): Action
    requires s.isrs != []
  {
    if s.isrs[|s.isrs| - 1].pc.Done? then IsrLeave else IsrAdvance
  }

  /** Closer to the end: fewer handlers, or a top handler with less left to do. */
  predicate Toward(s: Sys, s': Sys) {
    |s'.isrs| < |s.isrs| || (|s'.isrs| == |s.isrs| && 0 <= TopLeft(s') < TopLeft(s))
  }

  function TopLeft(s: Sys): int {
    if s.isrs == [] then 0 else Remaining(s.isrs[|s.isrs| - 1])
  }

  function GoneOn(s: Sys): Option<Sys>
    requires s.isrs != []
  {
    if s.isrs[|s.isrs| - 1].pc.Done? then Some(s.(isrs := s.isrs[..|s.isrs| - 1])) else IsrAdvanced(s)
  }

  lemma AwayIsNext(pins: Board, s: Sys)
    requires s.cur < |s.threads| && s.isrs != []
    ensures Next(pins, s, Away(s)) == GoneOn(s)
  {}

  /** The handler on top, if it is not the one that loses the edge, neither answers nor clears it. */
  lemma TopGoesAway(s: Sys, k: nat, line: LineNo)
    requires LosesIt(s, k, line) && k < |s.isrs| - 1 && IsrOk(s.isrs[|s.isrs| - 1], s.drv.tab)
    ensures GoneOn(s).Some? && !Answers(s, Away(s), line)
    ensures LosesIt(GoneOn(s).value, k, line) && Toward(s, GoneOn(s).value)
  {
    if s.isrs[|s.isrs| - 1].pc.Done? {
      TopLeaves(s, k, line);
    } else {
      TopGoesOn(s, k, line);
    }
  }

  lemma TopLeaves(s: Sys, k: nat, line: LineNo)
    requires LosesIt(s, k, line) && k < |s.isrs| - 1
    ensures var s' := s.(isrs := s.isrs[..|s.isrs| - 1]); LosesIt(s', k, line) && Toward(s, s')
  {
    var s' := s.(isrs := s.isrs[..|s.isrs| - 1]);
    forall j | k < j < |s'.isrs|
      ensures !Engaged(s', s'.isrs[j], line)
    {
      assert !Engaged(s, s.isrs[j], line);
    }
  }

  lemma TopGoesOn(s: Sys, k: nat, line: LineNo)
    requires LosesIt(s, k, line) && k < |s.isrs| - 1
    requires var isr := s.isrs[|s.isrs| - 1]; IsrOk(isr, s.drv.tab) && !isr.pc.Done?
    ensures IsrAdvanced(s).Some? && !Answers(s, IsrAdvance, line)
    ensures LosesIt(IsrAdvanced(s).value, k, line) && Toward(s, IsrAdvanced(s).value)
  {
    var s', top := IsrAdvanced(s).value, |s.isrs| - 1;
    assert !Engaged(s, s.isrs[top], line);
    AdvanceIsToward(s);
    NotAnswered(s, line);
    forall j | k < j < |s'.isrs|
      ensures !Engaged(s', s'.isrs[j], line)
    {
      assert !Engaged(s, s.isrs[j], line);
      if j < top { NotEngagedStill(s, s.isrs[j], line); }
    }
  }

  lemma AdvanceIsToward(s: Sys)
    requires s.isrs != []
    requires var isr := s.isrs[|s.isrs| - 1]; IsrOk(isr, s.drv.tab) && !isr.pc.Done?
    ensures IsrAdvanced(s).Some? && Toward(s, IsrAdvanced(s).value)
  {
    StatementKeeps(s.isrs[|s.isrs| - 1], s.drv, s.pending);
  }

  /** Only a handler that will clear the line answers. */
  lemma AnswersEngaged(s: Sys, a: Action, line: LineNo)
    requires Answers(s, a, line)
    ensures Engaged(s, s.isrs[|s.isrs| - 1], line)
  {
    var isr := s.isrs[|s.isrs| - 1];
    var i := LineAt(isr.irq, Reached(isr));
    assert i == Some(line);
  }

  lemma NotAnswered(s: Sys, line: LineNo)
    requires s.isrs != []
    requires var isr := s.isrs[|s.isrs| - 1]; !isr.pc.Done? && !Engaged(s, isr, line)
    ensures IsrAdvanced(s).Some? && !Answers(s, IsrAdvance, line)
    ensures var next := IsrAdvanced(s).value; !Engaged(next, next.isrs[|s.isrs| - 1], line)
  {
    if Answers(s, IsrAdvance, line) { AnswersEngaged(s, IsrAdvance, line); }
    StatementIrq(s.isrs[|s.isrs| - 1], s.drv, s.pending);
  }

  lemma NotEngagedStill(s: Sys, isr: Isr, line: LineNo)
    requires s.isrs != [] && IsrAdvanced(s).Some?
    requires !Engaged(s, s.isrs[|s.isrs| - 1], line) && !Engaged(s, isr, line)
    ensures !Engaged(IsrAdvanced(s).value, isr, line)
  {
    if line !in Group(s.isrs[|s.isrs| - 1].irq) { OtherUnaffected(s, isr, line); }
  }

  /** A handler that has passed the line goes on without looking at it, until it clears it. */
  lemma PassedStatement(isr: Isr, d: Driver, pending: set<LineNo>, line: LineNo)
    requires IsrOk(isr, d.tab) && Passed(isr, line)
    ensures LineAt(isr.irq, Reached(isr)) != Some(line)
    ensures !isr.pc.Clearing? ==> Passed(IsrStatement(isr, d, pending), line)
  {
    var g, p := Group(isr.irq), Reached(isr);
    if p < |g| {
      GroupTail(isr.irq, p, line);
    } else {
      assert g[p..] == [];
    }
  }

  /** The one that loses it, once on top, goes on without answering; its last statement clears the line. */
  lemma LoserGoesOn(s: Sys, line: LineNo)
    requires s.isrs != [] && LosesIt(s, |s.isrs| - 1, line) && IsrOk(s.isrs[|s.isrs| - 1], s.drv.tab)
    ensures IsrAdvanced(s).Some? && !Answers(s, IsrAdvance, line)
    ensures var s' := IsrAdvanced(s).value;
            line !in s'.pending || (LosesIt(s', |s.isrs| - 1, line) && Toward(s, s'))
  {
    AdvanceIsToward(s);
    PassedStatement(s.isrs[|s.isrs| - 1], s.drv, s.pending, line);
  }

  lemma GoesAway(s: Sys, k: nat, line: LineNo)
    requires LosesIt(s, k, line) && IsrOk(s.isrs[|s.isrs| - 1], s.drv.tab)
    ensures GoneOn(s).Some? && !Answers(s, Away(s), line)
    ensures line !in GoneOn(s).value.pending || (LosesIt(GoneOn(s).value, k, line) && Toward(s, GoneOn(s).value))
  {
    if k < |s.isrs| - 1 {
      TopGoesAway(s, k, line);
    } else {
      LoserGoesOn(s, line);
    }
  }

  /** The edge is cleared by the end of the further actions, and none of them answered it. */
  ghost predicate Lost(pins: Board, n: nat, acts: seq<Action>, more: seq<Action>, line: LineNo) {
    && Exec(pins, n, acts + more).Some? && line !in Exec(pins, n, acts + more).value.pending
    && Taken(pins, n, acts, more, AnswersTo(line)) == 0
  }

  /** One more action that does not answer the edge. */
  lemma GoOn(pins: Board, n: nat, acts: seq<Action>, more: seq<Action>, a: Action, line: LineNo)
    requires Exec(pins, n, acts + more).Some? && Taken(pins, n, acts, more, AnswersTo(line)) == 0
    requires var s := Exec(pins, n, acts + more).value;
             s.cur < |s.threads| && Next(pins, s, a).Some? && !Answers(s, a, line)
    ensures Exec(pins, n, acts + (more + [a])) == Next(pins, Exec(pins, n, acts + more).value, a)
    ensures Taken(pins, n, acts, more + [a], AnswersTo(line)) == 0
  {
    assert acts + (more + [a]) == acts + more + [a];
    ExecNext(pins, n, acts + more, a);
    TakenOne(pins, n, acts, more, a, AnswersTo(line));
  }

  lemma {:induction false} Lose(pins: Board, n: nat, acts: seq<Action>, more: seq<Action>, k: nat, line: LineNo)
      returns (all: seq<Action>)
    requires Exec(pins, n, acts + more).Some? && Taken(pins, n, acts, more, AnswersTo(line)) == 0
    requires LosesIt(Exec(pins, n, acts + more).value, k, line)
    ensures Lost(pins, n, acts, all, line)
    decreases |Exec(pins, n, acts + more).value.isrs|, TopLeft(Exec(pins, n, acts + more).value)
  {
    ExecKeeps(pins, n, acts + more);
    var s := Exec(pins, n, acts + more).value;
    InvTopOk(pins, s);
    GoesAway(s, k, line);
    AwayIsNext(pins, s);
    GoOn(pins, n, acts, more, Away(s), line);
    if line !in Next(pins, s, Away(s)).value.pending {
      all := more + [Away(s)];
    } else {
      all := Lose(pins, n, acts, more + [Away(s)], k, line);
    }
  }

  // ---- main result ----

  /**
   * Exactly the pending edges can be lost for which, of the active handlers of their group that will clear it, the
   * topmost has already passed their line. Every other one is answered before it is cleared, in every run.
   */
  lemma LostExactly(pins: Board, n: nat, acts: seq<Action>, line: LineNo)
    requires Exec(pins, n, acts).Some? && line in Exec(pins, n, acts).value.pending
    ensures (exists more :: Lost(pins, n, acts, more, line)) <==> MayBeLost(Exec(pins, n, acts).value, line)
  {
    var s := Exec(pins, n, acts).value;
    ProtectedOrLost(s, line);
    if MayBeLost(s, line) {
      var k: nat :| LosesIt(s, k, line);
      assert acts + [] == acts;
      var more := Lose(pins, n, acts, [], k, line);
    } else {
      forall more | Exec(pins, n, acts + more).Some? && Taken(pins, n, acts, more, AnswersTo(line)) == 0
        ensures !Lost(pins, n, acts, more, line)
      {
        StaysProtected(pins, n, acts, more, line);
      }
    }
  }
}
