/**
 * What the EXTI interrupt handlers do to the pending lines and which attached handlers they call
 * (drivers/drv_gpio.c), when no new edge arrives and the called handlers leave the table alone.
 */
module Dispatch {
  import opened Options
  import opened Pins
  import opened PinIrq

  /** A call of an attached handler, on behalf of a line. */
  datatype Invocation = Invocation(line: LineNo, hdr: nat, args: nat)

  /** Some line of the group is both pending and unmasked: the test at the top of each handler. */
  predicate AnyPending(irq: nat, pending: set<LineNo>, lines: set<nat>) {
    exists i: LineNo :: i in Group(irq) && i in pending && i in lines
  }

  /** The call a table asks for on one line, if a handler is attached to it. */
  function CallOn(tab: Table, i: LineNo): seq<Invocation> {
    if tab[i].hdr != 0 then [Invocation(i, tab[i].hdr, tab[i].args)] else []
  }

  /** The calls a table asks for on the lines of a group from position `pos` on, whether or not they are pending. */
  function CallsFrom(tab: Table, irq: nat, pos: nat): seq<Invocation>
    requires pos <= |Group(irq)|
    decreases |Group(irq)| - pos
  {
    if pos == |Group(irq)| then [] else CallOn(tab, Group(irq)[pos]) + CallsFrom(tab, irq, pos + 1)
  }

  /** Making the next call moves it from what is left to what has been called. */
  lemma CallMoves(called: seq<Invocation>, tab: Table, irq: nat, pos: nat)
    requires pos < |Group(irq)|
    ensures called + CallsFrom(tab, irq, pos) == called + CallOn(tab, Group(irq)[pos]) + CallsFrom(tab, irq, pos + 1)
  {}

  /** The pending lines without those of a group: a write of the whole group to a write-1-to-clear register. */
  function Cleared(pending: set<LineNo>, irq: nat): set<LineNo> {
    set i | i in pending && i !in Group(irq)
  }

  /** One activation of the handler of an IRQ: the pending lines it leaves and the calls it makes. */
  function Serve(tab: Table, lines: set<nat>, pending: set<LineNo>, irq: nat): (set<LineNo>, seq<Invocation>) {
    if AnyPending(irq, pending, lines) then (Cleared(pending, irq), CallsFrom(tab, irq, 0)) else (pending, [])
  }

  /** A run of activations, in any order and with any repetition. */
  function ServeAll(tab: Table, lines: set<nat>, pending: set<LineNo>, irqs: seq<nat>): (set<LineNo>, seq<Invocation>) {
    if irqs == [] then (pending, [])
    else
      var (p1, c1) := Serve(tab, lines, pending, irqs[0]);
      var (p2, c2) := ServeAll(tab, lines, p1, irqs[1..]);
      (p2, c1 + c2)
  }

  /** How often the handler of line `i` is called. */
  function Count(calls: seq<Invocation>, i: LineNo): nat {
    if calls == [] then 0 else (if calls[0].line == i then 1 else 0) + Count(calls[1..], i)
  }

  lemma {:induction false} CountAppend(a: seq<Invocation>, b: seq<Invocation>, i: LineNo)
    ensures Count(a + b, i) == Count(a, i) + Count(b, i)
  {
    if a == [] {
      assert a + b == b;
    } else {
      assert (a + b)[1..] == a[1..] + b;
      CountAppend(a[1..], b, i);
    }
  }

  lemma CountOne(tab: Table, j: LineNo, i: LineNo)
    ensures Count(CallOn(tab, j), i) == if i == j && tab[j].hdr != 0 then 1 else 0
  {}

  lemma GroupTail(irq: nat, pos: nat, i: LineNo)
    requires pos < |Group(irq)|
    ensures i in Group(irq)[pos..] <==> i == Group(irq)[pos] || i in Group(irq)[pos + 1..]
    ensures Group(irq)[pos] !in Group(irq)[pos + 1..]
  {
    GroupIsPreimage(irq, i);
    assert Group(irq)[pos..] == [Group(irq)[pos]] + Group(irq)[pos + 1..];
  }

  /** From position `pos` on, a line's handler is called once if it lies there and has one, and never otherwise. */
  lemma {:induction false} CountFrom(tab: Table, irq: nat, pos: nat, i: LineNo)
    requires pos <= |Group(irq)|
    ensures Count(CallsFrom(tab, irq, pos), i) == if i in Group(irq)[pos..] && tab[i].hdr != 0 then 1 else 0
    decreases |Group(irq)| - pos
  {
    if pos < |Group(irq)| {
      var j := Group(irq)[pos];
      CountAppend(CallOn(tab, j), CallsFrom(tab, irq, pos + 1), i);
      CountOne(tab, j, i);
      CountFrom(tab, irq, pos + 1, i);
      GroupTail(irq, pos, i);
    }
  }

  /** Every call is made with the handler and the argument that the table stores for its line. */
  lemma {:induction false} CallsAreStored(tab: Table, irq: nat, pos: nat, v: Invocation)
    requires pos <= |Group(irq)| && v in CallsFrom(tab, irq, pos)
    ensures v.line in Group(irq) && v.hdr != 0 && v.hdr == tab[v.line].hdr && v.args == tab[v.line].args
    decreases |Group(irq)| - pos
  {
    if v in CallsFrom(tab, irq, pos + 1) {
      CallsAreStored(tab, irq, pos + 1, v);
    }
  }

  /**
   * One activation calls the handler of line `i` exactly once when the line belongs to the IRQ, has a
   * handler and some line of the group is pending, and otherwise not at all; so a handler of the group is
   * called even if its own line is not pending. It never clears a line of another group.
   */
  lemma ServeCallsGroup(tab: Table, lines: set<nat>, pending: set<LineNo>, irq: nat, i: LineNo)
    ensures var (rest, calls) := Serve(tab, lines, pending, irq);
            && Count(calls, i) ==
               (if IrqOf(i) == irq && tab[i].hdr != 0 && AnyPending(irq, pending, lines) then 1 else 0)
            && (i in rest <==> i in pending && !(IrqOf(i) == irq && AnyPending(irq, pending, lines)))
  {
    GroupIsPreimage(irq, i);
    CountFrom(tab, irq, 0, i);
    assert Group(irq)[0..] == Group(irq);
  }

  lemma ServeKeepsOtherGroups(tab: Table, lines: set<nat>, pending: set<LineNo>, irq: nat, other: nat)
    ensures AnyPending(other, Serve(tab, lines, pending, irq).0, lines) <==>
            other != irq && AnyPending(other, pending, lines)
  {
    var rest := Serve(tab, lines, pending, irq).0;
    forall i: LineNo
      ensures i in rest <==> i in pending && !(IrqOf(i) == irq && AnyPending(irq, pending, lines))
      ensures i in Group(other) <==> IrqOf(i) == other
    {
      ServeCallsGroup(tab, lines, pending, irq, i);
      GroupIsPreimage(other, i);
    }
  }

  /**
   * Dispatch completeness: over any run of activations, spurious or repeated ones included, the handler of
   * line `i` is called exactly once if its IRQ is served and some line of its group was pending at the
   * start, and never otherwise; and exactly those groups are cleared.
   */
  lemma {:induction false} EachLineServedOnce(
      tab: Table, lines: set<nat>, pending: set<LineNo>, irqs: seq<nat>, i: LineNo)
    ensures var (rest, calls) := ServeAll(tab, lines, pending, irqs);
            var due := IrqOf(i) in irqs && AnyPending(IrqOf(i), pending, lines);
            && Count(calls, i) == (if due && tab[i].hdr != 0 then 1 else 0)
            && (i in rest <==> i in pending && !due)
  {
    if irqs != [] {
      var (p1, c1) := Serve(tab, lines, pending, irqs[0]);
      var (p2, c2) := ServeAll(tab, lines, p1, irqs[1..]);
      ServeCallsGroup(tab, lines, pending, irqs[0], i);
      ServeKeepsOtherGroups(tab, lines, pending, irqs[0], IrqOf(i));
      EachLineServedOnce(tab, lines, p1, irqs[1..], i);
      CountAppend(c1, c2, i);
      assert irqs == [irqs[0]] + irqs[1..];
    }
  }

  /** Once every IRQ with a pending line has been served, in any order, no unmasked line is pending. */
  lemma ServingAllDrains(tab: Table, lines: set<nat>, pending: set<LineNo>, irqs: seq<nat>)
    requires forall i: LineNo :: i in pending && i in lines ==> IrqOf(i) in irqs
    ensures forall i: LineNo :: i in ServeAll(tab, lines, pending, irqs).0 ==> i !in lines
  {}

  /** Each activation that finds a pending line leaves strictly fewer of them. */
  lemma ServeShrinks(tab: Table, lines: set<nat>, pending: set<LineNo>, irq: nat)
    requires AnyPending(irq, pending, lines)
    ensures Serve(tab, lines, pending, irq).0 < pending
  {}

  /** A handler that is called although its line is not pending: line 5, for an edge on line 6. */
  lemma CalledWithoutEdge()
    ensures var tab := EMPTY_TABLE[5 := Slot(30, 0, 1, 1)];
            Count(Serve(tab, {5, 6}, {6}, 39).1, 5) == 1
  {
    var tab := EMPTY_TABLE[5 := Slot(30, 0, 1, 1)];
    assert Group(39)[1] == 6 && AnyPending(39, {6}, {5, 6});
    ServeCallsGroup(tab, {5, 6}, {6}, 39, 5);
  }
}
