/**
  The read/write callback as a decision table: in which cases it resets the bus, lowers the
  acknowledge line, schedules a drop, starts an operation or acknowledges one.
 */
module MemBusTable {
  import opened Addresses
  import opened UtList
  import opened SchedulerSpec
  import opened MemBus

  /** Some control signal is no number, or the bus is enabled for neither a read nor a write. */
  ghost predicate Invalid(i: Inputs) {
    || i.en.None?
    || (i.hasWr && (i.wr.None? || i.rd.None?))
    || (i.hasWr && i.en == Some(true) && i.wr == Some(false) && i.rd == Some(false))
  }

  ghost predicate Writes(i: Inputs) { i.hasWr && i.wr == Some(true) }

  /** The byte lanes a write may enable at an address; a read enables none. */
  ghost predicate Lanes(write: bool, addr: nat, we: nat) {
    if !write then we == 0
    else (we, addr % 4) in {(15, 0), (12, 0), (3, 2), (8, 0), (4, 1), (2, 2), (1, 3)}
  }

  /** How many bytes they are. */
  ghost function Width(write: bool, addr: nat, we: nat): nat {
    if !write then (if addr % 4 == 0 then 4 else if addr % 4 == 2 then 2 else 1)
    else if we == 15 then 4
    else if we in {12, 3} then 2
    else 1
  }

  /** The legal combinations of lanes and address, and how many bytes they move. */
  lemma LegalLanes(write: bool, addr: nat, we: nat)
    ensures NumBytes(!write, addr, we) == if Lanes(write, addr, we) then Some(Width(write, addr, we)) else None
  {
  }

  /** The signals ask for something that a range may answer. */
  ghost predicate Asks(i: Inputs) {
    i.addr.Some? && i.we.Some? && Lanes(Writes(i), i.addr.value, i.we.value) && (Writes(i) ==> i.din.Some?)
  }

  /** A new operation is asked for, and answered. */
  ghost predicate Operates(i: Inputs) {
    !Invalid(i) && i.changed && i.en == Some(true) && Asks(i) && i.reply.Completed?
  }

  ghost predicate Resets(b: Bus, i: Inputs) {
    || Invalid(i)
    || (i.changed && i.en == Some(true) && !(Asks(i) && i.reply.Completed?))
    || (i.changed && i.en == Some(false) && b.ackPending)
  }

  /** The inputs change while the line is still up and nothing is pending. */
  ghost predicate Stays(b: Bus, i: Inputs) { !Invalid(i) && i.changed && i.ack && !b.ackPending }

  /** What a read puts on the data lines: the range's answer, in the lanes of the bytes at that address. */
  ghost function Answer(i: Inputs): int {
    if i.addr.None? || !i.reply.Completed? then 0
    else var v := i.reply.val; [v, v % 0x100 * 0x1_0000, v % 0x1_0000, v % 0x100][i.addr.value % 4]
  }

  /** What is asked of a range: the bytes of the lanes, for a write with no other data bits. */
  ghost function Asked(i: Inputs): seq<Ask> {
    if Invalid(i) || !i.changed || i.en != Some(true) || !Asks(i) || i.reply.NoRange? then []
    else
      var n := Width(Writes(i), i.addr.value, i.we.value);
      if !Writes(i) then [ReadFrom(i.addr.value, n)]
      else [WriteTo(i.addr.value, n, if n == 1 then i.din.value % 0x100
                                     else if n == 2 then i.din.value % 0x1_0000 else i.din.value)]
  }

  ghost predicate Acks(b: Bus, i: Inputs, picos: nat, time: nat) {
    || (Operates(i) && i.reply.ackDelay == 0)
    || (!Invalid(i) && !i.changed && b.ackPending && time == picos)
  }

  /** The line goes down when it is up and the callback resets, or would drop it after no delay. */
  ghost function Lowering(b: Bus, i: Inputs): seq<Out> {
    (if Stays(b, i) && b.ackDropDelay == 0 then [SetAck(false), FloatDout] else [])
    + (if Resets(b, i) && i.ack then [SetAck(false), FloatDout] else [])
  }

  ghost function Raising(b: Bus, i: Inputs, picos: nat, time: nat): seq<Out> {
    if !Acks(b, i, picos, time) then []
    else if Writes(i) then [SetAck(true)]
    else [SetDout(if i.changed then Answer(i) else b.readVal), SetAck(true)]
  }

  /** What the callback writes to the signals, in order. */
  lemma RwOuts(k: Hooks, b: Bus, i: Inputs, picos: nat, time: nat, dropTime: nat)
    ensures ReadWrite(k, b, i, picos, time, dropTime).outs == Lowering(b, i) + Raising(b, i, picos, time)
  {
    if i.addr.Some? && i.we.Some? { LegalLanes(Writes(i), i.addr.value, i.we.value); }
    assert ReadData(i) == Answer(i);
    hide NumBytes, Lanes, Width, ReadData, Answer;
  }

  /** What it asks of the scheduler: to schedule the drop of a line that is up, and to cancel one after
      a reset or an acknowledgement.  The drop counts the operations so far. */
  lemma RwActions(k: Hooks, b: Bus, i: Inputs, picos: nat, time: nat, dropTime: nat)
    ensures var f := ReadWrite(k, b, i, picos, time, dropTime);
            var schedules := Stays(b, i) && b.ackDropDelay != 0 && dropTime == 0;
            && f.acts == (if schedules then [Add(k.drop, picos + b.ackDropDelay * 1000)] else [])
                         + (if Resets(b, i) || Acks(b, i, picos, time) then [Immediate(k.cancel)] else [])
            && f.bus.ackDropOp == if schedules then b.opCount else b.ackDropOp
  {
    if i.addr.Some? && i.we.Some? { LegalLanes(Writes(i), i.addr.value, i.we.value); }
    assert ReadData(i) == Answer(i);
    hide NumBytes, Lanes, Width, ReadData, Answer;
  }

  /** What becomes of an operation: it is pending for its delay, counted when it is acknowledged. */
  lemma RwOperation(k: Hooks, b: Bus, i: Inputs, picos: nat, time: nat, dropTime: nat)
    ensures var f := ReadWrite(k, b, i, picos, time, dropTime);
            var starts := Operates(i) && i.reply.ackDelay != 0;
            && f.bus.opCount == b.opCount + (if Acks(b, i, picos, time) then 1 else 0)
            && (f.bus.ackPending <==> starts || (b.ackPending && !Invalid(i) && !i.changed && time != picos))
            && f.time == (if starts then picos + i.reply.ackDelay * 1000
                          else if Resets(b, i) || Operates(i) then 0 else time)
            && f.bus.readVal == if Operates(i) && !Writes(i) then Answer(i) else b.readVal
  {
    if i.addr.Some? && i.we.Some? { LegalLanes(Writes(i), i.addr.value, i.we.value); }
    assert ReadData(i) == Answer(i);
    hide NumBytes, Lanes, Width, ReadData, Answer;
  }

  /** The delays of a range are kept from its answer on, be it a failure. */
  lemma RwDelays(k: Hooks, b: Bus, i: Inputs, picos: nat, time: nat, dropTime: nat)
    ensures var f := ReadWrite(k, b, i, picos, time, dropTime);
            if !Invalid(i) && i.changed && i.en == Some(true) && Asks(i) && !i.reply.NoRange?
            then f.bus.ackDelay == i.reply.ackDelay && f.bus.ackDropDelay == i.reply.dropDelay
            else f.bus.ackDelay == b.ackDelay && f.bus.ackDropDelay == b.ackDropDelay
  {
    if i.addr.Some? && i.we.Some? { LegalLanes(Writes(i), i.addr.value, i.we.value); }
    assert ReadData(i) == Answer(i);
    hide NumBytes, Lanes, Width, ReadData, Answer;
  }
}
