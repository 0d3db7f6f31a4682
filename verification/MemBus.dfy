/**
  The memory bus of sim/mem_bus.c.  The three hooks of a bus run on the scheduler: rw is always
  listed, drop is listed while a delayed drop of the acknowledge line is scheduled, and cancel
  is only ever added as an immediate hook.
 */
module MemBus {
  import opened Addresses
  import opened UtList
  import opened SchedulerSpec

  datatype Option<+T> = None | Some(value: T)

  /** The addresses of the three hooks of a bus. */
  datatype Hooks = Hooks(rw: Ptr, drop: Ptr, cancel: Ptr)

  ghost predicate HooksOk(k: Hooks) {
    k.rw != NULL && k.drop != NULL && k.cancel != NULL && k.rw != k.drop && k.rw != k.cancel && k.drop != k.cancel
  }

  /** The fields of struct mem_bus that the callbacks change. */
  datatype Bus = Bus(ackPending: bool, opCount: nat, ackDropOp: nat, ackDelay: nat, ackDropDelay: nat, readVal: int)

  /** What a range's read or write function answers, with the delays it leaves behind. */
  datatype Reply = NoRange | Failed(ackDelay: nat, dropDelay: nat) | Completed(val: int, ackDelay: nat, dropDelay: nat)

  /** The signals as a callback sees them; None stands for a value that is not a number. */
  datatype Inputs = Inputs(changed: bool, en: Option<bool>, hasWr: bool, wr: Option<bool>, rd: Option<bool>,
                           ack: bool, addr: Option<nat>, we: Option<nat>, din: Option<int>, reply: Reply)

  /** Writes to the output signals, in the order they are sent. */
  datatype Out = SetAck(v: bool) | SetDout(val: int) | FloatDout

  /** Calls of a range's functions: the address, how many bytes, and the data of a write. */
  datatype Ask = ReadFrom(addr: nat, n: nat) | WriteTo(addr: nat, n: nat, data: int)

  datatype Effect = Effect(bus: Bus, outs: seq<Out>, acts: seq<Action>, time: nat)

  // ----- read_write_cb -----

  function DropAck(i: Inputs): seq<Out> { if i.ack then [SetAck(false), FloatDout] else [] }

  /** schedule_ack_drop */
  function ScheduleDrop(k: Hooks, b: Bus, i: Inputs, picos: nat, dropTime: nat, time: nat): Effect {
    if b.ackDropDelay != 0 then
      if dropTime == 0 then
        Effect(b.(ackDropOp := b.opCount), [], [Add(k.drop, picos + b.ackDropDelay * 1000)], time)
      else Effect(b, [], [], time)
    else Effect(b, DropAck(i), [], time)
  }

  /** How many bytes a legal operation moves; None is a bus exception. */
  function NumBytes(isRead: bool, addr: nat, we: nat): Option<nat> {
    if isRead then
      if we != 0 then None else Some(if addr % 4 == 0 then 4 else if addr % 4 == 2 then 2 else 1)
    else if we == 0xF then if addr % 4 == 0 then Some(4) else None
    else if we == 0xC then if addr % 4 == 0 then Some(2) else None
    else if we == 3 then if addr % 4 == 2 then Some(2) else None
    else if we == 8 then if addr % 4 == 0 then Some(1) else None
    else if we == 4 then if addr % 4 == 1 then Some(1) else None
    else if we == 2 then if addr % 4 == 2 then Some(1) else None
    else if we == 1 then if addr % 4 == 3 then Some(1) else None
    else None
  }

  /** Where on the data lines the CPU expects the bytes that a range read, by the address. */
  function ToLanes(v: int, addr: nat): int {
    if addr % 4 == 1 then v % 256 * 65536 else if addr % 4 == 2 then v % 65536 else if addr % 4 == 3 then v % 256
    else v
  }

  /** The data of a read. */
  function ReadData(i: Inputs): int {
    if i.addr.Some? && i.reply.Completed? then ToLanes(i.reply.val, i.addr.value) else 0
  }

  /** Bus exception or reset: no operation, the pending drop is cancelled, the line dropped. */
  function Reset(k: Hooks, f: Effect, i: Inputs): Effect {
    Effect(f.bus.(ackPending := false), f.outs + DropAck(i), f.acts + [Immediate(k.cancel)], 0)
  }

  /** Raises the acknowledge line, with the data of a read before it. */
  function Acknowledge(k: Hooks, f: Effect, isRead: bool, time: nat): Effect {
    Effect(f.bus.(ackPending := false, opCount := f.bus.opCount + 1),
           f.outs + (if isRead then [SetDout(f.bus.readVal)] else []) + [SetAck(true)],
           f.acts + [Immediate(k.cancel)], time)
  }

  /** A new operation, after an unfinished one was dropped or a drop of the old line scheduled. */
  function StartOperation(k: Hooks, f: Effect, i: Inputs, isRead: bool, picos: nat): Effect {
    if i.addr.None? || i.we.None? || NumBytes(isRead, i.addr.value, i.we.value).None? then Reset(k, f, i)
    else if !isRead && i.din.None? then Reset(k, f, i)
    else match i.reply
      case NoRange => Reset(k, f, i)
      case Failed(ad, dd) => Reset(k, f.(bus := f.bus.(ackDelay := ad, ackDropDelay := dd)), i)
      case Completed(v, ad, dd) =>
        var b := f.bus.(ackDelay := ad, ackDropDelay := dd, readVal := if isRead then ReadData(i) else f.bus.readVal);
        if ad != 0 then Effect(b.(ackPending := true), f.outs, f.acts, picos + ad * 1000)
        else Acknowledge(k, f.(bus := b), isRead, 0)
  }

  /** The whole callback.  `time` is the rw hook's target, `dropTime` the drop hook's. */
  function ReadWrite(k: Hooks, b: Bus, i: Inputs, picos: nat, time: nat, dropTime: nat): Effect {
    var f := Effect(b, [], [], time);
    if i.en.None? || (i.hasWr && (i.wr.None? || i.rd.None?)) then Reset(k, f, i)
    else
      var isRead := !(i.hasWr && i.wr.value);
      if i.hasWr && isRead && !i.rd.value && i.en.value then Reset(k, f, i)
      else if i.changed then
        if i.en.value then
          var f' := if b.ackPending then f.(bus := b.(ackPending := false))
                    else if i.ack then ScheduleDrop(k, b, i, picos, dropTime, time) else f;
          StartOperation(k, f', i, isRead, picos)
        else if b.ackPending then Reset(k, f, i)
        else if i.ack then ScheduleDrop(k, b, i, picos, dropTime, time)
        else f
      else if time == picos && b.ackPending then Acknowledge(k, f, isRead, time)
      else f
  }

  function RwOutcome(f: Effect): Outcome { Outcome(false, f.time, f.acts) }

  /** drop_ack_cb: retires itself, and drops the line unless an operation was acknowledged since. */
  function DropOuts(b: Bus, i: Inputs): seq<Out> { if b.ackDropOp == b.opCount then DropAck(i) else [] }

  /** cancel_drop_cb */
  function CancelScript(k: Hooks, dropTime: nat): seq<Action> {
    if dropTime != 0 then [Remove(k.drop), Retime(k.drop, 0)] else []
  }
}
