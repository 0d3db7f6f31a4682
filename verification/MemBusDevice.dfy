/**
  The callbacks of sim/mem_bus.c as they run: fields of struct mem_bus updated step by step,
  each callback proved against its function in MemBus.
 */
module MemBusDevice {
  import opened Addresses
  import opened UtList
  import opened SchedulerSpec
  import opened MemBus
  import opened MemBusTable

  class Device {
    const hooks: Hooks
    var ackPending: bool
    var opCount: nat
    var ackDropOp: nat
    var ackDelay: nat
    var ackDropDelay: nat
    var readVal: int
    // target times of the rw and the drop hook
    var rwTime: nat
    var dropTime: nat
    // signal writes, calls of ranges and scheduler calls of the callback under way
    var outs: seq<Out>
    var asked: seq<Ask>
    var acts: seq<Action>

    constructor (hooks: Hooks)
      ensures this.hooks == hooks && State() == Bus(false, 0, 0, 0, 0, 0) && rwTime == 0 && dropTime == 0
    {
      this.hooks := hooks;
      ackPending, opCount, ackDropOp, ackDelay, ackDropDelay, readVal := false, 0, 0, 0, 0, 0;
      rwTime, dropTime, outs, asked, acts := 0, 0, [], [], [];
    }

    function State(): Bus
      reads this
    {
      Bus(ackPending, opCount, ackDropOp, ackDelay, ackDropDelay, readVal)
    }

    function Now(): Effect
      reads this
    {
      Effect(State(), outs, acts, rwTime)
    }

    method DropAckLine(i: Inputs)
      modifies this`outs
      ensures outs == old(outs) + DropAck(i)
    {
      if i.ack {
        outs := outs + [SetAck(false), FloatDout];
      }
    }

    method ScheduleAckDrop(i: Inputs, picos: nat)
      requires outs == [] && acts == []
      modifies this`outs, this`acts, this`ackDropOp, this`dropTime
      ensures Now() == ScheduleDrop(hooks, old(State()), i, picos, old(dropTime), old(rwTime))
      ensures outs == if ackDropDelay == 0 && i.ack then [SetAck(false), FloatDout] else []
      ensures acts == if ackDropDelay != 0 && old(dropTime) == 0
                      then [Add(hooks.drop, picos + ackDropDelay * 1000)] else []
      ensures dropTime == if ackDropDelay != 0 && old(dropTime) == 0 then picos + ackDropDelay * 1000 else old(dropTime)
    {
      if ackDropDelay != 0 {
        if dropTime == 0 {
          ackDropOp := opCount;
          dropTime := picos + ackDropDelay * 1000;
          acts := acts + [Add(hooks.drop, dropTime)];
        }
      } else {
        DropAckLine(i);
      }
    }

    method ResetBus(i: Inputs)
      modifies this`ackPending, this`acts, this`outs, this`rwTime
      ensures Now() == Reset(hooks, old(Now()), i)
    {
      ackPending := false;
      acts := acts + [Immediate(hooks.cancel)];
      DropAckLine(i);
      rwTime := 0;
    }

    method RaiseAck(isRead: bool)
      modifies this`ackPending, this`opCount, this`outs, this`acts
      ensures Now() == Acknowledge(hooks, old(Now()), isRead, rwTime)
    {
      ackPending := false;
      if isRead {
        outs := outs + [SetDout(readVal)];
      }
      opCount := opCount + 1;
      outs := outs + [SetAck(true)];
      acts := acts + [Immediate(hooks.cancel)];
    }

    /** The call of the range's function, which gets no more data than the bytes it is to write. */
    method AskRange(i: Inputs, isRead: bool)
      requires !Invalid(i) && i.changed && i.en == Some(true) && (isRead <==> !Writes(i)) && !i.reply.NoRange?
      requires i.addr.Some? && i.we.Some? && NumBytes(isRead, i.addr.value, i.we.value).Some? && (isRead || i.din.Some?)
      modifies this`asked
      ensures asked == old(asked) + Asked(i)
    {
      LegalLanes(!isRead, i.addr.value, i.we.value);
      hide NumBytes, Lanes, Width;
      var addr, numBytes := i.addr.value, NumBytes(isRead, i.addr.value, i.we.value).value;
      if isRead {
        asked := asked + [ReadFrom(addr, numBytes)];
      } else {
        var data := i.din.value;
        if numBytes == 1 {
          data := data % 256;
        } else if numBytes == 2 {
          data := data % 65536;
        }
        asked := asked + [WriteTo(addr, numBytes, data)];
      }
    }

    /** The answer of a read, in the lanes the CPU expects. */
    method PlaceRead(val: int, addr: nat)
      modifies this`readVal
      ensures readVal == ToLanes(val, addr)
    {
      readVal := val;
      match addr % 4 {
        case 1 => readVal := readVal % 256 * 65536;
        case 2 => readVal := readVal % 65536;
        case 3 => readVal := readVal % 256;
        case _ =>
      }
    }

    method Start(i: Inputs, isRead: bool, picos: nat)
      requires !Invalid(i) && i.changed && i.en == Some(true) && (isRead <==> !Writes(i))
      modifies this
      ensures asked == old(asked) + Asked(i)
      ensures Now() == StartOperation(hooks, old(Now()), i, isRead, picos) && dropTime == old(dropTime)
      ensures old(acts) != [] ==> acts != [] && acts[0] == old(acts[0])
      ensures old(acts) == [] ==> acts == [] || !acts[0].Add?
    {
      hide NumBytes, Lanes, Width, ToLanes;
      if i.addr.None? || i.we.None? || NumBytes(isRead, i.addr.value, i.we.value).None? || (!isRead && i.din.None?) ||
        i.reply.NoRange? {
        if i.addr.Some? && i.we.Some? { LegalLanes(!isRead, i.addr.value, i.we.value); }
        ResetBus(i);
        return;
      }
      AskRange(i, isRead);
      ackDelay, ackDropDelay := i.reply.ackDelay, i.reply.dropDelay;
      if i.reply.Failed? {
        ResetBus(i);
        return;
      }
      if isRead {
        PlaceRead(i.reply.val, i.addr.value);
      }
      if ackDelay != 0 {
        ackPending := true;
        rwTime := picos + ackDelay * 1000;
      } else {
        rwTime := 0;
        RaiseAck(isRead);
      }
    }

    /** The drop hook's target: the one it was just added with, else the one it had. */
    static function ScheduledFor(acts: seq<Action>, dropTime: nat): nat {
      if |acts| > 0 && acts[0].Add? then acts[0].t else dropTime
    }

    /** read_write_cb */
    method ReadWriteCb(i: Inputs, picos: nat) returns (ret: bool)
      modifies this
      ensures !ret && Now() == ReadWrite(hooks, old(State()), i, picos, old(rwTime), old(dropTime))
      ensures dropTime == ScheduledFor(acts, old(dropTime)) && asked == Asked(i)
    {
      hide NumBytes, Lanes, Width, Answer;
      outs, asked, acts, ret := [], [], [], false;
      var isRead := true;
      if i.en.None? || (i.hasWr && (i.wr.None? || i.rd.None?)) {
        ResetBus(i);
        return;
      }
      if i.hasWr {
        if i.wr.value {
          isRead := false;
        } else if !i.rd.value && i.en.value {
          ResetBus(i);
          return;
        }
      }
      if i.changed {
        if i.en.value {
          if ackPending {
            ackPending := false;
          } else if i.ack {
            ScheduleAckDrop(i, picos);
          }
          Start(i, isRead, picos);
        } else if ackPending {
          ResetBus(i);
        } else if i.ack {
          ScheduleAckDrop(i, picos);
        }
      } else if rwTime == picos {
        if ackPending {
          RaiseAck(isRead);
        }
      }
    }

    /** drop_ack_cb; the scheduler clears the target of the retired hook. */
    method DropAckCb(i: Inputs) returns (ret: bool)
      modifies this`outs, this`acts
      ensures ret && outs == DropOuts(State(), i) && acts == []
      ensures outs == if i.ack && ackDropOp == opCount then [SetAck(false), FloatDout] else []
    {
      outs, acts, ret := [], [], true;
      if ackDropOp == opCount {
        DropAckLine(i);
      }
    }

    /** cancel_drop_cb */
    method CancelDropCb() returns (ret: bool)
      modifies this`acts, this`dropTime
      ensures ret && dropTime == 0 && acts == CancelScript(hooks, old(dropTime))
      ensures acts == if old(dropTime) != 0 then [Remove(hooks.drop), Retime(hooks.drop, 0)] else []
    {
      acts, ret := [], true;
      if dropTime != 0 {
        acts := [Remove(hooks.drop), Retime(hooks.drop, 0)];
        dropTime := 0;
      }
    }
  }
}
