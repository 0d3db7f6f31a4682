/**
  The command queue of sim/debug.c: commands are shown to the debug port one at a time, polled
  for their acknowledgement once a clock period by the ack hook, and completed in order.  The
  drop-enable hook takes the enable line down a quarter period after the queue runs empty.
 */
module DebugQueue {
  import opened Addresses
  import opened Arithmetic
  import opened UtList
  import opened SchedulerSpec

  /** enum debug_cmd: break, step, insert, continue. */
  const CONTINUE: nat := 3

  datatype Command = Command(op: nat, ir: nat, d: nat, dEn: bool)

  /** A command as it was queued: its address and its contents. */
  datatype Entry = Entry(cmd: Ptr, req: Command)

  /** The inputs of the debug port. */
  datatype Signals = Signals(en: bool, cmd: nat, ir: nat, din: nat, dinEn: bool)

  /** The two hooks, and the clock period in picoseconds. */
  datatype Port = Port(ack: Ptr, drop: Ptr, period: nat)

  ghost predicate PortOk(k: Port) { k.ack != NULL && k.drop != NULL && k.ack != k.drop && k.period > 0 }

  /** The queue, the flags, the signals, and what was added, shown and completed so far. */
  datatype Hw = Hw(queue: seq<Entry>, paused: bool, dropScheduled: bool, sig: Signals,
                   added: seq<Entry>, shown: seq<Entry>, done: seq<Entry>)

  function Ptrs(q: seq<Entry>): seq<Ptr> { seq(|q|, i requires 0 <= i < |q| => q[i].cmd) }

  function Show(c: Command): Signals { Signals(true, c.op, c.ir, c.d, c.dEn) }

  /** round_up */
  function RoundUp(t: nat, quantum: nat): nat
    requires quantum > 0
  {
    (t + quantum - 1) / quantum * quantum
  }

  /** unschedule of the drop-enable hook */
  function Unschedule(k: Port, hw: Hw): seq<Action> { if hw.dropScheduled then [Remove(k.drop)] else [] }

  /** next_cmd */
  function NextCmd(k: Port, hw: Hw, picos: nat): (Hw, seq<Action>) {
    if hw.queue == [] then
      (hw.(dropScheduled := true), Unschedule(k, hw) + [Add(k.drop, picos + k.period / 4)])
    else
      var e := hw.queue[0];
      (hw.(dropScheduled := false, paused := hw.paused || e.req.op != CONTINUE, sig := Show(e.req),
           shown := hw.shown + [e]),
       Unschedule(k, hw))
  }

  function Enqueue(hw: Hw, e: Entry): Hw { hw.(queue := hw.queue + [e], added := hw.added + [e]) }

  /** debug_add_cmd outside a completion callback */
  function AddCmd(k: Port, hw: Hw, e: Entry, picos: nat): (Hw, seq<Action>)
    requires k.period > 0
  {
    var hw1 := Enqueue(hw, e);
    if hw.queue == [] then
      var (hw2, acts) := NextCmd(k, hw1, picos);
      (hw2, acts + [Add(k.ack, RoundUp(picos + k.period, k.period))])
    else (hw1, [])
  }

  /** What debug_add_cmd asks of the scheduler; starts says that the command is now the head. */
  function AddActs(k: Port, hw: Hw, starts: bool, picos: nat): seq<Action>
    requires k.period > 0
  {
    if starts then Unschedule(k, hw) + [Add(k.ack, RoundUp(picos + k.period, k.period))] else []
  }

  /** The commands that on_done queues. */
  function EnqueueAll(hw: Hw, es: seq<Entry>): Hw { hw.(queue := hw.queue + es, added := hw.added + es) }

  /** The head is done: off the queue, and on_done may queue commands, the same one included. */
  function Complete(hw: Hw, es: seq<Entry>): Hw
    requires hw.queue != []
  {
    var e := hw.queue[0];
    EnqueueAll(hw.(queue := hw.queue[1..], done := hw.done + [e], paused := e.req.op != CONTINUE), es)
  }

  /** ack_hook_cb; `time` is the hook's own target. */
  function AckCb(k: Port, hw: Hw, ack: bool, es: seq<Entry>, picos: nat, time: nat): (Hw, Outcome) {
    if hw.queue == [] then (hw, Outcome(true, time, []))
    else if !ack then (hw, Outcome(false, picos + k.period, []))
    else
      var hw1 := Complete(hw, es);
      var (hw2, acts) := NextCmd(k, hw1, picos);
      if hw1.queue == [] then (hw2, Outcome(true, time, acts)) else (hw2, Outcome(false, picos + k.period, acts))
  }

  /** drop_en_cb */
  function DropEnCb(hw: Hw, time: nat): (Hw, Outcome) {
    (hw.(dropScheduled := false, sig := hw.sig.(en := false)), Outcome(true, time, []))
  }

  // ----- what every step keeps -----

  /** The commands that may be queued: not null, not queued, each once. */
  ghost predicate CanQueue(q: seq<Entry>, es: seq<Entry>) { Distinct(Ptrs(q + es)) }

  /**
    First in, first out, each exactly once: what was added is what is done followed by the
    queue, what was shown is what is done followed by the head, and the head is on the port.  The
    enable line is up as long as a command is queued or the hook that takes it down is scheduled.
   */
  ghost predicate HwInv(hw: Hw) {
    && Distinct(Ptrs(hw.queue))
    && hw.added == hw.done + hw.queue
    && hw.shown == hw.done + (if hw.queue == [] then [] else [hw.queue[0]])
    && (hw.queue != [] ==> OnPort(hw.sig, hw.queue[0].req) && !hw.dropScheduled)
    && (hw.sig.en <==> hw.queue != [] || hw.dropScheduled)
    && (hw.queue != [] && hw.queue[0].req.op != 3 ==> hw.paused)
  }

  ghost predicate OnPort(g: Signals, c: Command) {
    g.en && g.cmd == c.op && g.ir == c.ir && g.din == c.d && g.dinEn == c.dEn
  }

  /** round_up gives the next multiple. */
  lemma RoundUpIs(t: nat, quantum: nat)
    requires quantum > 0
    ensures RoundUp(t, quantum) % quantum == 0 && t <= RoundUp(t, quantum) < t + quantum
  {
    var x := t + quantum - 1;
    var q := x / quantum;
    assert x == quantum * q + x % quantum;
    DropMultiple(0, q, quantum);
  }

  lemma TailPtrs(q: seq<Entry>)
    requires q != [] && Distinct(Ptrs(q))
    ensures Distinct(Ptrs(q[1..])) && q == [q[0]] + q[1..]
  {
    var s, t := Ptrs(q), Ptrs(q[1..]);
    assert forall i :: 0 <= i < |t| ==> t[i] == s[i + 1];
  }

  lemma AddKeeps(k: Port, hw: Hw, e: Entry, picos: nat)
    requires HwInv(hw) && k.period > 0 && CanQueue(hw.queue, [e])
    ensures HwInv(AddCmd(k, hw, e, picos).0)
  {
    if hw.queue == [] {
      assert [] + [e] == [e];
    } else {
      assert (hw.queue + [e])[0] == hw.queue[0];
    }
  }

  lemma AckKeeps(k: Port, hw: Hw, ack: bool, es: seq<Entry>, picos: nat, time: nat)
    requires HwInv(hw) && (hw.queue != [] ==> CanQueue(hw.queue[1..], es))
    ensures HwInv(AckCb(k, hw, ack, es, picos, time).0)
  {
    if hw.queue != [] && ack {
      var q := hw.queue;
      TailPtrs(q);
      var hw1 := Complete(hw, es);
      assert hw1.added == hw1.done + hw1.queue;
    }
  }

  // ----- the program -----

  class DebugHw {
    const port: Port
    var links: Dl
    var cmds: Ptr
    var code: map<Ptr, Command>
    var paused: bool
    var callingCmdDone: bool
    var dropScheduled: bool
    var sig: Signals
    // target times of the two hooks, and the scheduler calls under way
    var ackTime: nat
    var dropTime: nat
    var acts: seq<Action>
    // what the links list, and the history
    ghost var queue: seq<Entry>
    ghost var added: seq<Entry>
    ghost var shown: seq<Entry>
    ghost var done: seq<Entry>

    ghost function State(): Hw
      reads this
    {
      Hw(queue, paused, dropScheduled, sig, added, shown, done)
    }

    /** The links list the queue, and a command has a prev link exactly when it is queued. */
    ghost predicate Valid()
      reads this
    {
      Linked(links, cmds, queue) && Coded(code, queue) && port.period > 0
    }

    constructor (port: Port)
      requires port.period > 0
      ensures Valid() && this.port == port && !callingCmdDone && acts == []
      ensures State() == Hw([], false, false, Signals(false, 0, 0, 0, false), [], [], [])
    {
      this.port := port;
      links, cmds, code, paused, callingCmdDone, dropScheduled := Dl(map[], map[]), NULL, map[], false, false, false;
      sig, ackTime, dropTime, acts := Signals(false, 0, 0, 0, false), 0, 0, [];
      queue, added, shown, done := [], [], [], [];
    }

    method UnscheduleDrop()
      modifies this`dropScheduled, this`acts
      ensures !dropScheduled && acts == old(acts) + Unschedule(port, old(State()))
    {
      if dropScheduled {
        dropScheduled := false;
        acts := acts + [Remove(port.drop)];
      }
    }

    /** next_cmd, on whatever the head is. */
    method Next(picos: nat) returns (more: bool)
      requires port.period > 0 && (cmds != NULL ==> cmds in code)
      modifies this`dropScheduled, this`acts, this`paused, this`sig, this`ackTime, this`dropTime, this`shown
      ensures old(Valid()) ==> Valid() && (queue != [] <==> more)
      ensures old(Valid()) ==> var (hw, a) := NextCmd(port, old(State()), picos); State() == hw && acts == old(acts) + a
      ensures more == (cmds != NULL) && (more ==> acts == old(acts) + Unschedule(port, old(State())))
      ensures ackTime == if more then RoundUp(picos + port.period, port.period) else old(ackTime)
    {
      hide Linked, Coded, RoundUp;
      if Valid() { HeadOf(links, cmds, queue); }
      var cmd := cmds;
      if cmd == NULL {
        dropTime := picos + port.period / 4;
        UnscheduleDrop();
        dropScheduled := true;
        acts := acts + [Add(port.drop, dropTime)];
        return false;
      }
      UnscheduleDrop();
      if Valid() { CodeOf(code, queue, 0); }
      if code[cmd].op != CONTINUE {
        paused := true;
      }
      sig := Signals(true, code[cmd].op, code[cmd].ir, code[cmd].d, code[cmd].dEn);
      ackTime := RoundUp(picos + port.period, port.period);
      if queue != [] {
        shown := shown + [queue[0]];
      }
      return true;
    }

    /** The field stores of debug_add_request, the message for a queued command, and DL_APPEND. */
    method Link(cmd: Ptr, req: Command) returns (warned: bool)
      requires Valid() && cmd != NULL
      modifies this`links, this`cmds, this`code, this`queue, this`added
      ensures warned <==> cmd in Ptrs(old(queue))
      ensures (links, cmds) == Append(old(links), old(cmds), cmd) && code == old(code)[cmd := req]
      ensures cmds == if old(queue) == [] then cmd else old(cmds)
      ensures !warned ==>
                Valid() && State() == Enqueue(old(State()), Entry(cmd, req)) && (cmds == cmd <==> old(queue) == [])
      ensures warned ==> State() == old(State()) && cmds == old(queue[0].cmd)
    {
      hide Linked, Coded;
      var e := Entry(cmd, req);
      PrevTells(links, cmds, queue, cmd);
      HeadOf(links, cmds, queue);
      if queue != [] { assert Ptrs(queue)[0] in Ptrs(queue); }
      code := code[cmd := req];
      warned := links.Prev(cmd) != NULL;
      if !warned {
        LinkedAppend(links, cmds, queue, e);
        CodedAppend(old(code), queue, e);
        queue, added := queue + [e], added + [e];
      }
      var (d, head) := Append(links, cmds, cmd);
      links, cmds := d, head;
    }

    /**
      debug_add_request, with debug_add_cmd.  A command that is queued already is reported, and the
      rest is done all the same: the list is relinked, and if the command is the head of the queue
      the ack hook is added again.
     */
    method AddRequest(cmd: Ptr, req: Command, picos: nat) returns (warned: bool)
      requires Valid() && cmd != NULL && acts == []
      modifies this`links, this`cmds, this`code, this`queue, this`added
      modifies this`dropScheduled, this`acts, this`paused, this`sig, this`ackTime, this`dropTime, this`shown
      ensures warned <==> cmd in Ptrs(old(queue))
      ensures (links, cmds) == Append(old(links), old(cmds), cmd)
      ensures !warned ==> Valid()
      ensures callingCmdDone ==> acts == [] && (!warned ==> State() == Enqueue(old(State()), Entry(cmd, req)))
      ensures !callingCmdDone ==> acts == AddActs(port, old(State()), cmds == cmd, picos)
      ensures !callingCmdDone && !warned ==>
                var (hw, a) := AddCmd(port, old(State()), Entry(cmd, req), picos); State() == hw && acts == a
      ensures warned ==> cmds == old(queue[0].cmd)
    {
      hide Linked, Coded, RoundUp;
      warned := Link(cmd, req);
      ghost var valid := Valid();
      if !callingCmdDone && cmds == cmd {
        var more := Next(picos);
        if more {
          acts := acts + [Add(port.ack, ackTime)];
        }
      }
    }

    /** The completion callback: it queues the commands es, through debug_add_cmd. */
    method OnDone(es: seq<Entry>, picos: nat)
      requires Valid() && callingCmdDone && acts == [] && CanQueue(queue, es)
      modifies this`links, this`cmds, this`code, this`queue, this`added
      modifies this`dropScheduled, this`acts, this`paused, this`sig, this`ackTime, this`dropTime, this`shown
      ensures Valid() && State() == EnqueueAll(old(State()), es) && acts == []
    {
      hide Linked, Coded;
      var i := 0;
      while i < |es|
        invariant 0 <= i <= |es| && Valid() && acts == []
        invariant State() == EnqueueAll(old(State()), es[..i])
      {
        CanQueueAt(old(queue), es, i);
        var warned := AddRequest(es[i].cmd, es[i].req, picos);
        assert es[..i + 1] == es[..i] + [es[i]];
        assert old(queue) + es[..i] + [es[i]] == old(queue) + es[..i + 1];
        i := i + 1;
      }
      assert es[..i] == es;
    }

    /** DL_DELETE of the head, and cmd->prev = 0 */
    method Pop()
      requires Valid() && queue != []
      modifies this`links, this`cmds, this`queue, this`done
      ensures Valid() && queue == old(queue[1..]) && done == old(done) + [old(queue[0])]
    {
      hide Linked, Coded;
      HeadOf(links, cmds, queue);
      LinkedPop(links, cmds, queue);
      CodedPop(code, queue);
      var cmd := cmds;
      var (d, head) := Delete(links, cmds, cmd);
      links, cmds := d.SetPrev(cmd, NULL), head;
      queue, done := queue[1..], done + [queue[0]];
    }

    /** ack_hook_cb; es is what on_done queues if the head completes. */
    method AckHookCb(ack: bool, es: seq<Entry>, picos: nat) returns (retire: bool)
      requires Valid() && !callingCmdDone && acts == [] && queue != [] && CanQueue(queue[1..], es)
      modifies this
      ensures Valid() && !callingCmdDone
      ensures var (hw, o) := AckCb(port, old(State()), ack, es, picos, old(ackTime));
              State() == hw && retire == o.retire && acts == o.acts && (!retire ==> ackTime == o.newTime)
    {
      hide Linked, Coded, RoundUp;
      if ack {
        HeadOf(links, cmds, queue);
        CodeOf(code, queue, 0);
        var cmd := cmds;
        Pop();
        paused := code[cmd].op != CONTINUE;
        callingCmdDone := true;
        OnDone(es, picos);
        callingCmdDone := false;
        HeadCoded(links, cmds, code, queue);
        var more := Next(picos);
        if !more {
          return true;
        }
      }
      HeadOf(links, cmds, queue);
      if cmds != NULL {
        ackTime := picos + port.period;
        return false;
      } else {
        return true;
      }
    }

    /** drop_en_cb */
    method DropEnHookCb() returns (retire: bool)
      modifies this`sig, this`dropScheduled
      ensures retire && State() == DropEnCb(old(State()), dropTime).0
    {
      sig := sig.(en := false);
      dropScheduled := false;
      retire := true;
    }
  }

  // ----- the links -----

  ghost predicate Linked(d: Dl, head: Ptr, q: seq<Entry>) {
    && IsList(d, head, Ptrs(q))
    && forall x {:trigger d.Prev(x)} :: x != NULL ==> (d.Prev(x) != NULL <==> x in Ptrs(q))
  }

  ghost predicate Coded(code: map<Ptr, Command>, q: seq<Entry>) {
    forall i {:trigger q[i]} :: 0 <= i < |q| ==> q[i].cmd in code && code[q[i].cmd] == q[i].req
  }

  lemma HeadOf(d: Dl, head: Ptr, q: seq<Entry>)
    requires Linked(d, head, q)
    ensures head != NULL <==> q != []
    ensures q != [] ==> head == q[0].cmd
  {
    var s := Ptrs(q);
    if q != [] {
      assert s[0] == q[0].cmd;
    }
  }

  lemma HeadCoded(d: Dl, head: Ptr, code: map<Ptr, Command>, q: seq<Entry>)
    requires Linked(d, head, q) && Coded(code, q)
    ensures head != NULL ==> head in code
  {
    hide Linked;
    HeadOf(d, head, q);
    if q != [] { CodeOf(code, q, 0); }
  }

  /** A command has a prev link exactly when it is queued. */
  lemma PrevTells(d: Dl, head: Ptr, q: seq<Entry>, x: Ptr)
    requires Linked(d, head, q) && x != NULL
    ensures d.Prev(x) != NULL <==> x in Ptrs(q)
  {
  }

  lemma CodeOf(code: map<Ptr, Command>, q: seq<Entry>, i: nat)
    requires Coded(code, q) && i < |q|
    ensures q[i].cmd in code && code[q[i].cmd] == q[i].req
  {
  }

  lemma PtrsAppend(q: seq<Entry>, e: Entry)
    ensures Ptrs(q + [e]) == Ptrs(q) + [e.cmd]
  {
  }

  lemma LinkedAppend(d: Dl, head: Ptr, q: seq<Entry>, e: Entry)
    requires Linked(d, head, q) && e.cmd != NULL && e.cmd !in Ptrs(q)
    ensures d.Prev(e.cmd) == NULL
    ensures var (f, h) := Append(d, head, e.cmd); Linked(f, h, q + [e])
  {
    hide IsList, Append, Ptrs;
    var s, x := Ptrs(q), e.cmd;
    AppendLists(d, head, s, x);
    PtrsAppend(q, e);
    var f := Append(d, head, x).0;
    PrevOf(f, Append(d, head, x).1, s + [x]);
    forall y | y != NULL
      ensures f.Prev(y) != NULL <==> y in s + [x]
    {
      if y !in s + [x] {
        assert f.Prev(y) == d.Prev(y);
      }
    }
  }

  /** Listed nodes have a prev link. */
  lemma PrevOf(d: Dl, head: Ptr, s: seq<Ptr>)
    requires IsList(d, head, s)
    ensures forall x :: x in s ==> d.Prev(x) != NULL
  {
    hide IsList;
    forall x | x in s
      ensures d.Prev(x) != NULL
    {
      var i :| 0 <= i < |s| && s[i] == x;
      LinksAt(d, head, s, i);
      Same(d, head, s, i, if i == 0 then |s| - 1 else i - 1);
    }
  }

  /**
    A command that is queued already is reported but appended all the same.  With another
    command in the queue, some command is then lost: no list of the new links has them all.
   */
  lemma RequeueLoses(d: Dl, head: Ptr, s: seq<Ptr>, k: nat, t: seq<Ptr>)
    requires IsList(d, head, s) && k < |s| && |s| > 1 && (forall x :: x in s ==> x in t)
    ensures d.Prev(s[k]) != NULL && !IsList(Append(d, head, s[k]).0, Append(d, head, s[k]).1, t)
  {
    PrevOf(d, head, s);
    assert s[k] in s;
    var (e, h) := Append(d, head, s[k]);
    if IsList(e, h, t) {
      assert s[0] in t && s[|s| - 1] in t && s[k] in t;
      hide IsList, Append;
      Requeued(d, head, s, k);
      Same(d, head, s, 0, |s| - 1);
      var x := IndexOf(t, s[k]);
      if k == 0 {
        HeadEnds(e, h, t);
      } else if k == |s| - 1 {
        PrevApart(e, h, t, x);
      } else {
        assert s[k - 1] in t;
        Same(d, head, s, k - 1, |s| - 1);
        NextUnique(e, h, t, IndexOf(t, s[k - 1]), IndexOf(t, s[|s| - 1]));
      }
    }
  }

  /** The links list a queue that holds the command and every command that was queued. */
  ghost predicate NoneLost(d: Dl, head: Ptr, q: seq<Entry>, cmd: Ptr, t: seq<Entry>) {
    Linked(d, head, t) && cmd in Ptrs(t) && forall x {:trigger x in Ptrs(t)} :: x in Ptrs(q) ==> x in Ptrs(t)
  }

  /**
    Inside a completion debug_add_cmd does no more than DL_APPEND.  It loses no command exactly when
    the prev link of the command is null, or is the command itself: then it is the only one queued.
   */
  lemma AppendKeepsExactly(d: Dl, head: Ptr, q: seq<Entry>, cmd: Ptr)
    requires Linked(d, head, q) && cmd != NULL
    ensures var (d', head') := Append(d, head, cmd);
            (exists t :: NoneLost(d', head', q, cmd, t)) <==> d.Prev(cmd) == NULL || d.Prev(cmd) == cmd
  {
    PrevTells(d, head, q, cmd);
    var (d', head') := Append(d, head, cmd);
    if cmd !in Ptrs(q) {
      var e := Entry(cmd, Command(0, 0, 0, false));
      LinkedAppend(d, head, q, e);
      PtrsAppend(q, e);
      hide Linked, Append, Ptrs;
      assert NoneLost(d', head', q, cmd, q + [e]);
    } else if |q| == 1 {
      SoleKept(d, head, q);
      assert NoneLost(d', head', q, cmd, q);
    } else {
      var k := IndexOf(Ptrs(q), cmd);
      PrevApart(d, head, Ptrs(q), k);
      forall t
        ensures !NoneLost(d', head', q, cmd, t)
      {
        if NoneLost(d', head', q, cmd, t) { RequeueLoses(d, head, Ptrs(q), k, Ptrs(t)); }
      }
    }
  }

  /** Appending the only command again changes no link. */
  lemma SoleKept(d: Dl, head: Ptr, q: seq<Entry>)
    requires Linked(d, head, q) && |q| == 1
    ensures head == q[0].cmd && d.Prev(head) == head
    ensures var (d', head') := Append(d, head, head); Linked(d', head', q)
  {
    assert Ptrs(q) == [q[0].cmd];
    var d' := Append(d, head, head).0;
    assert forall x :: d'.Prev(x) == d.Prev(x) && d'.Next(x) == d.Next(x);
  }

  ghost function IndexOf(t: seq<Ptr>, x: Ptr): (i: nat)
    requires x in t
    ensures i < |t| && t[i] == x
  {
    var i :| 0 <= i < |t| && t[i] == x; i
  }

  /** The links after DL_APPEND of a node that is listed. */
  lemma Requeued(d: Dl, head: Ptr, s: seq<Ptr>, k: nat)
    requires IsList(d, head, s) && k < |s| && |s| > 1
    ensures var (e, h) := Append(d, head, s[k]);
            && h == s[0] && e.Next(s[k]) == NULL && (k == |s| - 1 ==> e.Prev(s[k]) == s[k])
            && (0 < k < |s| - 1 ==> e.Next(s[k - 1]) == s[k] && e.Next(s[|s| - 1]) == s[k] && s[k] != NULL)
  {
    hide IsList, Distinct;
    LinksAt(d, head, s, 0);
    Same(d, head, s, k, 0);
    Same(d, head, s, k, |s| - 1);
    if k > 0 {
      LinksAt(d, head, s, k - 1);
      Same(d, head, s, k, k - 1);
      Same(d, head, s, k - 1, |s| - 1);
    }
  }

  lemma HeadEnds(d: Dl, head: Ptr, t: seq<Ptr>)
    requires IsList(d, head, t) && |t| > 1
    ensures d.Next(head) != NULL
  {
    LinksAt(d, head, t, 0);
    Same(d, head, t, 0, 1);
  }

  lemma PrevApart(d: Dl, head: Ptr, t: seq<Ptr>, x: nat)
    requires IsList(d, head, t) && |t| > 1 && x < |t|
    ensures d.Prev(t[x]) != t[x]
  {
    LinksAt(d, head, t, x);
    Same(d, head, t, x, if x == 0 then |t| - 1 else x - 1);
  }

  lemma NextUnique(d: Dl, head: Ptr, t: seq<Ptr>, x: nat, y: nat)
    requires IsList(d, head, t) && x < |t| && y < |t| && x != y
    ensures d.Next(t[x]) != d.Next(t[y]) || d.Next(t[x]) == NULL
  {
    LinksAt(d, head, t, x);
    LinksAt(d, head, t, y);
    if x + 1 < |t| && y + 1 < |t| {
      Same(d, head, t, x + 1, y + 1);
    }
  }

  lemma CodedAppend(code: map<Ptr, Command>, q: seq<Entry>, e: Entry)
    requires Coded(code, q) && e.cmd !in Ptrs(q)
    ensures Coded(code[e.cmd := e.req], q + [e])
  {
    var q' := q + [e];
    forall i | 0 <= i < |q'|
      ensures q'[i].cmd in code[e.cmd := e.req] && code[e.cmd := e.req][q'[i].cmd] == q'[i].req
    {
      if i < |q| {
        assert Ptrs(q)[i] == q[i].cmd;
        assert Ptrs(q)[i] in Ptrs(q);
        assert q'[i] == q[i];
      }
    }
  }

  lemma CodedPop(code: map<Ptr, Command>, q: seq<Entry>)
    requires Coded(code, q) && q != []
    ensures Coded(code, q[1..])
  {
    assert forall i :: 0 <= i < |q[1..]| ==> q[1..][i] == q[i + 1];
  }

  lemma PtrsTail(q: seq<Entry>)
    requires q != []
    ensures Ptrs(q)[0] == q[0].cmd && Without(Ptrs(q), 0) == Ptrs(q[1..]) && Ptrs(q) == [q[0].cmd] + Ptrs(q[1..])
  {
    assert Ptrs(q)[..0] == [];
  }

  lemma LinkedPop(d: Dl, head: Ptr, q: seq<Entry>)
    requires Linked(d, head, q) && q != []
    ensures var (f, h) := Delete(d, head, q[0].cmd); Linked(f.SetPrev(q[0].cmd, NULL), h, q[1..])
  {
    hide IsList, Delete, Ptrs;
    var s, x := Ptrs(q), q[0].cmd;
    PtrsTail(q);
    DeleteLists(d, head, s, 0);
    assert Distinct(s) by { ListDistinct(d, head, s); }
    var t := Ptrs(q[1..]);
    var (f, h) := Delete(d, head, x);
    var g := f.SetPrev(x, NULL);
    HeadApart(s, x, t);
    assert Frame(f, g, [], x);
    FrameKeeps(f, g, [], x, h, t);
    PrevOf(g, h, t);
    forall y | y != NULL
      ensures g.Prev(y) != NULL <==> y in t
    {
      if y !in t && y != x {
        assert y !in s;
        assert f.Prev(y) == d.Prev(y);
      }
    }
  }

  lemma HeadApart(s: seq<Ptr>, x: Ptr, t: seq<Ptr>)
    requires Distinct(s) && s == [x] + t
    ensures x != NULL && x !in t
  {
    assert s[0] == x && forall i :: 0 <= i < |t| ==> t[i] == s[i + 1];
  }

  lemma ListDistinct(d: Dl, head: Ptr, s: seq<Ptr>)
    requires IsList(d, head, s)
    ensures Distinct(s)
  {
  }

  lemma CanQueueAt(q: seq<Entry>, es: seq<Entry>, i: nat)
    requires CanQueue(q, es) && i < |es|
    ensures es[i].cmd != NULL && es[i].cmd !in Ptrs(q + es[..i])
  {
    var s, t := Ptrs(q + es), Ptrs(q + es[..i]);
    assert s[|q| + i] == es[i].cmd;
    assert forall j :: 0 <= j < |t| ==> t[j] == s[j];
  }
}
