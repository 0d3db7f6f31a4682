/**
  How sim_go_to_idle finds out that the child simulator is quiet: it sends numbered echo
  commands, one more after each report it receives, and returns when the last one comes back.
  The child reads its commands in order and answers on a channel of its own.
 */
module IdleProtocol {

  const WRAP: nat := 65536   // echo_arg is a uint16_t

  datatype Cmd = Echo(arg: nat) | Work(id: int)
  datatype Line = EchoBack(arg: nat) | Report(r: int) | Malformed

  /** Returned: the idle state was reached; Broken: the call gives up without it. */
  datatype Pc = Outside | Reading | Returned | Broken

  /**
    The two channels and the parent's variables.  `count` is the number of echo commands ever
    sent; `executed`, `sent`, `emitted` and `echoAt` record history: what the child has done,
    what the parent has sent, the reports emitted, and how many reports the parent had
    received when it sent its latest echo.
   */
  datatype State = State(toChild: seq<Cmd>, fromChild: seq<Line>, pc: Pc, count: nat, ioError: bool,
                         applied: seq<int>, executed: seq<Cmd>, sent: seq<Cmd>, emitted: seq<int>, echoAt: nat)

  // ----- the child: the read loop of sim_macros.h -----

  function Answer(c: Cmd): seq<Line> { if c.Echo? then [EchoBack(c.arg)] else [] }

  ghost predicate NoEcho(s: seq<Line>) { forall i :: 0 <= i < |s| ==> !s[i].EchoBack? }

  /** The child takes its next command; `out` are the lines that other processes write meanwhile. */
  ghost predicate ChildStep(s: State, out: seq<Line>, s': State) {
    && s.toChild != [] && NoEcho(out)
    && s' == s.(toChild := s.toChild[1..], executed := s.executed + [s.toChild[0]],
                fromChild := s.fromChild + out + Answer(s.toChild[0]), emitted := s.emitted + Reports(out))
  }

  function Reports(s: seq<Line>): seq<int> {
    if s == [] then [] else (if s[0].Report? then [s[0].r] else []) + Reports(s[1..])
  }

  // ----- the parent -----

  function Send(s: State, c: Cmd): State { s.(toChild := s.toChild + [c], sent := s.sent + [c]) }

  function SendEcho(s: State): State {
    Send(s, Echo(s.count % WRAP)).(count := s.count + 1, echoAt := |s.applied|)
  }

  /** A command other than echo, sent before sim_go_to_idle. */
  function Command(s: State, id: int): State { Send(s, Work(id)) }

  /** The call: nothing after an earlier failure, otherwise the first echo. */
  function Call(s: State): State {
    if s.ioError then s.(pc := Broken) else SendEcho(s).(pc := Reading)
  }

  /** One line: a report is answered by another echo and applied; the echo sent last ends the loop. */
  function HandleLine(s: State): State
    requires s.fromChild != []
  {
    var line, s1 := s.fromChild[0], s.(fromChild := s.fromChild[1..]);
    match line
    case Malformed => s1
    case Report(r) => var s2 := s1.(applied := s.applied + [r]); SendEcho(s2)
    case EchoBack(a) => if s.count > 0 && a == (s.count - 1) % WRAP then s1.(pc := Returned) else s1
  }

  /** Besides lines, read() may bring an error, which is remembered, or the end of the stream, which is not. */
  ghost predicate Step(s: State, s': State) {
    || (exists out :: ChildStep(s, out, s'))
    || (s.pc.Reading? && s.fromChild != [] && s' == HandleLine(s))
    || (s.pc.Reading? && s' == s.(pc := Broken, ioError := true))
    || (s.pc.Reading? && s' == s.(pc := Broken))
    || (s.pc.Outside? && exists id :: s' == Command(s, id))
    || (s.pc.Outside? && s' == Call(s))
    || ((s.pc.Returned? || s.pc.Broken?) && s' == s.(pc := Outside))
  }

  // ----- the echoes under way -----

  function EchoesIn(s: seq<Line>): seq<nat> {
    if s == [] then [] else (if s[0].EchoBack? then [s[0].arg] else []) + EchoesIn(s[1..])
  }

  function EchoesTo(s: seq<Cmd>): seq<nat> {
    if s == [] then [] else (if s[0].Echo? then [s[0].arg] else []) + EchoesTo(s[1..])
  }

  /** The arguments of all unanswered echoes, in the order in which they will be read. */
  ghost function Outstanding(s: State): seq<nat> { EchoesIn(s.fromChild) + EchoesTo(s.toChild) }

  /** The outstanding echoes are the latest ones, consecutively numbered modulo WRAP. */
  ghost predicate Consecutive(args: seq<nat>, count: nat) {
    |args| <= count && forall i :: 0 <= i < |args| ==> args[i] == (count - |args| + i) % WRAP
  }

  ghost predicate Inv(s: State) {
    && s.executed + s.toChild == s.sent
    && s.emitted == s.applied + Reports(s.fromChild)
    && Consecutive(Outstanding(s), s.count)
    && (s.pc.Reading? ==>
          && |Outstanding(s)| >= 1 && s.echoAt == |s.applied|
          && (s.toChild != [] ==> s.toChild[|s.toChild| - 1].Echo?)
          && (s.toChild == [] ==> s.fromChild != [] && s.fromChild[|s.fromChild| - 1].EchoBack?))
  }

  // ----- lists -----

  lemma {:induction false} ReportLists(a: seq<Line>, b: seq<Line>)
    ensures Reports(a + b) == Reports(a) + Reports(b)
    decreases |a|
  {
    if a == [] {
      assert a + b == b;
    } else {
      assert (a + b)[0] == a[0] && (a + b)[1..] == a[1..] + b;
      ReportLists(a[1..], b);
    }
  }

  lemma {:induction false} EchoLists(a: seq<Line>, b: seq<Line>)
    ensures EchoesIn(a + b) == EchoesIn(a) + EchoesIn(b)
    decreases |a|
  {
    if a == [] {
      assert a + b == b;
    } else {
      assert (a + b)[0] == a[0] && (a + b)[1..] == a[1..] + b;
      EchoLists(a[1..], b);
    }
  }

  lemma {:induction false} CmdLists(a: seq<Cmd>, b: seq<Cmd>)
    ensures EchoesTo(a + b) == EchoesTo(a) + EchoesTo(b)
    decreases |a|
  {
    if a == [] {
      assert a + b == b;
    } else {
      assert (a + b)[0] == a[0] && (a + b)[1..] == a[1..] + b;
      CmdLists(a[1..], b);
    }
  }

  lemma {:induction false} QuietLines(s: seq<Line>)
    requires NoEcho(s)
    ensures EchoesIn(s) == []
    decreases |s|
  {
    if s != [] {
      QuietLines(s[1..]);
    }
  }

  lemma OneCmd(c: Cmd)
    ensures EchoesTo([c]) == (if c.Echo? then [c.arg] else [])
    ensures EchoesIn(Answer(c)) == EchoesTo([c]) && Reports(Answer(c)) == []
  {
    assert [c][1..] == [];
    if c.Echo? {
      assert Answer(c)[1..] == [];
    }
  }

  lemma {:induction false} LastEcho(s: seq<Line>)
    requires s != [] && s[|s| - 1].EchoBack?
    ensures |EchoesIn(s)| >= 1
    ensures |EchoesIn(s)| == 1 && s[0].EchoBack? ==> |s| == 1
    decreases |s|
  {
    if |s| == 1 {
      assert s[1..] == [];
    } else {
      LastEcho(s[1..]);
    }
  }

  lemma {:induction false} LastCmdEcho(s: seq<Cmd>)
    requires s != [] && s[|s| - 1].Echo?
    ensures |EchoesTo(s)| >= 1
    decreases |s|
  {
    if |s| > 1 {
      LastCmdEcho(s[1..]);
    }
  }

  // ----- the invariant -----

  /** The child moves the echoes along, in order. */
  lemma ChildOutstanding(s: State, out: seq<Line>, s': State)
    requires ChildStep(s, out, s')
    ensures Outstanding(s') == Outstanding(s)
    ensures Reports(s'.fromChild) == Reports(s.fromChild) + Reports(out)
  {
    hide EchoesIn, EchoesTo, Reports;
    var c, rest := s.toChild[0], s.toChild[1..];
    assert s.toChild == [c] + rest;
    CmdLists([c], rest);
    OneCmd(c);
    EchoLists(s.fromChild, out);
    EchoLists(s.fromChild + out, Answer(c));
    ReportLists(s.fromChild, out);
    ReportLists(s.fromChild + out, Answer(c));
    QuietLines(out);
  }

  lemma ChildKeeps(s: State, out: seq<Line>, s': State)
    requires Inv(s) && ChildStep(s, out, s')
    ensures Inv(s')
  {
    hide EchoesIn, EchoesTo, Reports, Consecutive, Outstanding, NoEcho;
    var c, rest := s.toChild[0], s.toChild[1..];
    ChildOutstanding(s, out, s');
    assert s.toChild == [c] + rest;
    assert s.executed + s.toChild == (s.executed + [c]) + rest;
    assert rest != [] ==> rest[|rest| - 1] == s.toChild[|s.toChild| - 1];
    assert rest == [] ==> c == s.toChild[|s.toChild| - 1];
  }

  lemma SendEchoKeeps(s: State)
    requires s.executed + s.toChild == s.sent && Consecutive(Outstanding(s), s.count)
    ensures var s' := SendEcho(s);
            && s'.executed + s'.toChild == s'.sent && Consecutive(Outstanding(s'), s'.count)
            && |Outstanding(s')| == |Outstanding(s)| + 1
  {
    hide EchoesIn, EchoesTo, Consecutive;
    var s' := SendEcho(s);
    CmdLists(s.toChild, [Echo(s.count % WRAP)]);
    OneCmd(Echo(s.count % WRAP));
    assert Outstanding(s') == Outstanding(s) + [s.count % WRAP];
    ConsecutiveNext(Outstanding(s), s.count);
    assert s'.executed + s'.toChild == (s.executed + s.toChild) + [Echo(s.count % WRAP)];
  }

  lemma ConsecutiveNext(args: seq<nat>, count: nat)
    requires Consecutive(args, count)
    ensures Consecutive(args + [count % WRAP], count + 1)
  {
  }

  lemma CallKeeps(s: State)
    requires Inv(s) && s.pc.Outside?
    ensures Inv(Call(s))
  {
    if !s.ioError {
      SendEchoKeeps(s);
    }
  }

  lemma CommandKeeps(s: State, id: int)
    requires Inv(s) && s.pc.Outside?
    ensures Inv(Command(s, id))
  {
    hide EchoesIn, EchoesTo, Consecutive, Reports;
    CmdLists(s.toChild, [Work(id)]);
    OneCmd(Work(id));
    assert Outstanding(Command(s, id)) == Outstanding(s);
    assert s.executed + (s.toChild + [Work(id)]) == (s.executed + s.toChild) + [Work(id)];
  }

  lemma FirstLine(s: seq<Line>)
    requires s != []
    ensures EchoesIn(s) == (if s[0].EchoBack? then [s[0].arg] else []) + EchoesIn(s[1..])
    ensures Reports(s) == (if s[0].Report? then [s[0].r] else []) + Reports(s[1..])
  {
  }

  lemma ReportKeeps(s: State)
    requires Inv(s) && s.pc.Reading? && s.fromChild != [] && s.fromChild[0].Report?
    ensures Inv(HandleLine(s))
  {
    hide EchoesIn, EchoesTo, Reports;
    FirstLine(s.fromChild);
    var s1 := s.(fromChild := s.fromChild[1..], applied := s.applied + [s.fromChild[0].r]);
    assert Outstanding(s1) == Outstanding(s);
    SendEchoKeeps(s1);
  }

  lemma OtherLineKeeps(s: State)
    requires Inv(s) && s.pc.Reading? && s.fromChild != [] && !s.fromChild[0].Report?
    requires HandleLine(s).pc.Reading?
    ensures Inv(HandleLine(s))
  {
    hide EchoesIn, EchoesTo, Reports;
    var s', line, rest := HandleLine(s), s.fromChild[0], s.fromChild[1..];
    FirstLine(s.fromChild);
    assert rest != [] ==> rest[|rest| - 1] == s.fromChild[|s.fromChild| - 1];
    if line.EchoBack? {
      MatchExactly(s);
      assert Outstanding(s) == [line.arg] + Outstanding(s');
      assert forall i :: 0 <= i < |Outstanding(s')| ==> Outstanding(s')[i] == Outstanding(s)[i + 1];
      if rest == [] && s.toChild == [] {
        NothingUnderWay();
      }
    } else {
      assert Outstanding(s') == Outstanding(s);
    }
  }

  lemma NothingUnderWay()
    ensures EchoesIn([]) == [] && EchoesTo([]) == []
  {
  }

  lemma ReturnKeeps(s: State)
    requires Inv(s) && s.pc.Reading? && s.fromChild != [] && HandleLine(s).pc.Returned?
    ensures Inv(HandleLine(s))
  {
    hide EchoesIn, EchoesTo, Reports;
    FirstLine(s.fromChild);
    var s' := HandleLine(s);
    assert Outstanding(s) == [s.fromChild[0].arg] + Outstanding(s');
    assert forall i :: 0 <= i < |Outstanding(s')| ==> Outstanding(s')[i] == Outstanding(s)[i + 1];
  }

  lemma StepKeeps(s: State, s': State)
    requires Inv(s) && Step(s, s')
    ensures Inv(s')
  {
    hide EchoesIn, EchoesTo, Reports, Consecutive;
    if exists out :: ChildStep(s, out, s') {
      var out :| ChildStep(s, out, s');
      ChildKeeps(s, out, s');
    } else if s.pc.Outside? {
      if s' == Call(s) {
        CallKeeps(s);
      } else {
        var id :| s' == Command(s, id);
        CommandKeeps(s, id);
      }
    } else if s.pc.Reading? && s.fromChild != [] && s' == HandleLine(s) {
      if s.fromChild[0].Report? {
        ReportKeeps(s);
      } else if s'.pc.Reading? {
        OtherLineKeeps(s);
      } else {
        ReturnKeeps(s);
      }
    }
  }

  /** The child may have written lines before it was sent anything. */
  ghost predicate Initial(s: State) {
    NoEcho(s.fromChild) && s == State([], s.fromChild, Outside, s.count, false, [], [], [], Reports(s.fromChild),
                                      s.echoAt)
  }

  ghost predicate Run(t: seq<State>) {
    |t| > 0 && Initial(t[0]) && forall n {:trigger t[n]} :: 0 < n < |t| ==> Step(t[n - 1], t[n])
  }

  lemma {:induction false} RunKeeps(t: seq<State>, n: nat)
    requires Run(t) && n < |t|
    ensures Inv(t[n])
    decreases n
  {
    if n == 0 {
      QuietLines(t[0].fromChild);
    } else {
      hide Step, Inv;
      assert Step(t[n - 1], t[n]);
      RunKeeps(t, n - 1);
      StepKeeps(t[n - 1], t[n]);
    }
  }

  // ----- what a normal return means -----

  /** An echo line ends the loop exactly when a multiple of 65536 echoes is outstanding behind it. */
  lemma MatchExactly(s: State)
    requires Inv(s) && s.pc.Reading? && s.fromChild != [] && s.fromChild[0].EchoBack?
    ensures HandleLine(s).pc.Returned? <==> (|Outstanding(s)| - 1) % 65536 == 0
  {
    hide EchoesIn, EchoesTo;
    FirstLine(s.fromChild);
    var n := |Outstanding(s)|;
    assert Outstanding(s)[0] == s.fromChild[0].arg;
    assert s.fromChild[0].arg == (s.count - n) % WRAP;
    SameResidue(s.count - 1, s.count - n);
  }

  lemma SameResidue(a: nat, b: nat)
    requires b <= a
    ensures a % WRAP == b % WRAP <==> (a - b) % WRAP == 0
  {
    assert a == WRAP * (a / WRAP) + a % WRAP && b == WRAP * (b / WRAP) + b % WRAP;
    var d, q := a - b, a / WRAP - b / WRAP;
    assert d == WRAP * q + (a % WRAP - b % WRAP);
    if a % WRAP == b % WRAP {
      assert d == WRAP * q;
    }
  }

  /**
    Whenever sim_go_to_idle returns normally, with at most 65536 echoes outstanding: the child
    has executed everything it was sent, every well-formed report has been applied in order,
    both channels are empty, and the echo that was answered was sent after the last report.
   */
  lemma IdleMeansQuiet(t: seq<State>, n: nat)
    requires Run(t) && 0 < n < |t|
    requires t[n - 1].pc.Reading? && t[n - 1].fromChild != [] && t[n] == HandleLine(t[n - 1]) && t[n].pc.Returned?
    requires |Outstanding(t[n - 1])| <= 65536
    ensures t[n].executed == t[n].sent && t[n].applied == t[n].emitted
    ensures t[n].toChild == [] && t[n].fromChild == [] && t[n].echoAt == |t[n].applied|
  {
    RunKeeps(t, n - 1);
    Quiet(t[n - 1]);
  }

  lemma Quiet(s: State)
    requires Inv(s) && s.pc.Reading? && s.fromChild != [] && HandleLine(s).pc.Returned? && |Outstanding(s)| <= 65536
    ensures var s' := HandleLine(s);
            && s'.executed == s'.sent && s'.applied == s'.emitted
            && s'.toChild == [] && s'.fromChild == [] && s'.echoAt == |s'.applied|
  {
    MatchExactly(s);
    hide EchoesIn, EchoesTo, Reports;
    FirstLine(s.fromChild);
    assert |Outstanding(s)| == 1;
    if s.toChild != [] {
      LastCmdEcho(s.toChild);
    }
    LastEcho(s.fromChild);
    assert s.fromChild[1..] == [];
    assert Reports([]) == [] by { NoReports(); }
    assert s.executed + [] == s.executed && s.applied + [] == s.applied;
  }

  lemma NoReports()
    ensures Reports([]) == []
  {
  }
}
