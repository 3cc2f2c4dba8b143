/** Short runs from the start, with one worker, that reach each of the failures. */
module PingExamples {
  import opened Basics
  import opened PingTask
  import opened PingSystem
  import opened PingRuns
  import opened PingIndex
  import opened PingAttribution
  import opened PingProgress

  // ---- Requests and steps --------------------------------------------------------------------------

  /** A task as built for `n` servers. */
  function Blank(n: nat): Task {
    Task(false, 0, 0, n, 0, seq(n, _ => Ping("10.0.0.1", 5, Uninited, 0, 0, None, [])))
  }

  lemma BlankIsFresh(n: nat)
    ensures Fresh(Blank(n))
  {
    CountStarted(Blank(n).pings, 0);
  }

  function Ask(t: Ref, n: nat): Event {
    Request(t, t, Blank(n), 0)
  }

  /** The run leads from the start, with one worker, to `s`. */
  ghost predicate Reaches(es: seq<Event>, s: Sys) {
    Possible(Init(1), es) && Run(Init(1), es) == Some(s) && Inv(s) && |s.workers| == 1
  }

  /** The run is possible, and its last callback touches memory that is not there. */
  predicate Strays(es: seq<Event>) {
    Possible(Init(1), es) && Run(Init(1), es).None?
  }

  /** One more callback. */
  lemma Extend(es: seq<Event>, s: Sys, e: Event)
    requires Reaches(es, s) && Enabled(s, e)
    ensures Next(s, e).Some? ==> Reaches(es + [e], Next(s, e).value)
    ensures Overrun(s, e) ==> Strays(es + [e])
  {
    StepKeeps(s, e);
    assert [e][1..] == [];
    if Next(s, e).Some? {
      RunOne(s, e);
      WorkersKept(s, e);
    } else {
      assert Possible(s, [e]) && Run(s, [e]) == None;
    }
    RunAppend(Init(1), es, [e]);
  }

  lemma AskStep(es: seq<Event>, s: Sys, t: Ref, n: nat) returns (s': Sys)
    requires Reaches(es, s) && t !in s.heap && t !in s.seen
    ensures Reaches(es + [Ask(t, n)], s')
    ensures s'.heap == s.heap[t := Blank(n)] && s'.doingRequest == s.doingRequest[t := t]
    ensures s'.seen == s.seen + {t} && s'.workers == [s.workers[0].(queue := s.workers[0].queue + [t])]
  {
    BlankIsFresh(n);
    Extend(es, s, Ask(t, n));
    s' := Next(s, Ask(t, n)).value;
    assert s'.workers[0] == s.workers[0].(queue := s.workers[0].queue + [t]);
  }

  /** Two requests waiting for the one worker. */
  function Asks(m: nat, n: nat): seq<Event> {
    [Ask(1, m)] + [Ask(2, n)]
  }

  lemma OneAsked(n: nat) returns (s: Sys)
    ensures Reaches([Ask(1, n)], s) && s.workers == [Worker([1], map[], 0, {})] && s.seen == {1}
    ensures s.heap == map[1 := Blank(n)] && s.doingRequest == map[1 := 1]
  {
    InitKeeps(1);
    assert Reaches([], Init(1));
    s := AskStep([], Init(1), 1, n);
    assert [] + [Ask(1, n)] == [Ask(1, n)];
    assert s.workers[0] == Worker([1], map[], 0, {});
  }

  lemma TwoAsked(m: nat, n: nat) returns (s: Sys)
    ensures Reaches(Asks(m, n), s) && s.workers == [Worker([1, 2], map[], 0, {})]
    ensures s.heap == map[1 := Blank(m), 2 := Blank(n)] && s.doingRequest == map[1 := 1, 2 := 2]
  {
    var s1 := OneAsked(m);
    s := AskStep([Ask(1, m)], s1, 2, n);
    assert s.workers[0].queue == [1, 2];
  }

  // ---- Taking up, with every send going out ------------------------------------------------------------

  function AllSent(n: nat): seq<SendResult> {
    seq(n, _ => Sent(7))
  }

  function Take(n: nat): Event {
    Pop(0, 7, AllSent(n))
  }

  /** Active on worker 0 with all its pings waiting. */
  predicate AllWaiting(s: Sys, t: Ref, n: nat) {
    && t in s.heap && t in s.stage && s.stage[t] == Active(0) && s.heap[t].timestamp == 7
    && s.heap[t].totalCount == n == |s.heap[t].pings| && s.heap[t].doneCount == 0
    && (forall k :: 0 <= k < n ==> !Terminal(s.heap[t].pings[k]))
  }

  lemma WaitingArmed(s: Sys, t: Ref, n: nat, k: nat)
    requires Inv(s) && AllWaiting(s, t, n) && k < n
    ensures |s.workers| > 0 && (t, k) in s.workers[0].timers
  {
    TimersOwed(s, 0, t);
  }

  lemma AllPending(s: Sys, t: Ref, n: nat)
    requires Inv(s) && t in s.heap && t in s.stage && s.stage[t] == Active(0) && s.heap[t].timestamp == 7
    requires s.heap[t].totalCount == n == |s.heap[t].pings|
    requires forall k :: 0 <= k < n ==> !Terminal(s.heap[t].pings[k])
    ensures AllWaiting(s, t, n)
  {
    assert TaskInv(s, t);
    CountStarted(s.heap[t].pings, 0);
  }

  /** What taking up the head of the queue at time 7 leaves. */
  predicate TakenAtSeven(s: Sys, s': Sys, n: nat)
    requires |s.workers| == |s'.workers| == 1 && s.workers[0].queue != []
  {
    var t := s.workers[0].queue[0];
    && AllWaiting(s', t, n)
    && s'.workers[0].queue == s.workers[0].queue[1..] && s'.workers[0].doingCount == s.workers[0].doingCount + 1
    && s'.workers[0].doingMap
         == (if 7 in s.workers[0].doingMap then s.workers[0].doingMap else s.workers[0].doingMap[7 := t])
    && s'.doingRequest == s.doingRequest
    && (forall u :: u in s.heap && u != t ==> u in s'.heap && s'.heap[u] == s.heap[u])
    && (forall u :: u in s.stage && u != t ==> u in s'.stage && s'.stage[u] == s.stage[u])
  }

  lemma TakeStep(es: seq<Event>, s: Sys, n: nat) returns (s': Sys)
    requires Reaches(es, s) && s.workers[0].queue != [] && s.workers[0].doingCount < 1000 && n > 0
    requires s.workers[0].queue[0] in s.heap && s.heap[s.workers[0].queue[0]] == Blank(n)
    ensures Reaches(es + [Take(n)], s') && Enabled(s, Take(n)) && Next(s, Take(n)) == Some(s')
    ensures TakenAtSeven(s, s', n)
  {
    Extend(es, s, Take(n));
    TakeEffect(s, n);
    s' := Next(s, Take(n)).value;
  }

  lemma TakeEffect(s: Sys, n: nat)
    requires Inv(s) && |s.workers| == 1 && s.workers[0].queue != [] && s.workers[0].doingCount < 1000 && n > 0
    requires s.workers[0].queue[0] in s.heap && s.heap[s.workers[0].queue[0]] == Blank(n)
    ensures Enabled(s, Take(n)) && Next(s, Take(n)).Some? && |Next(s, Take(n)).value.workers| == 1
    ensures TakenAtSeven(s, Next(s, Take(n)).value, n)
  {
    assert AllSent(n)[0].Sent?;
    Taken(s, 0, 7, AllSent(n));
    TakenPings(s, 0, 7, AllSent(n));
    AcceptedTask(s, 0, 7, AllSent(n));
    AllPending(Next(s, Take(n)).value, s.workers[0].queue[0], n);
  }

  lemma TimerStep(es: seq<Event>, s: Sys, t: Ref, i: nat) returns (s': Sys)
    requires Reaches(es, s) && (t, i) in s.workers[0].timers
    ensures Reaches(es + [Timer(0, t, i)], s') && Next(s, Timer(0, t, i)) == Some(s')
  {
    TimerPays(s, 0, t, i);
    Extend(es, s, Timer(0, t, i));
    s' := Next(s, Timer(0, t, i)).value;
  }

  // ---- One index too many ----------------------------------------------------------------------------

  /** One request with one server, taken up and sent: a reply with index 1 reads past the array. */
  lemma OverrunReached()
    ensures Strays([Ask(1, 1)] + [Take(1)] + [Receive(0, 7, 1, 8)])
  {
    var s := OneAsked(1);
    var s' := TakeStep([Ask(1, 1)], s, 1);
    Extend([Ask(1, 1)] + [Take(1)], s', Receive(0, 7, 1, 8));
  }

  // ---- One timestamp, two active tasks ------------------------------------------------------------------

  /** Two requests, with one and with two servers, taken up within one tick of the clock. */
  function SharedRun(): seq<Event> {
    Asks(1, 2) + [Take(1)] + [Take(2)]
  }

  /** Both are active under one timestamp, which leads to the first. */
  predicate SharedState(s: Sys) {
    && |s.workers| == 1 && AllWaiting(s, 1, 1) && AllWaiting(s, 2, 2)
    && s.workers[0].doingMap == map[7 := 1] && s.workers[0].doingCount == 2
    && s.doingRequest == map[1 := 1, 2 := 2]
  }

  lemma SharedStampReached() returns (s: Sys)
    ensures Reaches(SharedRun(), s) && SharedState(s)
  {
    var s0 := TwoAsked(1, 2);
    var s1 := TakeStep(Asks(1, 2), s0, 1);
    s := TakeStep(Asks(1, 2) + [Take(1)], s1, 2);
  }

  /** Then the second task's own awaited reply, index 1, reads past the array of the first. */
  lemma HonestOverrunReached() returns (s: Sys)
    ensures Reaches(SharedRun(), s) && (2, 1) in s.workers[0].timers
    ensures Strays(SharedRun() + [Receive(0, 7, 1, 8)])
  {
    s := SharedStampReached();
    WaitingArmed(s, 2, 2, 1);
    Extend(SharedRun(), s, Receive(0, 7, 1, 8));
  }

  /** Or a reply of index 0, which the second task awaits as well as the first, ends the first's ping. */
  lemma WrongCreditReached() returns (s: Sys)
    ensures Reaches(SharedRun() + [Receive(0, 7, 0, 8)], s)
    ensures 1 in s.heap && |s.heap[1].pings| == 1 && s.heap[1].pings[0].status == Success
    ensures AllWaiting(s, 2, 2)
  {
    var s0 := SharedStampReached();
    ShadowedReply(s0, 0, 1, 2, 0, 8);
    ReplyKeepsStage(s0, 8);
    Extend(SharedRun(), s0, Receive(0, 7, 0, 8));
    s := Next(s0, Receive(0, 7, 0, 8)).value;
  }

  lemma ReplyKeepsStage(s: Sys, now: int)
    requires Inv(s) && SharedState(s) && Next(s, Receive(0, 7, 0, now)).Some?
    ensures 2 in Next(s, Receive(0, 7, 0, now)).value.stage
    ensures Next(s, Receive(0, 7, 0, now)).value.stage[2] == s.stage[2]
  {
  }

  /** Or the first completes, and the second, now the only active task, so that no two share a
      timestamp, is not in the index. */
  lemma LostTaskReached() returns (s: Sys)
    ensures Reaches(SharedRun() + [Timer(0, 1, 0)], s)
    ensures AllWaiting(s, 2, 2) && ActiveSet(s.stage, 0) == {2}
    ensures s.workers[0].doingMap == map[] && s.workers[0].doingCount == 1 && !Indexed(s, 0)
  {
    var s0 := SharedStampReached();
    WaitingArmed(s0, 1, 1, 0);
    s := TimerStep(SharedRun(), s0, 1, 0);
    FirstLeaves(s0, s);
    OnlyOneLeft(s, 2);
  }

  lemma FirstLeaves(s: Sys, s': Sys)
    requires Inv(s) && Inv(s') && SharedState(s) && |s'.workers| == 1
    requires (1, 0) in s.workers[0].timers && Next(s, Timer(0, 1, 0)) == Some(s')
    ensures AllWaiting(s', 2, 2) && 2 in ActiveSet(s'.stage, 0)
    ensures s'.workers[0].doingMap == map[] && s'.workers[0].doingCount == 1
  {
    TimerPays(s, 0, 1, 0);
    SharedStampLosesTask(s, 0, 1, 2, 0);
    CompletionUnmaps(s, Timer(0, 1, 0), 0, 1);
  }

  lemma OnlyOneLeft(s: Sys, t: Ref)
    requires Inv(s) && |s.workers| == 1 && t in ActiveSet(s.stage, 0) && s.workers[0].doingCount == 1
    ensures ActiveSet(s.stage, 0) == {t}
  {
    IndexSize(s, 0);
    SubsetSize({t}, ActiveSet(s.stage, 0));
  }

  // ---- One timestamp, one task after the other -------------------------------------------------------

  /** Two requests, with two and with one server; the first is taken up, times out and leaves. */
  function FirstDone(): seq<Event> {
    Asks(2, 1) + [Take(2)] + [Timer(0, 1, 0)] + [Timer(0, 1, 1)]
  }

  /** Then the second is taken up under the same timestamp, which by now is in the index no more. */
  function ReusedRun(): seq<Event> {
    FirstDone() + [Take(1)]
  }

  /** The second waits, the first is handed off. */
  predicate FirstIsDone(s: Sys) {
    && |s.workers| == 1 && s.workers[0].queue == [2] && s.workers[0].doingMap == map[]
    && s.workers[0].doingCount == 0 && 2 in s.heap && s.heap[2] == Blank(1)
  }

  lemma FirstDoneReached() returns (s: Sys)
    ensures Reaches(FirstDone(), s) && FirstIsDone(s)
    ensures Possible(Init(1), FirstDone()) && Packet(0, 7, 1, 1, 1) in SentOver(Init(1), FirstDone())
  {
    var s0 := TwoAsked(2, 1);
    var s1 := TakeStep(Asks(2, 1), s0, 2);
    SecondPingSent(s0);
    SentOverLast(Init(1), Asks(2, 1), Take(2));
    s := TimersRunOut(Asks(2, 1) + [Take(2)], s1);
  }

  lemma SecondPingSent(s: Sys)
    requires Inv(s) && s.workers == [Worker([1, 2], map[], 0, {})]
    requires 1 in s.heap && s.heap[1] == Blank(2) && 1 in s.doingRequest && s.doingRequest[1] == 1
    ensures Packet(0, 7, 1, 1, 1) in SentBy(s, Take(2))
  {
    assert AllSent(2)[1].Sent?;
  }

  lemma TimersRunOut(es: seq<Event>, s: Sys) returns (s': Sys)
    requires Reaches(es, s) && AllWaiting(s, 1, 2) && s.workers[0].queue == [2]
    requires s.workers[0].doingMap == map[7 := 1] && s.workers[0].doingCount == 1
    requires 2 in s.heap && s.heap[2] == Blank(1)
    ensures Reaches(es + [Timer(0, 1, 0)] + [Timer(0, 1, 1)], s') && FirstIsDone(s')
    ensures Possible(Init(1), es) && Possible(Init(1), es + [Timer(0, 1, 0)] + [Timer(0, 1, 1)])
    ensures SentOver(Init(1), es) <= SentOver(Init(1), es + [Timer(0, 1, 0)] + [Timer(0, 1, 1)])
  {
    WaitingArmed(s, 1, 2, 0);
    var s1 := TimerStep(es, s, 1, 0);
    AfterFirstTimer(s, s1);
    s' := TimerStep(es + [Timer(0, 1, 0)], s1, 1, 1);
    AfterLastTimer(s1, s');
    SentOverLast(Init(1), es, Timer(0, 1, 0));
    SentOverLast(Init(1), es + [Timer(0, 1, 0)], Timer(0, 1, 1));
  }

  /** The first task of two pings after its first timer. */
  predicate OneToGo(s: Sys) {
    && |s.workers| == 1 && s.workers[0].queue == [2] && s.workers[0].doingMap == map[7 := 1]
    && s.workers[0].doingCount == 1 && (1, 1) in s.workers[0].timers
    && 1 in s.heap && 1 in s.stage && s.stage[1] == Active(0) && s.heap[1].timestamp == 7
    && s.heap[1].doneCount + 1 == s.heap[1].totalCount && 2 in s.heap && s.heap[2] == Blank(1)
  }

  lemma AfterFirstTimer(s: Sys, s': Sys)
    requires Inv(s) && Inv(s') && |s.workers| == |s'.workers| == 1 && AllWaiting(s, 1, 2)
    requires s.workers[0].queue == [2] && s.workers[0].doingMap == map[7 := 1] && s.workers[0].doingCount == 1
    requires 2 in s.heap && s.heap[2] == Blank(1)
    requires Enabled(s, Timer(0, 1, 0)) && Next(s, Timer(0, 1, 0)) == Some(s')
    ensures OneToGo(s')
  {
    TimerKeeps(s, 0, 1, 0);
    TimedTask(s, 0, 1, 0);
    TimeoutKeeps(LocalOf(s, 0, 1), 0, 0);
    TimerPays(s, 0, 1, 0);
    TimersOwed(s', 0, 1);
  }

  lemma AfterLastTimer(s: Sys, s': Sys)
    requires Inv(s) && OneToGo(s) && Next(s, Timer(0, 1, 1)) == Some(s')
    ensures FirstIsDone(s')
  {
    TimerPays(s, 0, 1, 1);
    CompletionUnmaps(s, Timer(0, 1, 1), 0, 1);
    TimerKeeps(s, 0, 1, 1);
  }

  /** Everything sent over a run. */
  function SentOver(s: Sys, es: seq<Event>): set<Packet>
    requires Possible(s, es)
    decreases |es|
  {
    if es == [] then {}
    else SentBy(s, es[0]) + if Next(s, es[0]).Some? then SentOver(Next(s, es[0]).value, es[1..]) else {}
  }

  lemma {:induction false} SentOverLast(s: Sys, es: seq<Event>, e: Event)
    requires Possible(s, es) && Run(s, es).Some? && Enabled(Run(s, es).value, e)
    ensures Possible(s, es + [e])
    ensures SentOver(s, es) + SentBy(Run(s, es).value, e) <= SentOver(s, es + [e])
    decreases |es|
  {
    if es == [] {
      assert [] + [e] == [e];
    } else {
      assert (es + [e])[1..] == es[1..] + [e];
      SentOverLast(Next(s, es[0]).value, es[1..], e);
    }
  }

  /** A run without replies is honest, and so is one more reply to a packet sent on it. */
  lemma {:induction false} OneHonestReply(s: Sys, es: seq<Event>, e: Event, sent: set<Packet>, p: Packet)
    requires Possible(s, es) && Run(s, es).Some? && forall k :: 0 <= k < |es| ==> !es[k].Receive?
    requires p in sent + SentOver(s, es) && p.w < |Run(s, es).value.workers|
    requires e.Receive? && e.w == p.w && e.timestamp == p.timestamp && e.index == p.index
    ensures Possible(s, es + [e]) && Honest(s, es + [e], sent)
    decreases |es|
  {
    if es == [] {
      assert [] + [e] == [e] && [e][1..] == [];
    } else {
      assert (es + [e])[1..] == es[1..] + [e];
      OneHonestReply(Next(s, es[0]).value, es[1..], e, sent + SentBy(s, es[0]), p);
    }
  }

  /** A late reply of the first task's, honest as can be, then reads past the array of the second. No
      timestamp was taken up while it was in use, every active task is in the index, and every reply to
      an awaited ping would be credited to it: a timestamp that was used before is enough. */
  lemma StampReusedReached() returns (before: Sys, s: Sys)
    ensures Reaches(FirstDone(), before) && before.workers[0].doingMap == map[]
    ensures Reaches(ReusedRun(), s) && Indexed(s, 0) && AllCredited(s, 0)
    ensures Strays(ReusedRun() + [Receive(0, 7, 1, 8)])
    ensures Honest(Init(1), ReusedRun() + [Receive(0, 7, 1, 8)], {})
    ensures !Unspoilt(Init(1), ReusedRun() + [Receive(0, 7, 1, 8)], {})
  {
    before := FirstDoneReached();
    s := TakeStep(FirstDone(), before, 1);
    IndexedAgain(before, s);
    Extend(ReusedRun(), s, Receive(0, 7, 1, 8));
    SentOverLast(Init(1), FirstDone(), Take(1));
    NoReplyYet();
    OneHonestReply(Init(1), ReusedRun(), Receive(0, 7, 1, 8), {}, Packet(0, 7, 1, 1, 1));
    AttributedRuns(1, ReusedRun() + [Receive(0, 7, 1, 8)]);
  }

  lemma NoReplyYet()
    ensures forall k :: 0 <= k < |ReusedRun()| ==> !ReusedRun()[k].Receive?
  {
  }

  lemma IndexedAgain(s: Sys, s': Sys)
    requires Inv(s) && Inv(s') && FirstIsDone(s) && |s'.workers| == 1
    requires Enabled(s, Take(1)) && Next(s, Take(1)) == Some(s')
    ensures Indexed(s', 0) && AllCredited(s', 0)
  {
    IndexSize(s, 0);
    assert ActiveSet(s.stage, 0) == {};
    IndexedStep(s, Take(1), 0);
    CreditedIffFound(s', 0);
  }

  // ---- No servers -------------------------------------------------------------------------------------

  /** One request without servers, taken up: it is never answered. */
  lemma EmptyReached(more: seq<Event>) returns (s: Sys)
    ensures Reaches([Ask(1, 0)] + [Take(0)], s) && Stuck(s, 0, 1, 1)
    ensures Possible(s, more) && Run(s, more).Some? ==> !Answered(Run(s, more).value, 1)
  {
    var s0 := OneAsked(0);
    EmptyTakenUp(s0);
    Extend([Ask(1, 0)], s0, Take(0));
    s := Next(s0, Take(0)).value;
    if Possible(s, more) && Run(s, more).Some? {
      StuckForever(s, more, 0, 1, 1);
    }
  }

  lemma EmptyTakenUp(s: Sys)
    requires Inv(s) && s.workers == [Worker([1], map[], 0, {})] && s.heap == map[1 := Blank(0)]
    requires s.doingRequest == map[1 := 1]
    ensures Enabled(s, Take(0)) && Next(s, Take(0)).Some? && Stuck(Next(s, Take(0)).value, 0, 1, 1)
  {
    AcceptMaps(s, 0, 7, AllSent(0));
    DoTaskSends(LocalOf(Accept(s, 0, 7), 0, 1), 0, 0, AllSent(0));
  }
}
