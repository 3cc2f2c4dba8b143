/** Progress: armed timers are what is still owed, every crediting event pays one off, and a request
    whose task has a ping can always be brought to its answer. */
module PingProgress {
  import opened Basics
  import opened PingTask
  import opened PingSystem
  import opened PingRuns
  import opened PingIndex

  // ---- Armed timers --------------------------------------------------------------------------------

  function Owed(heap: map<Ref, Task>, ts: seq<Ref>): int
    requires forall k :: 0 <= k < |ts| ==> ts[k] in heap
  {
    if ts == [] then 0
    else heap[ts[0]].totalCount - heap[ts[0]].doneCount + Owed(heap, ts[1..])
  }

  function Armed(timers: set<(Ref, nat)>, ts: seq<Ref>): set<(Ref, nat)> {
    set p | p in timers && p.0 in ts
  }

  lemma {:induction false} PairCount(t: Ref, ids: set<nat>, pairs: set<(Ref, nat)>)
    requires forall p :: p in pairs <==> p.0 == t && p.1 in ids
    ensures |pairs| == |ids|
    decreases |ids|
  {
    if ids != {} {
      var i :| i in ids;
      assert (t, i) in pairs;
      PairCount(t, ids - {i}, pairs - {(t, i)});
    }
  }

  lemma ArmedSplit(timers: set<(Ref, nat)>, ts: seq<Ref>)
    requires NoDup(ts) && ts != []
    ensures |Armed(timers, ts)| == |Armed(timers, ts[1..])| + |TimersOf(timers, ts[0])|
  {
    var own := set p | p in timers && p.0 == ts[0];
    assert Armed(timers, ts) == own + Armed(timers, ts[1..]);
    assert own !! Armed(timers, ts[1..]);
    forall p: (Ref, nat) ensures p in own <==> p.0 == ts[0] && p.1 in TimersOf(timers, ts[0]) {
      if p.0 == ts[0] && p.1 in TimersOf(timers, ts[0]) {
        var q :| q in timers && q.0 == ts[0] && q.1 == p.1;
        assert q == p;
      }
    }
    PairCount(ts[0], TimersOf(timers, ts[0]), own);
  }

  lemma {:induction false} OwedBy(s: Sys, w: nat, ts: seq<Ref>)
    requires Inv(s) && w < |s.workers| && NoDup(ts)
    requires forall k :: 0 <= k < |ts| ==> ts[k] in s.heap && s.stage[ts[k]] == Active(w)
    ensures |Armed(s.workers[w].timers, ts)| == Owed(s.heap, ts)
    decreases |ts|
  {
    if ts == [] {
      assert Armed(s.workers[w].timers, ts) == {};
    } else {
      OwedBy(s, w, ts[1..]);
      TimersOwed(s, w, ts[0]);
      ArmedSplit(s.workers[w].timers, ts);
    }
  }

  lemma ArmedForActive(s: Sys, w: nat)
    requires Inv(s) && w < |s.workers|
    ensures forall p :: p in s.workers[w].timers ==> p.0 in ActiveSet(s.stage, w)
  {
    assert WorkerInv(s, w);
  }

  lemma AllArmed(timers: set<(Ref, nat)>, tasks: set<Ref>, ts: seq<Ref>)
    requires forall p :: p in timers ==> p.0 in tasks
    requires forall t :: t in tasks ==> t in ts
    ensures Armed(timers, ts) == timers
  {
    forall p | p in timers ensures p in Armed(timers, ts) {
      var t := p.0;
      assert t in tasks;
    }
  }

  /** The timers armed on a worker are the pings its active tasks still wait for, all told. */
  lemma TimersAddUp(s: Sys, w: nat, ts: seq<Ref>)
    requires Inv(s) && w < |s.workers| && NoDup(ts)
    requires forall k :: 0 <= k < |ts| ==> ts[k] in s.heap && s.stage[ts[k]] == Active(w)
    requires forall t :: t in ActiveSet(s.stage, w) ==> t in ts
    ensures |s.workers[w].timers| == Owed(s.heap, ts)
  {
    OwedBy(s, w, ts);
    ArmedForActive(s, w);
    AllArmed(s.workers[w].timers, ActiveSet(s.stage, w), ts);
  }

  /** A timer that fires pays off one ping, and the last one hands the task off. */
  lemma TimerPays(s: Sys, w: nat, t: Ref, i: nat)
    requires Inv(s) && w < |s.workers| && (t, i) in s.workers[w].timers
    ensures Next(s, Timer(w, t, i)).Some? && t in s.heap && s.stage[t] == Active(w)
    ensures var s' := Next(s, Timer(w, t, i)).value;
      && Inv(s') && t in s'.heap && s'.doingRequest == s.doingRequest
      && s'.heap[t].totalCount == s.heap[t].totalCount
      && s'.heap[t].doneCount == s.heap[t].doneCount + 1
      && s'.stage[t] == (if s.heap[t].doneCount + 1 == s.heap[t].totalCount then Answering else Active(w))
      && (s'.stage[t] == Answering ==> s'.responses == s.responses + [t])
  {
    TimerKeeps(s, w, t, i);
    TimedTask(s, w, t, i);
    TimeoutKeeps(LocalOf(s, w, t), i, w);
    assert seq(1, _ => t) == [t];
  }

  // ---- To the answer -------------------------------------------------------------------------------

  lemma PayOne(s: Sys, w: nat, t: Ref) returns (i: nat)
    requires Inv(s) && t in s.heap && s.stage[t] == Active(w) && s.heap[t].totalCount > 0
    ensures Enabled(s, Timer(w, t, i)) && Next(s, Timer(w, t, i)).Some?
    ensures var s' := Next(s, Timer(w, t, i)).value;
      && Inv(s') && t in s'.heap && t in s'.stage && s'.doingRequest == s.doingRequest
      && s'.heap[t].totalCount == s.heap[t].totalCount && s'.heap[t].doneCount == s.heap[t].doneCount + 1
      && (if s'.heap[t].doneCount == s'.heap[t].totalCount then s'.stage[t] == Answering && t in s'.responses
          else s'.stage[t] == Active(w))
    ensures s.heap[t].doneCount < s.heap[t].totalCount
  {
    i := SomeTimer(s, w, t);
    TimerPays(s, w, t, i);
    var s' := Next(s, Timer(w, t, i)).value;
    if s'.stage[t] == Answering {
      assert s'.responses[|s.responses|] == t;
    }
  }

  /** These timers of the task bring it to the response queue. */
  ghost predicate HandsOff(s: Sys, es: seq<Event>, t: Ref) {
    && (forall k :: 0 <= k < |es| ==> es[k].Timer? && es[k].t == t)
    && Possible(s, es) && Run(s, es).Some?
    && Inv(Run(s, es).value) && t in Run(s, es).value.responses && Run(s, es).value.doingRequest == s.doingRequest
  }

  lemma HandsOffLater(s: Sys, e: Event, es: seq<Event>, t: Ref)
    requires e.Timer? && e.t == t && Enabled(s, e) && Next(s, e).Some?
    requires Next(s, e).value.doingRequest == s.doingRequest && HandsOff(Next(s, e).value, es, t)
    ensures HandsOff(s, [e] + es, t)
  {
    RunCons(s, e, es);
  }

  lemma {:induction false} TimersHandOff(s: Sys, w: nat, t: Ref) returns (es: seq<Event>)
    requires Inv(s) && t in s.heap && s.stage[t] == Active(w) && s.heap[t].totalCount > 0
    ensures |es| == s.heap[t].totalCount - s.heap[t].doneCount && HandsOff(s, es, t)
    decreases s.heap[t].totalCount - s.heap[t].doneCount
  {
    var i := PayOne(s, w, t);
    var s' := Next(s, Timer(w, t, i)).value;
    var rest: seq<Event> := [];
    if s'.stage[t] != Answering {
      rest := TimersHandOff(s', w, t);
    }
    HandsOffLater(s, Timer(w, t, i), rest, t);
    es := [Timer(w, t, i)] + rest;
  }

  lemma {:induction false} ResponsesReach(s: Sys, k: nat) returns (es: seq<Event>)
    requires Inv(s) && k < |s.responses| && s.responses[k] in s.doingRequest
    ensures |es| == k + 1 && forall j :: 0 <= j < |es| ==> es[j] == Respond
    ensures Possible(s, es) && Run(s, es).Some?
    ensures Answered(Run(s, es).value, s.doingRequest[s.responses[k]])
    ensures s.responses[k] !in Run(s, es).value.heap
    decreases k
  {
    RespondKeeps(s);
    var s' := Next(s, Respond).value;
    var rest: seq<Event> := [];
    if k == 0 {
      assert s'.answers[|s.answers|].req == s.doingRequest[s.responses[0]];
    } else {
      assert s'.responses[k - 1] == s.responses[k] != s.responses[0];
      rest := ResponsesReach(s', k - 1);
    }
    RunCons(s, Respond, rest);
    es := [Respond] + rest;
  }

  /** The task's own timers, and the master's callbacks. */
  predicate OwnEvents(es: seq<Event>, t: Ref) {
    forall k :: 0 <= k < |es| ==> (es[k].Timer? && es[k].t == t) || es[k] == Respond
  }

  lemma AnswerFromResponses(s: Sys, t: Ref) returns (es: seq<Event>)
    requires Inv(s) && t in s.responses
    ensures t in s.doingRequest && OwnEvents(es, t) && Possible(s, es) && Run(s, es).Some?
    ensures Answered(Run(s, es).value, s.doingRequest[t])
  {
    var k :| 0 <= k < |s.responses| && s.responses[k] == t;
    es := ResponsesReach(s, k);
  }

  lemma ActiveAnswer(s: Sys, w: nat, t: Ref) returns (es: seq<Event>)
    requires Inv(s) && t in s.heap && s.stage[t] == Active(w) && s.heap[t].totalCount > 0
    ensures t in s.doingRequest && OwnEvents(es, t) && Possible(s, es) && Run(s, es).Some?
    ensures Answered(Run(s, es).value, s.doingRequest[t])
  {
    var timers := TimersHandOff(s, w, t);
    var responds := AnswerFromResponses(Run(s, timers).value, t);
    RunAppend(s, timers, responds);
    es := timers + responds;
  }

  // ---- From the queue ---------------------------------------------------------------------------------

  /** What the environment makes of the worker's callbacks, one after the other: the clock, and what
      each send comes to. */
  datatype Luck = Luck(clock: nat -> int, send: (nat, nat) -> SendResult)

  function Sends(luck: Luck, turn: nat, n: nat): (results: seq<SendResult>)
    ensures |results| == n
  {
    seq(n, i requires 0 <= i < n => luck.send(turn, i))
  }

  /** Worker `w` taking up tasks under that luck, then the task's own events. */
  ghost predicate WithLuck(es: seq<Event>, w: nat, t: Ref, luck: Luck, turn: nat) {
    exists m: nat :: m <= |es| && OwnEvents(es[m..], t)
      && forall k :: 0 <= k < m ==>
           es[k].Pop? && es[k].w == w && es[k].now == luck.clock(turn + k)
           && es[k].results == Sends(luck, turn + k, |es[k].results|)
  }

  lemma OwnIsWithLuck(es: seq<Event>, w: nat, t: Ref, luck: Luck, turn: nat)
    requires OwnEvents(es, t)
    ensures WithLuck(es, w, t, luck, turn)
  {
    assert es[0..] == es;
  }

  lemma OneMorePop(e: Event, es: seq<Event>, w: nat, t: Ref, luck: Luck, turn: nat)
    requires e.Pop? && e.w == w && e.now == luck.clock(turn) && e.results == Sends(luck, turn, |e.results|)
    requires WithLuck(es, w, t, luck, turn + 1)
    ensures WithLuck([e] + es, w, t, luck, turn)
  {
    var m: nat :| m <= |es| && OwnEvents(es[m..], t)
      && forall k :: 0 <= k < m ==>
           es[k].Pop? && es[k].w == w && es[k].now == luck.clock(turn + 1 + k)
           && es[k].results == Sends(luck, turn + 1 + k, |es[k].results|);
    var all := [e] + es;
    assert all[m + 1..] == es[m..];
    forall k | 0 <= k < m + 1
      ensures all[k].Pop? && all[k].w == w && all[k].now == luck.clock(turn + k)
              && all[k].results == Sends(luck, turn + k, |all[k].results|)
    {
      if k > 0 {
        assert all[k] == es[k - 1];
        assert turn + 1 + (k - 1) == turn + k;
      }
    }
  }

  /** Taking up the head of a queue touches no other task, and leaves the head active with its pings,
      or on its way to the master. */
  lemma PopOne(s: Sys, w: nat, now: int, results: seq<SendResult>)
    requires Inv(s) && Enabled(s, Pop(w, now, results)) && s.workers[w].queue != []
    ensures s.workers[w].queue[0] in s.heap && Next(s, Pop(w, now, results)).Some?
    ensures var t := s.workers[w].queue[0];
      var s' := Next(s, Pop(w, now, results)).value;
      && Inv(s') && |s'.workers| == |s.workers| && s'.workers[w].queue == s.workers[w].queue[1..]
      && s'.doingRequest == s.doingRequest && s'.heap.Keys == s.heap.Keys && s'.stage.Keys == s.stage.Keys
      && (forall u :: u in s.heap && u != t ==> s'.heap[u] == s.heap[u])
      && (forall u :: u in s.stage && u != t ==> s'.stage[u] == s.stage[u])
      && s'.heap[t].totalCount == s.heap[t].totalCount
      && (s'.stage[t] == Active(w) || s'.stage[t] == Answering)
  {
    StepKeeps(s, Pop(w, now, results));
    TakeUpView(s, w, now, results);
    var t := s.workers[w].queue[0];
    if s.workers[w].doingCount < DOING_TASK_CAPACITY {
      QueuedTask(s, w, 0);
      DoTaskSends(LocalOf(Accept(s, w, now), w, t), 0, w, results);
    }
  }

  lemma {:induction false} QueuedAnswer(s: Sys, w: nat, k: nat, luck: Luck, turn: nat) returns (es: seq<Event>)
    requires Inv(s) && w < |s.workers| && k < |s.workers[w].queue|
    requires s.workers[w].queue[k] in s.heap && s.heap[s.workers[w].queue[k]].totalCount > 0
    ensures var t := s.workers[w].queue[k];
      && t in s.doingRequest && WithLuck(es, w, t, luck, turn) && Possible(s, es) && Run(s, es).Some?
      && Answered(Run(s, es).value, s.doingRequest[t])
    decreases k
  {
    QueuedTask(s, w, 0);
    QueuedTask(s, w, k);
    QueueDistinct(s, w, k);
    var t, head := s.workers[w].queue[k], s.workers[w].queue[0];
    var e := Pop(w, luck.clock(turn), Sends(luck, turn, |s.heap[head].pings|));
    PopOne(s, w, e.now, e.results);
    var s' := Next(s, e).value;
    var rest;
    if k > 0 {
      rest := QueuedAnswer(s', w, k - 1, luck, turn + 1);
    } else {
      rest := TakenAnswer(s', w, t);
      OwnIsWithLuck(rest, w, t, luck, turn + 1);
    }
    PopFirst(s, e, rest, w, t, luck, turn, s.doingRequest[t]);
    es := [e] + rest;
  }

  lemma PopFirst(s: Sys, e: Event, rest: seq<Event>, w: nat, t: Ref, luck: Luck, turn: nat, req: Req)
    requires Enabled(s, e) && Next(s, e).Some? && Possible(Next(s, e).value, rest)
    requires e.Pop? && e.w == w && e.now == luck.clock(turn) && e.results == Sends(luck, turn, |e.results|)
    requires WithLuck(rest, w, t, luck, turn + 1)
    requires Run(Next(s, e).value, rest).Some? && Answered(Run(Next(s, e).value, rest).value, req)
    ensures WithLuck([e] + rest, w, t, luck, turn) && Possible(s, [e] + rest) && Run(s, [e] + rest).Some?
    ensures Answered(Run(s, [e] + rest).value, req)
  {
    OneMorePop(e, rest, w, t, luck, turn);
    RunCons(s, e, rest);
  }

  lemma TakenAnswer(s: Sys, w: nat, t: Ref) returns (es: seq<Event>)
    requires Inv(s) && t in s.heap && t in s.stage && s.heap[t].totalCount > 0
    requires s.stage[t] == Active(w) || s.stage[t] == Answering
    ensures t in s.doingRequest && OwnEvents(es, t) && Possible(s, es) && Run(s, es).Some?
    ensures Answered(Run(s, es).value, s.doingRequest[t])
  {
    if s.stage[t] == Answering {
      assert TaskInv(s, t);
      es := AnswerFromResponses(s, t);
    } else {
      es := ActiveAnswer(s, w, t);
    }
  }

  /** The worker a task waits at or is active on. */
  function At(g: Stage): nat {
    match g
    case Queued(w) => w
    case Active(w) => w
    case Answering => 0
  }

  /** From any reachable state, any waiting request whose task has a server, or is already on its way
      back, gets its answer by its worker taking up the tasks queued before it, whatever the clock reads
      and the sends come to, by its own timers, and by the master's callbacks. */
  lemma CanAnswer(s: Sys, t: Ref, luck: Luck)
    requires Inv(s) && t in s.heap && (s.heap[t].totalCount > 0 || s.stage[t] == Answering)
    ensures t in s.stage && t in s.doingRequest
    ensures exists es :: WithLuck(es, At(s.stage[t]), t, luck, 0) && Possible(s, es) && Run(s, es).Some?
                         && Answered(Run(s, es).value, s.doingRequest[t])
  {
    assert TaskInv(s, t);
    match s.stage[t]
    case Queued(w) =>
      var k :| 0 <= k < |s.workers[w].queue| && s.workers[w].queue[k] == t;
      var es := QueuedAnswer(s, w, k, luck, 0);
    case Active(w) =>
      var es := ActiveAnswer(s, w, t);
      OwnIsWithLuck(es, w, t, luck, 0);
    case Answering =>
      var es := AnswerFromResponses(s, t);
      OwnIsWithLuck(es, 0, t, luck, 0);
  }

  // ---- No servers, no answer ---------------------------------------------------------------------------

  predicate Stuck(s: Sys, w: nat, t: Ref, req: Req) {
    && t in s.heap && t in s.stage && s.stage[t] == Active(w) && s.heap[t].totalCount == 0
    && t in s.doingRequest && s.doingRequest[t] == req
  }

  lemma StuckWork(s: Sys, e: Event, w: nat, t: Ref, req: Req)
    requires Inv(s) && Stuck(s, w, t, req) && Enabled(s, e) && Next(s, e).Some? && (e.Receive? || e.Timer?)
    ensures Stuck(Next(s, e).value, w, t, req)
  {
    var changed, v, u, l := WorkShape(s, e);
    if changed && u == t {
      assert l.sent == 1 ==> Complete(l.task);
    }
  }

  lemma StuckStep(s: Sys, e: Event, w: nat, t: Ref, req: Req)
    requires Inv(s) && Stuck(s, w, t, req) && Enabled(s, e) && Next(s, e).Some?
    ensures Stuck(Next(s, e).value, w, t, req)
  {
    match e
    case Request(_, _, _, _) =>
    case Pop(v, now, results) =>
      if s.workers[v].queue != [] {
        QueuedTask(s, v, 0);
      }
    case Receive(_, _, _, _) => StuckWork(s, e, w, t, req);
    case Timer(_, _, _) => StuckWork(s, e, w, t, req);
    case Respond =>
  }

  lemma {:induction false} StuckForever(s: Sys, es: seq<Event>, w: nat, t: Ref, req: Req)
    requires Inv(s) && Stuck(s, w, t, req) && Possible(s, es) && Run(s, es).Some?
    ensures Stuck(Run(s, es).value, w, t, req) && !Answered(Run(s, es).value, req)
    decreases |es|
  {
    if es != [] {
      StepKeeps(s, es[0]);
      StuckStep(s, es[0], w, t, req);
      StuckForever(Next(s, es[0]).value, es[1..], w, t, req);
    }
  }

  /** An active task's request can still be answered if and only if the task has a server to ping:
      `doTask` never completes an empty one, which keeps its place in the worker for good. */
  lemma AnswerIffServers(s: Sys, w: nat, t: Ref)
    requires Inv(s) && t in s.heap && s.stage[t] == Active(w)
    ensures (exists es :: Possible(s, es) && Run(s, es).Some? && Answered(Run(s, es).value, s.doingRequest[t]))
       <==> s.heap[t].totalCount > 0
  {
    assert TaskInv(s, t);
    if s.heap[t].totalCount > 0 {
      var es := ActiveAnswer(s, w, t);
    } else {
      forall es | Possible(s, es) && Run(s, es).Some?
        ensures !Answered(Run(s, es).value, s.doingRequest[t])
      {
        StuckForever(s, es, w, t, s.doingRequest[t]);
      }
    }
  }

  // ---- The bound read once more ----------------------------------------------------------------------

  predicate OnlyResponds(es: seq<Event>) {
    forall k :: 0 <= k < |es| ==> es[k] == Respond
  }

  lemma {:induction false} RespondsKeepActive(s: Sys, es: seq<Event>, w: nat, t: Ref)
    requires Inv(s) && t in s.heap && t in s.stage && s.stage[t] == Active(w)
    requires OnlyResponds(es) && Possible(s, es) && Run(s, es).Some?
    ensures t in Run(s, es).value.heap
    decreases |es|
  {
    if es != [] {
      StepKeeps(s, es[0]);
      var s' := Next(s, es[0]).value;
      assert t in s'.heap && s'.stage[t] == Active(w) by {
        if s.responses != [] {
          assert s.responses[0] in s.responses;
        }
      }
      RespondsKeepActive(s', es[1..], w, t);
    }
  }

  /** `doTask` reads the bound once more after its last start. By then the master may have deleted the
      task if and only if there was a ping and every send failed. */
  lemma RereadHazard(s: Sys, w: nat, now: int, results: seq<SendResult>)
    requires Inv(s) && Enabled(s, Pop(w, now, results)) && Accepts(s, Pop(w, now, results), w)
    ensures s.workers[w].queue[0] in s.heap
    ensures var t, s' := s.workers[w].queue[0], TakeUp(s, w, now, results);
      (exists es :: OnlyResponds(es) && Possible(s', es) && Run(s', es).Some? && t !in Run(s', es).value.heap)
      <==> results != [] && AllFail(results, 0)
  {
    AcceptMaps(s, w, now, results);
    StepKeeps(s, Pop(w, now, results));
    var t, s' := s.workers[w].queue[0], TakeUp(s, w, now, results);
    if results != [] && AllFail(results, 0) {
      assert TaskInv(s', t);
      var k :| 0 <= k < |s'.responses| && s'.responses[k] == t;
      var es := ResponsesReach(s', k);
    } else {
      forall es | OnlyResponds(es) && Possible(s', es) && Run(s', es).Some? ensures t in Run(s', es).value.heap {
        RespondsKeepActive(s', es, w, t);
      }
    }
  }
}
