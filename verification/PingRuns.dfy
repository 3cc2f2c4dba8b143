/** What holds of the ping service over every run, for any number of workers, requests, replies,
    timeouts and send results, in any order. */
module PingRuns {
  import opened Basics
  import opened PingTask
  import opened PingSystem

  // ---- Runs ------------------------------------------------------------------------------------

  /** The events can happen one after the other, up to one that goes astray. */
  predicate Possible(s: Sys, es: seq<Event>)
    decreases |es|
  {
    es == [] || (Enabled(s, es[0]) && (Next(s, es[0]).Some? ==> Possible(Next(s, es[0]).value, es[1..])))
  }

  function Run(s: Sys, es: seq<Event>): Option<Sys>
    requires Possible(s, es)
    decreases |es|
  {
    if es == [] then Some(s)
    else match Next(s, es[0])
         case None => None
         case Some(s') => Run(s', es[1..])
  }

  predicate Overruns(s: Sys, es: seq<Event>)
    requires Possible(s, es)
    decreases |es|
  {
    es != [] && (Overrun(s, es[0]) || (Next(s, es[0]).Some? && Overruns(Next(s, es[0]).value, es[1..])))
  }

  /** Safety over whole runs: no callback ever touches a deleted task, a ping that is not there or
      a timer that was never armed, unless a reply carries the index just past the last ping. */
  lemma {:induction false} RunKeeps(s: Sys, es: seq<Event>)
    requires Inv(s) && Possible(s, es)
    ensures Run(s, es).None? <==> Overruns(s, es)
    ensures Run(s, es).Some? ==> Inv(Run(s, es).value)
    decreases |es|
  {
    if es != [] {
      StepKeeps(s, es[0]);
      if Next(s, es[0]).Some? {
        RunKeeps(Next(s, es[0]).value, es[1..]);
      }
    }
  }

  lemma RunCons(s: Sys, e: Event, es: seq<Event>)
    requires Enabled(s, e) && Next(s, e).Some? && Possible(Next(s, e).value, es)
    ensures Possible(s, [e] + es) && Run(s, [e] + es) == Run(Next(s, e).value, es)
  {
    assert ([e] + es)[1..] == es;
  }

  lemma {:induction false} RunAppend(s: Sys, a: seq<Event>, b: seq<Event>)
    requires Possible(s, a) && Run(s, a).Some? && Possible(Run(s, a).value, b)
    ensures Possible(s, a + b) && Run(s, a + b) == Run(Run(s, a).value, b)
    decreases |a|
  {
    if a == [] {
      assert a + b == b;
    } else {
      assert (a + b)[1..] == a[1..] + b;
      RunAppend(Next(s, a[0]).value, a[1..], b);
    }
  }

  // ---- Requests and answers -----------------------------------------------------------------------

  function Requested(es: seq<Event>): set<Req> {
    if es == [] then {}
    else (if es[0].Request? then {es[0].req} else {}) + Requested(es[1..])
  }

  lemma StepSeen(s: Sys, e: Event)
    requires Inv(s) && Enabled(s, e) && Next(s, e).Some?
    ensures Next(s, e).value.seen == s.seen + if e.Request? then {e.req} else {}
    ensures s.answers <= Next(s, e).value.answers
  {
  }

  lemma {:induction false} RunSeen(s: Sys, es: seq<Event>)
    requires Inv(s) && Possible(s, es) && Run(s, es).Some?
    ensures Run(s, es).value.seen == s.seen + Requested(es)
    ensures s.answers <= Run(s, es).value.answers
    decreases |es|
  {
    if es != [] {
      var s' := Next(s, es[0]).value;
      StepKeeps(s, es[0]);
      StepSeen(s, es[0]);
      RunSeen(s', es[1..]);
      assert s.answers <= s'.answers <= Run(s', es[1..]).value.answers;
    }
  }

  predicate Answered(s: Sys, req: Req) {
    exists j :: 0 <= j < |s.answers| && s.answers[j].req == req
  }

  /** Over every run from the start: the branches the code calls impossible are not taken by the
      HTTP side, the live tasks are exactly the waiting requests' tasks, and every request made is
      either waiting under one live task or answered, never both and never twice; what is answered
      is an error or a task all of whose pings have ended. */
  lemma EveryRequest(n: nat, es: seq<Event>)
    requires Possible(Init(n), es) && !Overruns(Init(n), es)
    ensures Run(Init(n), es).Some?
    ensures var s := Run(Init(n), es).value;
      && s.impossible == 0
      && s.heap.Keys == s.doingRequest.Keys
      && (forall req :: req in Requested(es) <==> req in s.doingRequest.Values || Answered(s, req))
      && (forall req :: !(req in s.doingRequest.Values && Answered(s, req)))
      && (forall t, u :: t in s.doingRequest && u in s.doingRequest && s.doingRequest[t] == s.doingRequest[u]
                         ==> t == u)
      && (forall i, j :: 0 <= i < j < |s.answers| ==> s.answers[i].req != s.answers[j].req)
      && (forall j :: 0 <= j < |s.answers| ==> s.answers[j].task.prepareError || Complete(s.answers[j].task))
  {
    InitKeeps(n);
    RunKeeps(Init(n), es);
    RunSeen(Init(n), es);
    var s := Run(Init(n), es).value;
    forall req | req in s.doingRequest.Values ensures !Answered(s, req) {
      var t := Holder(s.doingRequest, req);
    }
  }

  /** A live task is live for the request it was made for. */
  lemma SameRequest(s: Sys, e: Event, t: Ref)
    requires Inv(s) && Enabled(s, e) && Next(s, e).Some? && t in Next(s, e).value.doingRequest
    ensures t in s.doingRequest ==> Next(s, e).value.doingRequest[t] == s.doingRequest[t]
    ensures t !in s.doingRequest ==>
      && e.Request? && e.t == t && Next(s, e).value.doingRequest[t] == e.req
      && Next(s, e).value.heap == s.heap[t := e.task]
  {
  }

  // ---- One place at a time ----------------------------------------------------------------------------

  lemma {:induction false} OnceIn<X>(q: seq<X>, x: X)
    requires NoDup(q)
    ensures multiset(q)[x] == if x in q then 1 else 0
  {
    if q != [] {
      var n := |q| - 1;
      assert q == q[..n] + [q[n]];
      OnceIn(q[..n], x);
    }
  }

  function QueuedIn(workers: seq<Worker>, t: Ref): nat {
    if workers == [] then 0
    else QueuedIn(workers[..|workers| - 1], t) + multiset(workers[|workers| - 1].queue)[t]
  }

  lemma {:induction false} QueuedOnce(s: Sys, t: Ref, n: nat)
    requires Inv(s) && n <= |s.workers|
    ensures QueuedIn(s.workers[..n], t)
         == if t in s.stage && s.stage[t].Queued? && s.stage[t].w < n then 1 else 0
  {
    if n > 0 {
      QueuedOnce(s, t, n - 1);
      assert s.workers[..n][..n - 1] == s.workers[..n - 1];
      assert WorkerInv(s, n - 1);
      OnceIn(s.workers[n - 1].queue, t);
      if t in s.heap {
        assert TaskInv(s, t);
      }
    }
  }

  /** Conservation: counted with repetition over every queue, a task that is live, and only such a
      task, is in exactly one place. */
  lemma OnePlace(s: Sys, t: Ref)
    requires Inv(s)
    ensures QueuedIn(s.workers, t) + multiset(s.responses)[t]
          + (if t in s.stage && s.stage[t].Active? then 1 else 0)
         == if t in s.doingRequest then 1 else 0
  {
    assert s.workers[..|s.workers|] == s.workers;
    QueuedOnce(s, t, |s.workers|);
    OnceIn(s.responses, t);
    if t in s.heap {
      assert TaskInv(s, t);
    }
  }

  /** Nothing refers to a task once it is on its way to the master, except the response queue and
      the request it answers: no worker's queue, index or timer does, and its pings have ended. */
  lemma HandedOff(s: Sys, t: Ref, w: nat)
    requires Inv(s) && t in s.responses && w < |s.workers|
    ensures t in s.heap && (s.heap[t].prepareError || Complete(s.heap[t]))
    ensures t !in s.workers[w].queue
    ensures forall ts :: ts in s.workers[w].doingMap ==> s.workers[w].doingMap[ts] != t
    ensures forall p :: p in s.workers[w].timers ==> p.0 != t
  {
    assert WorkerInv(s, w);
    assert TaskInv(s, t);
    forall ts | ts in s.workers[w].doingMap ensures s.workers[w].doingMap[ts] != t {
      assert Mapped(s, w, ts);
    }
  }

  // ---- A ping ends once ----------------------------------------------------------------------------------

  /** What may have ended a ping. */
  predicate EndedBy(s: Sys, e: Event, t: Ref, k: nat, p: Ping)
    requires t in s.heap
  {
    match p.status
    case Success => e.Receive? && e.timestamp == s.heap[t].timestamp && e.index == k && p.recvtime == e.now
    case TimedOut => e.Timer? && e.t == t && e.i == k
    case SendError =>
      && e.Pop? && e.w < |s.workers| && s.workers[e.w].queue != [] && s.workers[e.w].queue[0] == t
      && k < |e.results| && !e.results[k].Sent?
    case _ => false
  }

  /** A ping across one callback: if it has ended it stays as it is, and if it ends it does so by a
      reply with its task's timestamp and its index, its own timer or its own failed send. */
  predicate Settles(s: Sys, e: Event, t: Ref, k: nat, q: Task)
    requires t in s.heap && k < |s.heap[t].pings|
  {
    var p := s.heap[t].pings[k];
    && |q.pings| == |s.heap[t].pings| && q.totalCount == s.heap[t].totalCount
    && q.pings[k].ip == p.ip
    && (Terminal(p) ==> q.pings[k] == p)
    && (!Terminal(p) && Terminal(q.pings[k]) ==> EndedBy(s, e, t, k, q.pings[k]))
  }

  lemma PopSettles(s: Sys, w: nat, now: int, results: seq<SendResult>, k: nat)
    requires Inv(s) && Enabled(s, Pop(w, now, results)) && s.workers[w].queue != []
    requires s.workers[w].queue[0] in s.heap && k < |s.heap[s.workers[w].queue[0]].pings|
    ensures var t := s.workers[w].queue[0];
      Settles(s, Pop(w, now, results), t, k, TakeUp(s, w, now, results).heap[t])
  {
    var t := s.workers[w].queue[0];
    QueuedTask(s, w, 0);
    if s.workers[w].doingCount < DOING_TASK_CAPACITY {
      TakenSettles(s, w, now, results, k, TakeUp(s, w, now, results).heap[t]);
    }
  }

  lemma TakenSettles(s: Sys, w: nat, now: int, results: seq<SendResult>, k: nat, q: Task)
    requires w < |s.workers| && s.workers[w].queue != [] && s.workers[w].queue[0] in s.heap
    requires var t := s.workers[w].queue[0];
      && Fresh(s.heap[t]) && k < |s.heap[t].pings| == |results|
      && q == DoTask(LocalOf(Accept(s, w, now), w, t), 0, w, results).task
    ensures Settles(s, Pop(w, now, results), s.workers[w].queue[0], k, q)
  {
    DoTaskSends(LocalOf(Accept(s, w, now), w, s.workers[w].queue[0]), 0, w, results);
  }

  lemma TimerSettles(s: Sys, w: nat, t: Ref, i: nat, k: nat)
    requires Inv(s) && w < |s.workers| && (t, i) in s.workers[w].timers
    requires t in s.heap && i < |s.heap[t].pings| && k < |s.heap[t].pings|
    ensures Settles(s, Timer(w, t, i), t, k, HandleTimeout(LocalOf(s, w, t), i).task)
  {
    TimedTask(s, w, t, i);
    TimeoutKeeps(LocalOf(s, w, t), i, w);
  }

  lemma ReceiveSettles(s: Sys, w: nat, ts: int, i: nat, now: int, k: nat)
    requires Inv(s) && w < |s.workers| && ts in s.workers[w].doingMap
    requires Mapped(s, w, ts) && k < |s.heap[s.workers[w].doingMap[ts]].pings|
    requires i < |s.heap[s.workers[w].doingMap[ts]].pings|
    ensures var t := s.workers[w].doingMap[ts];
      Settles(s, Receive(w, ts, i, now), t, k, Deliver(LocalOf(s, w, t), i, now).task)
  {
    MappedTask(s, w, ts);
    DeliverKeeps(LocalOf(s, w, s.workers[w].doingMap[ts]), i, now, w);
  }

  /** A ping ends at most once, in any run: no callback changes a ping that has ended. */
  lemma PingEndsOnce(s: Sys, e: Event, t: Ref, k: nat)
    requires Inv(s) && Enabled(s, e) && Next(s, e).Some?
    requires t in s.heap && t in Next(s, e).value.heap && k < |s.heap[t].pings|
    ensures Settles(s, e, t, k, Next(s, e).value.heap[t])
  {
    match e
    case Request(_, _, _, _) =>
    case Pop(w, now, results) =>
      if s.workers[w].queue != [] && s.workers[w].queue[0] == t {
        PopSettles(s, w, now, results, k);
      }
    case Receive(w, ts, i, now) =>
      if ts in s.workers[w].doingMap && s.workers[w].doingMap[ts] == t {
        MappedTask(s, w, ts);
        if i < |s.heap[t].pings| {
          ReceiveSettles(s, w, ts, i, now, k);
        }
      }
    case Timer(w, u, i) =>
      if u == t {
        TimerSettles(s, w, t, i, k);
      }
    case Respond =>
  }

  // ---- Armed timers -----------------------------------------------------------------------------

  /** An active task has one armed timer for each ping still to end. */
  lemma TimersOwed(s: Sys, w: nat, t: Ref)
    requires Inv(s) && t in s.heap && s.stage[t] == Active(w)
    ensures w < |s.workers|
    ensures |TimersOf(s.workers[w].timers, t)| == s.heap[t].totalCount - s.heap[t].doneCount
    ensures forall i: nat :: (t, i) in s.workers[w].timers <==>
              i < |s.heap[t].pings| && !Terminal(s.heap[t].pings[i])
  {
    assert TaskInv(s, t);
    WaitingCount(s.heap[t].pings);
    assert forall i: nat :: i in TimersOf(s.workers[w].timers, t) <==> (t, i) in s.workers[w].timers;
  }

  lemma SomeTimer(s: Sys, w: nat, t: Ref) returns (i: nat)
    requires Inv(s) && t in s.heap && s.stage[t] == Active(w) && s.heap[t].totalCount > 0
    ensures w < |s.workers| && (t, i) in s.workers[w].timers && s.heap[t].doneCount < s.heap[t].totalCount
  {
    assert TaskInv(s, t);
    TimersOwed(s, w, t);
    assert TimersOf(s.workers[w].timers, t) != {};
    i :| i in TimersOf(s.workers[w].timers, t);
  }
}
