/** The whole ping service as a state machine: the HTTP side, any number of workers, and the tasks
    they pass between them. Each event is one event-loop callback, run atomically by its thread;
    replies, timeouts, send results and clocks are chosen by the environment. Tasks are named by
    their address, and an address may be used again once its task is deleted. */
module PingSystem {
  import opened Basics
  import opened PingTask

  type Ref = int
  type Req = int

  /** A `TaskWorker`: its queue, its index of active tasks, and the timers armed on its event
      base. A timer outlives the task it was armed for unless it is deleted. */
  datatype Worker = Worker(
    queue: seq<Ref>, doingMap: map<int, Ref>, doingCount: int, timers: set<(Ref, nat)>)

  /** Where a task is, as a history variable: no callback reads it. */
  datatype Stage = Queued(w: nat) | Active(w: nat) | Answering

  datatype Answer = Answer(req: Req, task: Task)

  /** `seen` and `answers` are histories; `impossible` counts the branches the code logs as such. */
  datatype Sys = Sys(
    heap: map<Ref, Task>, workers: seq<Worker>, responses: seq<Ref>, doingRequest: map<Ref, Req>,
    stage: map<Ref, Stage>, seen: set<Req>, answers: seq<Answer>, impossible: nat)

  datatype Event =
    | Request(t: Ref, req: Req, task: Task, w: nat)            // handlePingReq
    | Pop(w: nat, now: int, results: seq<SendResult>)          // notifyEventHandler
    | Receive(w: nat, timestamp: int, index: nat, now: int)    // socketReadHandler
    | Timer(w: nat, t: Ref, i: nat)                            // Ping::handleTimeout
    | Respond                                                  // tryRespEventHandler

  function Init(n: nat): Sys {
    Sys(map[], seq(n, _ => Worker([], map[], 0, {})), [], map[], map[], {}, [], 0)
  }

  // ---- Steps -------------------------------------------------------------------------------------

  function TimersOf(timers: set<(Ref, nat)>, t: Ref): set<nat> {
    set p | p in timers && p.0 == t :: p.1
  }

  function LocalOf(s: Sys, w: nat, t: Ref): Local<Ref>
    requires t in s.heap && w < |s.workers|
  {
    Local(s.heap[t], s.workers[w].doingMap, s.workers[w].doingCount, TimersOf(s.workers[w].timers, t), 0)
  }

  /** Writes a callback's local state back; each `sendToMaster` appends the task to the queue. */
  function Commit(s: Sys, w: nat, t: Ref, l: Local<Ref>): Sys
    requires w < |s.workers|
  {
    var worker := s.workers[w];
    var timers := (set p | p in worker.timers && p.0 != t) + (set i | i in l.timers :: (t, i));
    s.(heap := s.heap[t := l.task],
       workers := s.workers[w := worker.(doingMap := l.doingMap, doingCount := l.doingCount, timers := timers)],
       responses := s.responses + seq(l.sent, _ => t),
       stage := s.stage[t := if l.sent == 0 then Active(w) else Answering])
  }

  /** What the constructors of `Task` hand to the handler. */
  predicate Admissible(task: Task) {
    if task.prepareError then task.pings == [] else Fresh(task)
  }

  /** What the environment may do: a new task lies in unused memory, a request comes once, a timer
      fires only while armed, and one send result per ping is at hand. */
  predicate Enabled(s: Sys, e: Event) {
    match e
    case Request(t, req, task, w) =>
      t !in s.heap && req !in s.seen && w < |s.workers| && Admissible(task)
    case Pop(w, now, results) =>
      w < |s.workers| &&
      (s.workers[w].queue != [] && s.workers[w].queue[0] in s.heap
       ==> |results| == |s.heap[s.workers[w].queue[0]].pings|)
    case Receive(w, timestamp, index, now) => w < |s.workers|
    case Timer(w, t, i) => w < |s.workers| && (t, i) in s.workers[w].timers
    case Respond => true
  }

  /** The state after a callback; None when it touches memory that is not there: a deleted task, a
      ping beyond the array, a timer that was never armed. */
  function Next(s: Sys, e: Event): Option<Sys>
    requires Enabled(s, e)
  {
    match e
    case Request(t, req, task, w) => Some(HandleRequest(s, t, req, task, w))
    case Pop(w, now, results) =>
      var queue := s.workers[w].queue;
      if queue == [] then Some(s)
      else if queue[0] !in s.heap then None
      else Some(TakeUp(s, w, now, results))
    case Receive(w, timestamp, index, now) =>
      var doingMap := s.workers[w].doingMap;
      if timestamp !in doingMap then Some(s)
      else if doingMap[timestamp] !in s.heap then None
      else
        var t := doingMap[timestamp];
        var task := s.heap[t];
        if index > task.totalCount then Some(s)
        else if index >= |task.pings| then None
        else if !Terminal(task.pings[index]) && (t, index) !in s.workers[w].timers then None
        else Some(Commit(s, w, t, Deliver(LocalOf(s, w, t), index, now)))
    case Timer(w, t, i) =>
      if t !in s.heap || i >= |s.heap[t].pings| || s.heap[t].pings[i].worker != Some(w) then None
      else Some(Commit(s, w, t, HandleTimeout(LocalOf(s, w, t), i)))
    case Respond =>
      if s.responses == [] then Some(s)
      else
        var t := s.responses[0];
        var s' := s.(responses := s.responses[1..], heap := s.heap - {t}, stage := s.stage - {t});
        if t !in s.heap then None
        else if t !in s.doingRequest then Some(s'.(impossible := s.impossible + 1))
        else
          Some(s'.(doingRequest := s.doingRequest - {t},
                   answers := s.answers + [Answer(s.doingRequest[t], s.heap[t])]))
  }

  /** `HttpHandler::handlePingReq` once the task is built. */
  function HandleRequest(s: Sys, t: Ref, req: Req, task: Task, w: nat): Sys
    requires w < |s.workers|
  {
    if t in s.doingRequest then s.(impossible := s.impossible + 1)
    else
      var s' := s.(heap := s.heap[t := task], doingRequest := s.doingRequest[t := req], seen := s.seen + {req});
      if task.prepareError then
        s'.(responses := s.responses + [t], stage := s.stage[t := Answering])
      else
        var worker := s.workers[w];
        s'.(workers := s.workers[w := worker.(queue := worker.queue + [t])], stage := s.stage[t := Queued(w)])
  }

  /** `notifyEventHandler` on a non-empty queue. */
  function TakeUp(s: Sys, w: nat, now: int, results: seq<SendResult>): Sys
    requires w < |s.workers| && s.workers[w].queue != [] && s.workers[w].queue[0] in s.heap
    requires |results| == |s.heap[s.workers[w].queue[0]].pings|
  {
    var worker := s.workers[w];
    var t := worker.queue[0];
    if worker.doingCount >= DOING_TASK_CAPACITY then
      s.(heap := s.heap[t := s.heap[t].(prepareError := true, preErrorCode := TOO_MANY_TASKS)],
         workers := s.workers[w := worker.(queue := worker.queue[1..])],
         responses := s.responses + [t],
         stage := s.stage[t := Answering])
    else
      var s' := Accept(s, w, now);
      Commit(s', w, t, DoTask(LocalOf(s', w, t), 0, w, results))
  }

  /** The head of the queue becomes active; `insert` keeps an entry that is already there. */
  function Accept(s: Sys, w: nat, now: int): Sys
    requires w < |s.workers| && s.workers[w].queue != [] && s.workers[w].queue[0] in s.heap
  {
    var worker := s.workers[w];
    var t := worker.queue[0];
    var doingMap := if now in worker.doingMap then worker.doingMap else worker.doingMap[now := t];
    s.(heap := s.heap[t := s.heap[t].(timestamp := now)],
       workers := s.workers[w := worker.(queue := worker.queue[1..], doingMap := doingMap,
                                         doingCount := worker.doingCount + 1)],
       stage := s.stage[t := Active(w)])
  }

  /** A queued task is live, waits there and nowhere else, and is fresh. */
  lemma QueuedTask(s: Sys, w: nat, k: nat)
    requires Inv(s) && w < |s.workers| && k < |s.workers[w].queue|
    ensures var t := s.workers[w].queue[k];
      t in s.heap && t in s.doingRequest && t in s.stage && s.stage[t] == Queued(w) && Fresh(s.heap[t])
  {
    assert WorkerInv(s, w);
    assert s.workers[w].queue[k] in s.workers[w].queue;
    assert TaskInv(s, s.workers[w].queue[k]);
  }

  /** What the callback sees and leaves of the task it takes up, in the terms of `PingTask`. */
  lemma TakeUpView(s: Sys, w: nat, now: int, results: seq<SendResult>)
    requires Inv(s) && Enabled(s, Pop(w, now, results)) && s.workers[w].queue != []
    requires s.workers[w].queue[0] in s.heap
    ensures var t := s.workers[w].queue[0];
      var s', l := TakeUp(s, w, now, results), LocalOf(s, w, t);
      var r := if l.doingCount >= DOING_TASK_CAPACITY then TurnAway(l) else DoTask(TakeOn(l, now, t), 0, w, results);
      && s'.workers[w].queue == s.workers[w].queue[1..]
      && t in s'.heap && s'.heap[t] == r.task
      && s'.workers[w].doingMap == r.doingMap && s'.workers[w].doingCount == r.doingCount
      && TimersOf(s'.workers[w].timers, t) == r.timers
      && s'.responses == s.responses + seq(r.sent, _ => t)
  {
    var t := s.workers[w].queue[0];
    var l := LocalOf(s, w, t);
    QueuedTask(s, w, 0);
    if l.doingCount >= DOING_TASK_CAPACITY {
      assert seq(1, _ => t) == [t];
    } else {
      var s0 := Accept(s, w, now);
      assert LocalOf(s0, w, t) == TakeOn(l, now, t);
      var r := DoTask(TakeOn(l, now, t), 0, w, results);
      CommitTimers(s0, w, t, r);
    }
  }

  lemma CommitTimers(s: Sys, w: nat, t: Ref, l: Local<Ref>)
    requires w < |s.workers|
    ensures TimersOf(Commit(s, w, t, l).workers[w].timers, t) == l.timers
  {
    var timers := Commit(s, w, t, l).workers[w].timers;
    forall i | i in l.timers ensures i in TimersOf(timers, t) {
      assert (t, i) in timers;
    }
  }

  // ---- The invariant ---------------------------------------------------------------------------------

  predicate NoDup<X(==)>(q: seq<X>) {
    forall i, j :: 0 <= i < j < |q| ==> q[i] != q[j]
  }

  function ActiveSet(stage: map<Ref, Stage>, w: nat): set<Ref> {
    set t | t in stage && stage[t] == Active(w)
  }

  /** A task lies in the one place its stage names, in the condition that place asks for. */
  predicate TaskInv(s: Sys, t: Ref)
    requires t in s.heap && t in s.stage
  {
    match s.stage[t]
    case Queued(w) => w < |s.workers| && t in s.workers[w].queue && Fresh(s.heap[t])
    case Active(w) => w < |s.workers| && Running(s.heap[t], TimersOf(s.workers[w].timers, t), w)
    case Answering => t in s.responses && (s.heap[t].prepareError || Complete(s.heap[t]))
  }

  /** A worker's structures refer only to tasks that are where they should be. */
  predicate WorkerInv(s: Sys, w: nat)
    requires w < |s.workers|
  {
    var worker := s.workers[w];
    && NoDup(worker.queue)
    && (forall t :: t in worker.queue ==> t in s.stage && s.stage[t] == Queued(w))
    && (forall ts :: ts in worker.doingMap ==> Mapped(s, w, ts))
    && (forall p :: p in worker.timers ==> p.0 in s.stage && s.stage[p.0] == Active(w))
    && worker.doingCount == |ActiveSet(s.stage, w)| <= DOING_TASK_CAPACITY
  }

  /** An entry of `doingMap` leads to an active task carrying its timestamp. */
  predicate Mapped(s: Sys, w: nat, ts: int)
    requires w < |s.workers| && ts in s.workers[w].doingMap
  {
    var t := s.workers[w].doingMap[ts];
    t in s.heap && t in s.stage && s.stage[t] == Active(w) && s.heap[t].timestamp == ts
  }

  /** Every request seen is either waiting, under exactly one live task, or answered, once. */
  predicate RequestsInv(s: Sys) {
    && (forall t, u :: t in s.doingRequest && u in s.doingRequest && t != u
                       ==> s.doingRequest[t] != s.doingRequest[u])
    && (forall i, j :: 0 <= i < j < |s.answers| ==> s.answers[i].req != s.answers[j].req)
    && (forall t, j :: t in s.doingRequest && 0 <= j < |s.answers| ==> s.doingRequest[t] != s.answers[j].req)
    && s.seen == s.doingRequest.Values + (set j | 0 <= j < |s.answers| :: s.answers[j].req)
  }

  /** Everything but the tasks' own conditions. */
  predicate Base(s: Sys) {
    && s.heap.Keys == s.stage.Keys == s.doingRequest.Keys
    && NoDup(s.responses)
    && (forall t :: t in s.responses ==> t in s.stage && s.stage[t] == Answering)
    && (forall w :: 0 <= w < |s.workers| ==> WorkerInv(s, w))
    && RequestsInv(s)
    && s.impossible == 0
    && (forall j :: 0 <= j < |s.answers| ==> s.answers[j].task.prepareError || Complete(s.answers[j].task))
  }

  predicate Inv(s: Sys) {
    Base(s) && forall t :: t in s.heap ==> TaskInv(s, t)
  }

  // ---- Every event keeps the invariant -----------------------------------------------------------------

  lemma ActiveSetUpdate(stage: map<Ref, Stage>, t: Ref, g: Stage, w: nat)
    ensures ActiveSet(stage[t := g], w)
         == if g == Active(w) then ActiveSet(stage, w) + {t} else ActiveSet(stage, w) - {t}
  {
  }

  /** Writing back what a callback did to one active task. */
  lemma CommitKeeps(s: Sys, w: nat, t: Ref, l: Local<Ref>)
    requires Base(s) && w < |s.workers| && t in s.heap && s.stage[t] == Active(w)
    requires forall u :: u in s.heap && u != t ==> TaskInv(s, u)
    requires Outcome(LocalOf(s, w, t), l, w)
    ensures Inv(Commit(s, w, t, l))
  {
    var s' := Commit(s, w, t, l);
    CommitWorkers(s, w, t, l);
    if l.sent == 1 {
      assert seq(l.sent, _ => t) == [t];
    } else {
      assert s'.responses == s.responses;
    }
    forall u | u in s'.heap ensures TaskInv(s', u) {
      if u == t {
        CommitTimers(s, w, t, l);
      } else {
        assert TaskInv(s, u);
        forall v: nat | v < |s.workers| ensures TimersOf(s'.workers[v].timers, u) == TimersOf(s.workers[v].timers, u) {
        }
      }
    }
  }

  lemma CommitWorkers(s: Sys, w: nat, t: Ref, l: Local<Ref>)
    requires Base(s) && w < |s.workers| && t in s.heap && s.stage[t] == Active(w)
    requires Outcome(LocalOf(s, w, t), l, w)
    ensures var s' := Commit(s, w, t, l);
      forall v :: 0 <= v < |s'.workers| ==> WorkerInv(s', v)
  {
    var s' := Commit(s, w, t, l);
    forall v | 0 <= v < |s'.workers| ensures WorkerInv(s', v) {
      if v == w {
        CommitWorker(s, w, t, l);
      } else {
        CommitOther(s, w, t, l, v);
      }
    }
  }

  lemma CommitWorker(s: Sys, w: nat, t: Ref, l: Local<Ref>)
    requires Base(s) && w < |s.workers| && t in s.heap && s.stage[t] == Active(w)
    requires Outcome(LocalOf(s, w, t), l, w)
    ensures WorkerInv(Commit(s, w, t, l), w)
  {
    var s' := Commit(s, w, t, l);
    assert WorkerInv(s, w);
    ActiveSetUpdate(s.stage, t, s'.stage[t], w);
    forall ts | ts in s'.workers[w].doingMap ensures Mapped(s', w, ts) {
      assert Mapped(s, w, ts);
    }
    assert t in ActiveSet(s.stage, w);
  }

  lemma CommitOther(s: Sys, w: nat, t: Ref, l: Local<Ref>, v: nat)
    requires Base(s) && w < |s.workers| && t in s.heap && s.stage[t] == Active(w)
    requires v < |s.workers| && v != w
    ensures WorkerInv(Commit(s, w, t, l), v)
  {
    var s' := Commit(s, w, t, l);
    assert WorkerInv(s, v);
    ActiveSetUpdate(s.stage, t, s'.stage[t], v);
    forall ts | ts in s'.workers[v].doingMap ensures Mapped(s', v, ts) {
      assert Mapped(s, v, ts);
    }
    assert t !in ActiveSet(s.stage, v);
  }

  lemma RequestWorkers(s: Sys, t: Ref, req: Req, task: Task, w: nat)
    requires Inv(s) && Enabled(s, Request(t, req, task, w))
    ensures |HandleRequest(s, t, req, task, w).workers| == |s.workers|
    ensures forall v :: 0 <= v < |s.workers| ==> WorkerInv(HandleRequest(s, t, req, task, w), v)
  {
    forall v | 0 <= v < |s.workers| ensures WorkerInv(HandleRequest(s, t, req, task, w), v) {
      RequestWorker(s, t, req, task, w, v);
    }
  }

  lemma RequestWorker(s: Sys, t: Ref, req: Req, task: Task, w: nat, v: nat)
    requires Inv(s) && Enabled(s, Request(t, req, task, w)) && v < |s.workers|
    ensures |HandleRequest(s, t, req, task, w).workers| == |s.workers|
    ensures WorkerInv(HandleRequest(s, t, req, task, w), v)
  {
    assert WorkerInv(s, v);
    NewTaskWorker(s, HandleRequest(s, t, req, task, w), t, v);
  }

  /** A new task that is not active leaves a worker as it was, or waits in its queue. */
  lemma NewTaskWorker(s: Sys, s': Sys, t: Ref, v: nat)
    requires v < |s.workers| == |s'.workers| && WorkerInv(s, v) && t !in s.stage && t !in s.heap
    requires t in s'.stage && !s'.stage[t].Active? && s'.stage == s.stage[t := s'.stage[t]]
    requires forall u :: u in s.heap ==> u in s'.heap && s'.heap[u] == s.heap[u]
    requires s'.workers[v] == s.workers[v]
             || (s'.stage[t] == Queued(v) && s'.workers[v] == s.workers[v].(queue := s.workers[v].queue + [t]))
    ensures WorkerInv(s', v)
  {
    ActiveSetUpdate(s.stage, t, s'.stage[t], v);
    assert t !in ActiveSet(s.stage, v);
    forall ts | ts in s'.workers[v].doingMap ensures Mapped(s', v, ts) {
      assert Mapped(s, v, ts);
    }
  }

  lemma RequestKeeps(s: Sys, t: Ref, req: Req, task: Task, w: nat)
    requires Inv(s) && Enabled(s, Request(t, req, task, w))
    ensures Inv(HandleRequest(s, t, req, task, w))
  {
    var s' := HandleRequest(s, t, req, task, w);
    RequestWorkers(s, t, req, task, w);
    RequestRecorded(s, s', t, req);
    forall u | u in s'.heap ensures TaskInv(s', u) {
      if u == t {
        assert s'.stage[t].Queued? ==> s'.workers[w].queue[|s.workers[w].queue|] == t;
        assert s'.stage[t].Answering? ==> s'.responses[|s.responses|] == t;
      } else {
        assert TaskInv(s, u);
      }
    }
  }

  lemma Holder<K, V>(m: map<K, V>, v: V) returns (k: K)
    requires v in m.Values
    ensures k in m && m[k] == v
  {
    k :| k in m.Keys && m[k] == v;
  }

  lemma RequestRecorded(s: Sys, s': Sys, t: Ref, req: Req)
    requires RequestsInv(s) && t !in s.doingRequest && req !in s.seen
    requires s'.doingRequest == s.doingRequest[t := req] && s'.seen == s.seen + {req} && s'.answers == s.answers
    ensures RequestsInv(s')
  {
    assert forall u :: u in s.doingRequest ==> s.doingRequest[u] in s.seen;
    assert forall j :: 0 <= j < |s.answers| ==> s.answers[j].req in s.seen;
    assert s'.doingRequest.Values == s.doingRequest.Values + {req} by {
      forall r | r in s.doingRequest.Values ensures r in s'.doingRequest.Values {
        var u := Holder(s.doingRequest, r);
        assert s'.doingRequest[u] == r;
      }
      assert s'.doingRequest[t] == req;
    }
  }

  lemma RespondKeeps(s: Sys)
    requires Inv(s) && s.responses != []
    ensures Next(s, Respond).Some? && Inv(Next(s, Respond).value)
  {
    var t := s.responses[0];
    assert t in s.responses;
    assert TaskInv(s, t);
    var s' := Next(s, Respond).value;
    forall v | 0 <= v < |s'.workers| ensures WorkerInv(s', v) {
      assert WorkerInv(s, v);
      assert ActiveSet(s'.stage, v) == ActiveSet(s.stage, v);
      forall ts | ts in s'.workers[v].doingMap ensures Mapped(s', v, ts) {
        assert Mapped(s, v, ts);
      }
    }
    AnswerRecorded(s, s', t);
    forall u | u in s'.heap ensures TaskInv(s', u) {
      assert TaskInv(s, u);
      if s.stage[u].Answering? {
        var k :| 0 <= k < |s.responses| && s.responses[k] == u;
        assert s'.responses[k - 1] == u;
      }
    }
  }

  lemma AnswerRecorded(s: Sys, s': Sys, t: Ref)
    requires RequestsInv(s) && t in s.doingRequest && t in s.heap
    requires s'.doingRequest == s.doingRequest - {t} && s'.seen == s.seen
    requires s'.answers == s.answers + [Answer(s.doingRequest[t], s.heap[t])]
    ensures RequestsInv(s')
  {
    var n := |s.answers|;
    assert s'.answers[n].req == s.doingRequest[t];
    assert forall j :: 0 <= j < n ==> s'.answers[j] == s.answers[j];
    forall r | r in s.seen
      ensures r in s'.doingRequest.Values + (set j | 0 <= j < |s'.answers| :: s'.answers[j].req)
    {
      if r in s.doingRequest.Values {
        var u := Holder(s.doingRequest, r);
        if u != t {
          assert s'.doingRequest[u] == r;
        }
      } else {
        var j :| 0 <= j < n && s.answers[j].req == r;
        assert s'.answers[j].req == r;
      }
    }
    forall u | u in s'.doingRequest ensures s'.doingRequest[u] in s.seen {
      assert s'.doingRequest[u] == s.doingRequest[u];
    }
  }

  /** The head of the queue refused for lack of capacity. */
  lemma RefuseWorkers(s: Sys, w: nat, now: int, results: seq<SendResult>)
    requires Inv(s) && Enabled(s, Pop(w, now, results)) && s.workers[w].queue != []
    requires s.workers[w].queue[0] in s.heap && s.workers[w].doingCount >= DOING_TASK_CAPACITY
    ensures forall v :: 0 <= v < |s.workers| ==>
      |TakeUp(s, w, now, results).workers| == |s.workers| && WorkerInv(TakeUp(s, w, now, results), v)
  {
    var t := s.workers[w].queue[0];
    var s' := TakeUp(s, w, now, results);
    QueuedTask(s, w, 0);
    forall v | 0 <= v < |s'.workers| ensures WorkerInv(s', v) {
      assert WorkerInv(s, v);
      ActiveSetUpdate(s.stage, t, Answering, v);
      assert t !in ActiveSet(s.stage, v);
      forall ts | ts in s'.workers[v].doingMap ensures Mapped(s', v, ts) {
        assert Mapped(s, v, ts);
      }
    }
  }

  lemma RefuseKeeps(s: Sys, w: nat, now: int, results: seq<SendResult>)
    requires Inv(s) && Enabled(s, Pop(w, now, results)) && s.workers[w].queue != []
    requires s.workers[w].queue[0] in s.heap && s.workers[w].doingCount >= DOING_TASK_CAPACITY
    ensures Inv(TakeUp(s, w, now, results))
  {
    var t := s.workers[w].queue[0];
    var s' := TakeUp(s, w, now, results);
    QueuedTask(s, w, 0);
    RefuseWorkers(s, w, now, results);
    forall u | u in s'.heap ensures TaskInv(s', u) {
      if u == t {
        assert s'.responses[|s.responses|] == t;
      } else {
        assert TaskInv(s, u);
        StillQueued(s, s', w, u);
      }
    }
  }

  /** Popping the head leaves the rest of the queue. */
  lemma StillQueued(s: Sys, s': Sys, w: nat, u: Ref)
    requires w < |s.workers| == |s'.workers| && s.workers[w].queue != [] && u != s.workers[w].queue[0]
    requires s'.workers[w].queue == s.workers[w].queue[1..]
    ensures u in s.workers[w].queue ==> u in s'.workers[w].queue
  {
    if u in s.workers[w].queue {
      var k :| 0 <= k < |s.workers[w].queue| && s.workers[w].queue[k] == u;
      assert s'.workers[w].queue[k - 1] == u;
    }
  }

  lemma AcceptWorker(s: Sys, w: nat, now: int, v: nat)
    requires Inv(s) && w < |s.workers| && s.workers[w].queue != [] && s.workers[w].queue[0] in s.heap
    requires s.workers[w].doingCount < DOING_TASK_CAPACITY && v < |s.workers|
    ensures |Accept(s, w, now).workers| == |s.workers| && WorkerInv(Accept(s, w, now), v)
  {
    var t := s.workers[w].queue[0];
    var s' := Accept(s, w, now);
    QueuedTask(s, w, 0);
    assert WorkerInv(s, v);
    ActiveSetUpdate(s.stage, t, Active(w), v);
    assert t !in ActiveSet(s.stage, v);
    forall ts | ts in s'.workers[v].doingMap ensures Mapped(s', v, ts) {
      if ts in s.workers[v].doingMap {
        assert Mapped(s, v, ts);
      }
    }
  }

  lemma AcceptKeeps(s: Sys, w: nat, now: int)
    requires Inv(s) && w < |s.workers| && s.workers[w].queue != [] && s.workers[w].queue[0] in s.heap
    requires s.workers[w].doingCount < DOING_TASK_CAPACITY
    ensures var s' := Accept(s, w, now);
      var t := s.workers[w].queue[0];
      && Base(s') && t in s'.heap && s'.stage[t] == Active(w)
      && (forall u :: u in s'.heap && u != t ==> TaskInv(s', u))
      && Fresh(s'.heap[t]) && TimersOf(s'.workers[w].timers, t) == {}
      && s'.heap[t].pings == s.heap[t].pings
  {
    var t := s.workers[w].queue[0];
    var s' := Accept(s, w, now);
    QueuedTask(s, w, 0);
    assert WorkerInv(s, w);
    forall v | 0 <= v < |s'.workers| ensures WorkerInv(s', v) {
      AcceptWorker(s, w, now, v);
    }
    forall u | u in s'.heap && u != t ensures TaskInv(s', u) {
      assert TaskInv(s, u);
      StillQueued(s, s', w, u);
    }
  }

  lemma PopKeeps(s: Sys, w: nat, now: int, results: seq<SendResult>)
    requires Inv(s) && Enabled(s, Pop(w, now, results)) && s.workers[w].queue != []
    ensures s.workers[w].queue[0] in s.heap
    ensures Inv(TakeUp(s, w, now, results))
  {
    var t := s.workers[w].queue[0];
    QueuedTask(s, w, 0);
    if s.workers[w].doingCount >= DOING_TASK_CAPACITY {
      RefuseKeeps(s, w, now, results);
    } else {
      var s' := Accept(s, w, now);
      AcceptKeeps(s, w, now);
      var l := LocalOf(s', w, t);
      FreshStarts(l, w);
      DoTaskKeeps(l, 0, w, results);
      CommitKeeps(s', w, t, DoTask(l, 0, w, results));
    }
  }

  lemma FreshStarts(l: Local<Ref>, w: nat)
    requires Fresh(l.task) && l.timers == {}
    ensures Started(l.task, l.timers, 0, w)
    ensures l.task.doneCount == 0
  {
    CountStarted(l.task.pings, 0);
    assert DoingSet(l.task) == {};
  }

  // ---- Replies and timeouts -------------------------------------------------------------------------------

  /** A callback that left its task alone leaves the system alone. */
  lemma CommitNothing(s: Sys, w: nat, t: Ref)
    requires w < |s.workers| && t in s.heap && t in s.stage && s.stage[t] == Active(w)
    ensures Commit(s, w, t, LocalOf(s, w, t)) == s
  {
    var s' := Commit(s, w, t, LocalOf(s, w, t));
    assert s'.workers[w].timers == s.workers[w].timers;
    assert s'.heap == s.heap;
    assert s'.stage == s.stage;
  }

  /** A mapped timestamp leads to a live active task. */
  lemma MappedTask(s: Sys, w: nat, ts: int)
    requires Inv(s) && w < |s.workers| && ts in s.workers[w].doingMap
    ensures Mapped(s, w, ts)
    ensures var t := s.workers[w].doingMap[ts];
      Running(s.heap[t], TimersOf(s.workers[w].timers, t), w)
  {
    assert WorkerInv(s, w);
    assert TaskInv(s, s.workers[w].doingMap[ts]);
  }

  lemma ReceiveKeeps(s: Sys, w: nat, ts: int, i: nat, now: int)
    requires Inv(s) && w < |s.workers| && ts in s.workers[w].doingMap
    requires s.workers[w].doingMap[ts] in s.heap
    requires i != s.heap[s.workers[w].doingMap[ts]].totalCount
    ensures var t := s.workers[w].doingMap[ts];
      var task := s.heap[t];
      var l := LocalOf(s, w, t);
      if i < |task.pings| && !Terminal(task.pings[i]) then
        && Outcome(l, Deliver(l, i, now), w)
        && Next(s, Receive(w, ts, i, now)) == Some(Commit(s, w, t, Deliver(l, i, now)))
        && Inv(Commit(s, w, t, Deliver(l, i, now)))
      else Next(s, Receive(w, ts, i, now)) == Some(s)
  {
    MappedTask(s, w, ts);
    var t := s.workers[w].doingMap[ts];
    var l := LocalOf(s, w, t);
    DeliverKeeps(l, i, now, w);
    if i < |s.heap[t].pings| && !Terminal(s.heap[t].pings[i]) {
      CommitKeeps(s, w, t, Deliver(l, i, now));
    } else {
      CommitNothing(s, w, t);
    }
  }

  lemma TimedTask(s: Sys, w: nat, t: Ref, i: nat)
    requires Inv(s) && w < |s.workers| && (t, i) in s.workers[w].timers
    ensures t in s.heap && t in s.stage && s.stage[t] == Active(w)
    ensures Running(s.heap[t], TimersOf(s.workers[w].timers, t), w) && i in TimersOf(s.workers[w].timers, t)
  {
    assert WorkerInv(s, w);
    assert TaskInv(s, t);
  }

  lemma TimerKeeps(s: Sys, w: nat, t: Ref, i: nat)
    requires Inv(s) && w < |s.workers| && (t, i) in s.workers[w].timers
    ensures t in s.heap && s.stage[t] == Active(w)
    ensures var l := LocalOf(s, w, t);
      && i < |l.task.pings|
      && Outcome(l, HandleTimeout(l, i), w)
      && Next(s, Timer(w, t, i)) == Some(Commit(s, w, t, HandleTimeout(l, i)))
      && Inv(Commit(s, w, t, HandleTimeout(l, i)))
  {
    TimedTask(s, w, t, i);
    var l := LocalOf(s, w, t);
    TimeoutKeeps(l, i, w);
    TimerNext(s, w, t, i);
    CommitKeeps(s, w, t, HandleTimeout(l, i));
  }

  lemma TimerNext(s: Sys, w: nat, t: Ref, i: nat)
    requires w < |s.workers| && (t, i) in s.workers[w].timers && t in s.heap && i < |s.heap[t].pings|
    requires Running(s.heap[t], TimersOf(s.workers[w].timers, t), w)
    ensures Next(s, Timer(w, t, i)) == Some(Commit(s, w, t, HandleTimeout(LocalOf(s, w, t), i)))
  {
  }

  /** The one event that reads past a task's pings: a reply for an active task whose index equals
      the count, which the guard of `onReceive` lets through. */
  predicate Overrun(s: Sys, e: Event) {
    && e.Receive? && e.w < |s.workers| && e.timestamp in s.workers[e.w].doingMap
    && var t := s.workers[e.w].doingMap[e.timestamp];
       t in s.heap && e.index == s.heap[t].totalCount
  }

  /** One callback, whatever the environment does: it touches only memory that is there, except
      for that one index, and it keeps the invariant. */
  lemma StepKeeps(s: Sys, e: Event)
    requires Inv(s) && Enabled(s, e)
    ensures Next(s, e).None? <==> Overrun(s, e)
    ensures Next(s, e).Some? ==> Inv(Next(s, e).value)
  {
    match e
    case Request(t, req, task, w) => RequestKeeps(s, t, req, task, w);
    case Pop(w, now, results) =>
      if s.workers[w].queue != [] {
        PopKeeps(s, w, now, results);
      }
    case Receive(w, ts, i, now) =>
      if ts in s.workers[w].doingMap {
        MappedTask(s, w, ts);
        if !Overrun(s, e) {
          ReceiveKeeps(s, w, ts, i, now);
        }
      }
    case Timer(w, t, i) => TimerKeeps(s, w, t, i);
    case Respond =>
      if s.responses != [] {
        RespondKeeps(s);
      }
  }

  lemma InitKeeps(n: nat)
    ensures Inv(Init(n))
  {
    forall w | 0 <= w < n ensures WorkerInv(Init(n), w) {
      assert ActiveSet(Init(n).stage, w) == {};
    }
  }

  /** A reply or a timeout writes back what its callback did to one active task, or does nothing. */
  lemma WorkShape(s: Sys, e: Event) returns (changed: bool, v: nat, u: Ref, l: Local<Ref>)
    requires Inv(s) && Enabled(s, e) && Next(s, e).Some? && (e.Receive? || e.Timer?)
    ensures changed ==>
      && v == e.w < |s.workers| && u in s.heap && u in s.stage && s.stage[u] == Active(v)
      && Outcome(LocalOf(s, v, u), l, v) && Next(s, e) == Some(Commit(s, v, u, l))
    ensures !changed ==> Next(s, e) == Some(s)
  {
    v, u, changed := e.w, 0, false;
    l := Local(Task(true, 0, 0, 0, 0, []), map[], 0, {}, 0);
    if e.Timer? {
      TimerKeeps(s, v, e.t, e.i);
      u, l, changed := e.t, HandleTimeout(LocalOf(s, v, e.t), e.i), true;
    } else if e.timestamp in s.workers[v].doingMap {
      MappedTask(s, v, e.timestamp);
      u := s.workers[v].doingMap[e.timestamp];
      StepKeeps(s, e);
      ReceiveKeeps(s, v, e.timestamp, e.index, e.now);
      if e.index < |s.heap[u].pings| && !Terminal(s.heap[u].pings[e.index]) {
        l, changed := Deliver(LocalOf(s, v, u), e.index, e.now), true;
      }
    }
  }
}
