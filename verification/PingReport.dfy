/** From the request to the answer: over every run, what a client is told is about the servers it
    asked for, and about what happened to them. */
module PingReport {
  import opened Basics
  import J = JsonValues
  import JsonRoundTrip
  import opened PingTask
  import opened PingSystem
  import opened PingRuns
  import opened ReportText
  import opened RequestMeaning
  import opened TaskReport

  // ---- A task since it was built -----------------------------------------------------------------

  /** What may have become of a task: the same servers, and the same error if any, unless it was
      turned away since. */
  predicate Follows(built: Task, t: Task) {
    && |t.pings| == |built.pings| && t.totalCount == built.totalCount
    && (forall k :: 0 <= k < |t.pings| ==> t.pings[k].ip == built.pings[k].ip)
    && ((t.prepareError == built.prepareError && t.preErrorCode == built.preErrorCode)
        || (!built.prepareError && t.prepareError && t.preErrorCode == TOO_MANY_TASKS))
  }

  lemma PopFollows(s: Sys, w: nat, now: int, results: seq<SendResult>)
    requires Inv(s) && Enabled(s, Pop(w, now, results)) && s.workers[w].queue != []
    requires s.workers[w].queue[0] in s.heap
    ensures var t := s.workers[w].queue[0];
      Follows(s.heap[t], TakeUp(s, w, now, results).heap[t])
  {
    var t := s.workers[w].queue[0];
    QueuedTask(s, w, 0);
    if s.workers[w].doingCount < DOING_TASK_CAPACITY {
      DoTaskSends(LocalOf(Accept(s, w, now), w, t), 0, w, results);
    }
  }

  lemma ReceiveFollows(s: Sys, w: nat, ts: int, i: nat, now: int, t: Ref)
    requires Enabled(s, Receive(w, ts, i, now)) && Next(s, Receive(w, ts, i, now)).Some? && t in s.heap
    ensures t in Next(s, Receive(w, ts, i, now)).value.heap
    ensures Follows(s.heap[t], Next(s, Receive(w, ts, i, now)).value.heap[t])
  {
    if ts in s.workers[w].doingMap && s.workers[w].doingMap[ts] == t && i < |s.heap[t].pings| {
      DeliverFollows(LocalOf(s, w, t), i, now);
    }
  }

  lemma TimerFollows(s: Sys, w: nat, u: Ref, i: nat, t: Ref)
    requires Enabled(s, Timer(w, u, i)) && Next(s, Timer(w, u, i)).Some? && t in s.heap
    ensures t in Next(s, Timer(w, u, i)).value.heap
    ensures Follows(s.heap[t], Next(s, Timer(w, u, i)).value.heap[t])
  {
    TimeoutFollows(LocalOf(s, w, u), i);
  }

  lemma StepFollows(s: Sys, e: Event, t: Ref)
    requires Inv(s) && Enabled(s, e) && Next(s, e).Some?
    requires t in s.heap && t in Next(s, e).value.heap
    ensures Follows(s.heap[t], Next(s, e).value.heap[t])
  {
    match e
    case Request(_, _, _, _) =>
    case Pop(w, now, results) =>
      if s.workers[w].queue != [] && s.workers[w].queue[0] == t {
        PopFollows(s, w, now, results);
      }
    case Receive(w, ts, i, now) => ReceiveFollows(s, w, ts, i, now, t);
    case Timer(w, u, i) => TimerFollows(s, w, u, i, t);
    case Respond =>
  }

  lemma DeliverFollows(l: Local<Ref>, i: nat, now: int)
    requires i < |l.task.pings|
    ensures Follows(l.task, Deliver(l, i, now).task)
  {
  }

  lemma TimeoutFollows(l: Local<Ref>, i: nat)
    requires i < |l.task.pings|
    ensures Follows(l.task, HandleTimeout(l, i).task)
  {
  }

  /** The tasks as they were built, by request. */
  function Asked(asked: map<Req, Task>, es: seq<Event>): map<Req, Task>
    decreases |es|
  {
    if es == [] then asked
    else Asked(if es[0].Request? then asked[es[0].req := es[0].task] else asked, es[1..])
  }

  /** Every task, live or answered, follows from the one built for its request. */
  predicate Faithful(s: Sys, asked: map<Req, Task>) {
    && asked.Keys == s.seen
    && (forall t :: t in s.heap && t in s.doingRequest ==>
          s.doingRequest[t] in asked && Follows(asked[s.doingRequest[t]], s.heap[t]))
    && (forall j :: 0 <= j < |s.answers| ==>
          s.answers[j].req in asked && Follows(asked[s.answers[j].req], s.answers[j].task))
  }

  lemma LiveKept(s: Sys, e: Event)
    requires Inv(s) && Enabled(s, e) && Next(s, e).Some? && !e.Request? && !e.Respond?
    ensures Next(s, e).value.heap.Keys == s.heap.Keys
  {
    StepKeeps(s, e);
    WorkKeepsRequests(s, e);
  }

  lemma WorkKeepsRequests(s: Sys, e: Event)
    requires Enabled(s, e) && Next(s, e).Some? && !e.Request? && !e.Respond?
    ensures var s' := Next(s, e).value;
      s'.doingRequest == s.doingRequest && s'.answers == s.answers && s'.seen == s.seen
  {
  }

  lemma FaithfulWork(s: Sys, e: Event, asked: map<Req, Task>)
    requires Inv(s) && Faithful(s, asked) && Enabled(s, e) && Next(s, e).Some?
    requires !e.Request? && !e.Respond?
    ensures Faithful(Next(s, e).value, asked)
  {
    var s' := Next(s, e).value;
    WorkKeepsRequests(s, e);
    LiveKept(s, e);
    forall t | t in s'.heap && t in s'.doingRequest ensures Follows(asked[s.doingRequest[t]], s'.heap[t]) {
      StepFollows(s, e, t);
    }
  }

  lemma FaithfulRequest(s: Sys, e: Event, asked: map<Req, Task>)
    requires Inv(s) && Faithful(s, asked) && Enabled(s, e) && e.Request?
    ensures Faithful(HandleRequest(s, e.t, e.req, e.task, e.w), asked[e.req := e.task])
  {
    var s' := HandleRequest(s, e.t, e.req, e.task, e.w);
    assert s'.doingRequest == s.doingRequest[e.t := e.req] && s'.answers == s.answers;
  }

  lemma FaithfulStep(s: Sys, e: Event, asked: map<Req, Task>)
    requires Inv(s) && Faithful(s, asked) && Enabled(s, e) && Next(s, e).Some?
    ensures Faithful(Next(s, e).value, if e.Request? then asked[e.req := e.task] else asked)
  {
    if e.Request? {
      FaithfulRequest(s, e, asked);
    } else if !e.Respond? {
      FaithfulWork(s, e, asked);
    }
  }

  lemma {:induction false} RunFaithful(s: Sys, es: seq<Event>, asked: map<Req, Task>)
    requires Inv(s) && Faithful(s, asked) && Possible(s, es) && Run(s, es).Some?
    ensures Faithful(Run(s, es).value, Asked(asked, es))
    decreases |es|
  {
    if es != [] {
      StepKeeps(s, es[0]);
      FaithfulStep(s, es[0], asked);
      RunFaithful(Next(s, es[0]).value, es[1..], if es[0].Request? then asked[es[0].req := es[0].task] else asked);
    }
  }

  // ---- The clocks ------------------------------------------------------------------------------------

  /** A callback of a run, and the request whose task it worked on. */
  datatype Mark = Mark(e: Event, about: Option<Req>)

  function RequestAt(s: Sys, t: Ref): Option<Req> {
    if t in s.doingRequest then Some(s.doingRequest[t]) else None
  }

  /** The task taken up, delivered to, timed out or answered, by the request it is for. */
  function About(s: Sys, e: Event): Option<Req> {
    match e
    case Request(_, req, _, _) => Some(req)
    case Pop(w, _, _) =>
      if w < |s.workers| && s.workers[w].queue != [] then RequestAt(s, s.workers[w].queue[0]) else None
    case Receive(w, ts, _, _) =>
      if w < |s.workers| && ts in s.workers[w].doingMap then RequestAt(s, s.workers[w].doingMap[ts]) else None
    case Timer(_, t, _) => RequestAt(s, t)
    case Respond => if s.responses != [] then RequestAt(s, s.responses[0]) else None
  }

  function Trace(s: Sys, es: seq<Event>): seq<Mark>
    requires Possible(s, es)
    decreases |es|
  {
    if es == [] then []
    else
      [Mark(es[0], About(s, es[0]))]
      + match Next(s, es[0])
        case None => []
        case Some(s') => Trace(s', es[1..])
  }

  /** A ping's times are those its worker read: when it was sent, as the task of its own request was
      taken up, and when the reply delivered to that task came. */
  ghost predicate Clocked(past: seq<Mark>, req: Req, ts: int, k: nat, p: Ping) {
    && (p.status == Doing || p.status == Success ==>
          && p.worker.Some?
          && exists results :: Mark(Pop(p.worker.value, ts, results), Some(req)) in past
                               && k < |results| && results[k] == Sent(p.sendtime))
    && (p.status == Success ==> Mark(Receive(p.worker.value, ts, k, p.recvtime), Some(req)) in past)
  }

  ghost predicate AllClocked(past: seq<Mark>, req: Req, t: Task) {
    forall k :: 0 <= k < |t.pings| ==> Clocked(past, req, t.timestamp, k, t.pings[k])
  }

  lemma ClockedLater(past: seq<Mark>, m: Mark, req: Req, t: Task)
    requires AllClocked(past, req, t)
    ensures AllClocked(past + [m], req, t)
  {
    forall k | 0 <= k < |t.pings| ensures Clocked(past + [m], req, t.timestamp, k, t.pings[k]) {
      var p := t.pings[k];
      assert Clocked(past, req, t.timestamp, k, p);
      if p.status == Doing || p.status == Success {
        var results :| Mark(Pop(p.worker.value, t.timestamp, results), Some(req)) in past
                       && k < |results| && results[k] == Sent(p.sendtime);
        assert Mark(Pop(p.worker.value, t.timestamp, results), Some(req)) in past + [m];
      }
    }
  }

  lemma PopClocked(s: Sys, w: nat, now: int, results: seq<SendResult>, past: seq<Mark>)
    requires Inv(s) && Enabled(s, Pop(w, now, results)) && s.workers[w].queue != []
    requires s.workers[w].queue[0] in s.heap && s.workers[w].queue[0] in s.doingRequest
    ensures var t := s.workers[w].queue[0];
      AllClocked(past + [Mark(Pop(w, now, results), Some(s.doingRequest[t]))], s.doingRequest[t],
                 TakeUp(s, w, now, results).heap[t])
  {
    var t := s.workers[w].queue[0];
    QueuedTask(s, w, 0);
    if s.workers[w].doingCount < DOING_TASK_CAPACITY {
      DoTaskSends(LocalOf(Accept(s, w, now), w, t), 0, w, results);
      AttemptsClocked(past, s.doingRequest[t], w, now, results, s.heap[t].pings, TakeUp(s, w, now, results).heap[t]);
    }
  }

  lemma AttemptsClocked(past: seq<Mark>, req: Req, w: nat, now: int, results: seq<SendResult>, unsent: seq<Ping>,
                        task: Task)
    requires |unsent| == |results| == |task.pings| && task.timestamp == now
    requires forall k :: 0 <= k < |results| ==>
      unsent[k].status == Uninited && task.pings[k] == Attempted(unsent[k], w, results[k])
    ensures AllClocked(past + [Mark(Pop(w, now, results), Some(req))], req, task)
  {
    var after := past + [Mark(Pop(w, now, results), Some(req))];
    assert after[|past|] == Mark(Pop(w, now, results), Some(req));
    forall k | 0 <= k < |task.pings| ensures Clocked(after, req, now, k, task.pings[k]) {
      assert task.pings[k] == Attempted(unsent[k], w, results[k]);
    }
  }

  lemma ReceiveClocked(s: Sys, w: nat, ts: int, i: nat, now: int, req: Req, past: seq<Mark>)
    requires Inv(s) && w < |s.workers| && ts in s.workers[w].doingMap && Mapped(s, w, ts)
    requires var t := s.workers[w].doingMap[ts];
      i < |s.heap[t].pings| && !Terminal(s.heap[t].pings[i]) && AllClocked(past, req, s.heap[t])
    ensures var t := s.workers[w].doingMap[ts];
      AllClocked(past + [Mark(Receive(w, ts, i, now), Some(req))], req, Deliver(LocalOf(s, w, t), i, now).task)
  {
    var t := s.workers[w].doingMap[ts];
    var m := Mark(Receive(w, ts, i, now), Some(req));
    var after := past + [m];
    MappedTask(s, w, ts);
    ClockedLater(past, m, req, s.heap[t]);
    assert after[|past|] == m;
    assert Clocked(after, req, ts, i, s.heap[t].pings[i]);
  }

  lemma StepClocked(s: Sys, e: Event, t: Ref, past: seq<Mark>)
    requires Inv(s) && Enabled(s, e) && Next(s, e).Some?
    requires t in s.heap && t in s.doingRequest && t in Next(s, e).value.heap
    requires AllClocked(past, s.doingRequest[t], s.heap[t])
    ensures AllClocked(past + [Mark(e, About(s, e))], s.doingRequest[t], Next(s, e).value.heap[t])
  {
    var m := Mark(e, About(s, e));
    ClockedLater(past, m, s.doingRequest[t], s.heap[t]);
    match e
    case Request(_, _, _, _) =>
    case Pop(w, now, results) =>
      if s.workers[w].queue != [] && s.workers[w].queue[0] == t {
        PopClocked(s, w, now, results, past);
      }
    case Receive(w, ts, i, now) =>
      if ts in s.workers[w].doingMap && s.workers[w].doingMap[ts] == t && i < |s.heap[t].pings|
         && !Terminal(s.heap[t].pings[i]) {
        MappedTask(s, w, ts);
        ReceiveClocked(s, w, ts, i, now, s.doingRequest[t], past);
      }
    case Timer(w, u, i) => TimerClocked(s, w, u, i, t, s.doingRequest[t], past + [m]);
    case Respond =>
  }

  lemma TimerClocked(s: Sys, w: nat, u: Ref, i: nat, t: Ref, req: Req, past: seq<Mark>)
    requires Enabled(s, Timer(w, u, i)) && Next(s, Timer(w, u, i)).Some?
    requires t in s.heap && AllClocked(past, req, s.heap[t])
    ensures t in Next(s, Timer(w, u, i)).value.heap
    ensures AllClocked(past, req, Next(s, Timer(w, u, i)).value.heap[t])
  {
    var q := Next(s, Timer(w, u, i)).value.heap[t];
    forall k | 0 <= k < |q.pings| ensures Clocked(past, req, q.timestamp, k, q.pings[k]) {
      assert Clocked(past, req, s.heap[t].timestamp, k, s.heap[t].pings[k]);
    }
  }

  ghost predicate AllTimed(s: Sys, past: seq<Mark>) {
    && (forall t :: t in s.heap && t in s.doingRequest ==> AllClocked(past, s.doingRequest[t], s.heap[t]))
    && (forall j :: 0 <= j < |s.answers| ==> AllClocked(past, s.answers[j].req, s.answers[j].task))
  }

  lemma TimedStep(s: Sys, e: Event, past: seq<Mark>)
    requires Inv(s) && AllTimed(s, past) && Enabled(s, e) && Next(s, e).Some?
    ensures AllTimed(Next(s, e).value, past + [Mark(e, About(s, e))])
  {
    var s' := Next(s, e).value;
    var m := Mark(e, About(s, e));
    forall t | t in s'.heap && t in s'.doingRequest
      ensures AllClocked(past + [m], s'.doingRequest[t], s'.heap[t])
    {
      SameRequest(s, e, t);
      if t in s.doingRequest {
        StepClocked(s, e, t, past);
      }
    }
    forall j | 0 <= j < |s'.answers| ensures AllClocked(past + [m], s'.answers[j].req, s'.answers[j].task) {
      if j < |s.answers| {
        assert s'.answers[j] == s.answers[j];
        ClockedLater(past, m, s.answers[j].req, s.answers[j].task);
      } else {
        ClockedLater(past, m, s.doingRequest[s.responses[0]], s.heap[s.responses[0]]);
      }
    }
  }

  lemma {:induction false} RunTimed(s: Sys, es: seq<Event>, past: seq<Mark>)
    requires Inv(s) && AllTimed(s, past) && Possible(s, es) && Run(s, es).Some?
    ensures AllTimed(Run(s, es).value, past + Trace(s, es))
    decreases |es|
  {
    if es == [] {
      assert past + Trace(s, es) == past;
    } else {
      var m := Mark(es[0], About(s, es[0]));
      StepKeeps(s, es[0]);
      TimedStep(s, es[0], past);
      RunTimed(Next(s, es[0]).value, es[1..], past + [m]);
      assert past + [m] + Trace(Next(s, es[0]).value, es[1..]) == past + Trace(s, es);
    }
  }

  /** The task of a request seen has left its queue. */
  predicate PastQueue(s: Sys, req: Req) {
    req in s.seen
    && forall t :: t in s.doingRequest && t in s.stage && s.doingRequest[t] == req ==> !s.stage[t].Queued?
  }

  lemma PastQueueStep(s: Sys, e: Event, req: Req)
    requires Inv(s) && PastQueue(s, req) && Enabled(s, e) && Next(s, e).Some?
    ensures PastQueue(Next(s, e).value, req)
  {
    if e.Pop? && s.workers[e.w].queue != [] {
      QueuedTask(s, e.w, 0);
    }
  }

  lemma PopIsPast(s: Sys, e: Event, req: Req)
    requires Inv(s) && Enabled(s, e) && Next(s, e).Some? && e.Pop? && About(s, e) == Some(req)
    ensures PastQueue(Next(s, e).value, req) && !PastQueue(s, req)
  {
    QueuedTask(s, e.w, 0);
  }

  predicate TakesUp(m: Mark, req: Req) {
    m.e.Pop? && m.about == Some(req)
  }

  lemma {:induction false} NeverAgain(s: Sys, es: seq<Event>, req: Req, k: nat)
    requires Inv(s) && Possible(s, es) && PastQueue(s, req) && k < |Trace(s, es)|
    ensures !TakesUp(Trace(s, es)[k], req)
    decreases |es|
  {
    StepKeeps(s, es[0]);
    if Next(s, es[0]).Some? {
      if k == 0 {
        if TakesUp(Trace(s, es)[0], req) {
          PopIsPast(s, es[0], req);
        }
      } else {
        PastQueueStep(s, es[0], req);
        NeverAgain(Next(s, es[0]).value, es[1..], req, k - 1);
      }
    }
  }

  /** On any run a request's task is taken up at most once, so the callback that took it up is one. */
  lemma {:induction false} TakenUpOnce(s: Sys, es: seq<Event>, req: Req, i: nat, j: nat)
    requires Inv(s) && Possible(s, es) && i < j < |Trace(s, es)|
    ensures !(TakesUp(Trace(s, es)[i], req) && TakesUp(Trace(s, es)[j], req))
    decreases |es|
  {
    StepKeeps(s, es[0]);
    if Next(s, es[0]).Some? {
      var s' := Next(s, es[0]).value;
      if i > 0 {
        TakenUpOnce(s', es[1..], req, i - 1, j - 1);
      } else if TakesUp(Trace(s, es)[0], req) {
        PopIsPast(s, es[0], req);
        NeverAgain(s', es[1..], req, j - 1);
      }
    }
  }

  // ---- What was asked -------------------------------------------------------------------------------

  /** A request as it came in; `body` is None when the payload is not JSON. */
  datatype Submission = Submission(post: bool, body: Option<J.Value>)

  /** Every task of the run was built by the handler from what was submitted. */
  predicate Submitted(es: seq<Event>, subs: map<Req, Submission>) {
    forall k :: 0 <= k < |es| && es[k].Request? ==>
      && es[k].req in subs
      && (subs[es[k].req].body.Some? ==> J.WF(subs[es[k].req].body.value))
      && FromRequest(subs[es[k].req].post, subs[es[k].req].body) == Built(es[k].task)
  }

  /** The task built for a submission. */
  predicate BuiltFor(sub: Submission, task: Task) {
    (sub.body.Some? ==> J.WF(sub.body.value)) && FromRequest(sub.post, sub.body) == Built(task)
  }

  lemma {:induction false} AskedIsBuilt(asked: map<Req, Task>, es: seq<Event>, subs: map<Req, Submission>)
    requires Submitted(es, subs)
    requires forall req :: req in asked ==> req in subs && BuiltFor(subs[req], asked[req])
    ensures forall req :: req in Asked(asked, es) ==> req in subs && BuiltFor(subs[req], Asked(asked, es)[req])
    decreases |es|
  {
    if es != [] {
      assert forall k :: 0 <= k < |es[1..]| ==> es[1..][k] == es[k + 1];
      AskedIsBuilt(if es[0].Request? then asked[es[0].req := es[0].task] else asked, es[1..], subs);
    }
  }

  /** Whatever request comes in, the task built for it is one the protocol admits. */
  lemma RequestsAdmissible(post: bool, body: Option<J.Value>)
    requires body.Some? ==> J.WF(body.value)
    requires FromRequest(post, body).Built?
    ensures Admissible(FromRequest(post, body).task)
  {
    if post && body.Some? {
      ReadIsFresh(body.value);
    }
  }

  // ---- The answers of a run --------------------------------------------------------------------------

  /** An answer of a run belongs to a submission, follows from the task built for it, and carries the
      times its worker read; it is an error or complete. */
  lemma AnswerOrigin(n: nat, es: seq<Event>, subs: map<Req, Submission>, j: nat) returns (built: Task)
    requires Possible(Init(n), es) && Run(Init(n), es).Some? && Submitted(es, subs)
    requires j < |Run(Init(n), es).value.answers|
    ensures var a := Run(Init(n), es).value.answers[j];
      && a.req in subs && BuiltFor(subs[a.req], built) && Follows(built, a.task)
      && AllClocked(Trace(Init(n), es), a.req, a.task) && (a.task.prepareError || Complete(a.task))
  {
    InitKeeps(n);
    RunKeeps(Init(n), es);
    RunFaithful(Init(n), es, map[]);
    RunTimed(Init(n), es, []);
    assert [] + Trace(Init(n), es) == Trace(Init(n), es);
    AskedIsBuilt(map[], es, subs);
    built := Asked(map[], es)[Run(Init(n), es).value.answers[j].req];
  }

  /** Over any run, which answers are HTTP errors and which carry a report: 405 exactly for a request
      that is not a POST, 415 exactly for a POST that is not JSON, and a report for every other; an
      error in it is the one the body deserves, or that the task was turned away. */
  lemma RunResponses(n: nat, es: seq<Event>, subs: map<Req, Submission>, j: nat)
    requires Possible(Init(n), es) && Run(Init(n), es).Some? && Submitted(es, subs)
    requires j < |Run(Init(n), es).value.answers|
    ensures var a := Run(Init(n), es).value.answers[j];
      && a.req in subs
      && var sub, r := subs[a.req], TaskReport.Respond(a.task);
         && (r == HttpError(405) <==> !sub.post)
         && (r == HttpError(415) <==> sub.post && sub.body.None?)
         && (r == Body(Report(a.task)) <==> sub.post && sub.body.Some?)
         && (sub.post && sub.body.Some? && a.task.prepareError ==>
               ReadTask(sub.body.value).Built? &&
               (if ReadTask(sub.body.value).task.prepareError
                then RefusedWith(ReadTask(sub.body.value), a.task.preErrorCode)
                else a.task.preErrorCode == 1005)
               && SaysError(Report(a.task), a.task.preErrorCode))
  {
    var built := AnswerOrigin(n, es, subs, j);
    var sub := subs[Run(Init(n), es).value.answers[j].req];
    if sub.post && sub.body.Some? {
      ReadIsFresh(sub.body.value);
      ErrorCodes(sub.body.value);
      if Run(Init(n), es).value.answers[j].task.prepareError {
        RefusalSaysError(Run(Init(n), es).value.answers[j].task);
      }
    }
  }

  lemma ErrorCodes(body: J.Value)
    ensures ReadTask(body).Built? && !ReadTask(body).task.prepareError ==> ReadTask(body).task.preErrorCode == 0
  {
  }

  /** Every report of a run is a value the writers accept. */
  lemma RunWritable(n: nat, es: seq<Event>, subs: map<Req, Submission>, j: nat)
    requires Possible(Init(n), es) && Run(Init(n), es).Some? && Submitted(es, subs)
    requires j < |Run(Init(n), es).value.answers|
    ensures JsonRoundTrip.Writable(Report(Run(Init(n), es).value.answers[j].task))
  {
    var built := AnswerOrigin(n, es, subs, j);
    var a := Run(Init(n), es).value.answers[j];
    BuiltClean(subs[a.req], built);
    ReportWritable(a.task);
  }

  lemma BuiltClean(sub: Submission, built: Task)
    requires BuiltFor(sub, built)
    ensures CleanIps(built.pings)
  {
    if sub.post && sub.body.Some? {
      ReadIsFresh(sub.body.value);
      forall k | 0 <= k < |built.pings| ensures '\0' !in built.pings[k].ip {
        StringsAreClean(J.At(Member(sub.body.value, "servers").value.m, k));
      }
    }
  }

  lemma StringsAreClean(v: J.Value)
    ensures AsString(v).Some? ==> '\0' !in AsString(v).value
  {
  }

  /** The servers of a body that is an object with an array of them. */
  function Servers(sub: Submission): J.Entries {
    if sub.body.Some? && sub.body.value.Obj? then
      match J.Lookup(sub.body.value.m, J.Name("servers"))
      case Some(Arr(m)) => m
      case _ => J.End
    else J.End
  }

  /** What entry `k` of the answer to `req` says about the server in slot `k`: its address as it stands
      there, and, exactly when a reply ended its ping, loss rate 0 and the time between the send and that
      reply: the send as the task of `req` was taken up, the reply one with the timestamp and the index
      then sent that was delivered to the task of `req`, both times read by the same worker. */
  ghost predicate Truthful(trace: seq<Mark>, req: Req, entry: J.Value, servers: J.Entries, k: nat, ts: int,
                           replied: bool)
  {
    && entry.Obj?
    && (exists s :: SlotSays(servers, k, s) && Has(entry, "ip", J.Str(J.Chars(s))))
    && Has(entry, "lossRate", J.Real(if replied then 0.0 else 1.0))
    && if !replied then J.Lookup(entry.m, J.Name("avgRtt")) == None
       else exists w, sends, sent, received ::
              && Mark(Pop(w, ts, sends), Some(req)) in trace && k < |sends| && sends[k] == Sent(sent)
              && Mark(Receive(w, ts, k, received), Some(req)) in trace
              && Has(entry, "avgRtt", J.Real((received - sent) as real / 1000.0))
  }

  /** There is such an entry. */
  ghost predicate EntryTrue(report: J.Value, trace: seq<Mark>, req: Req, servers: J.Entries, k: nat, ts: int,
                            replied: bool)
  {
    exists entry :: EntryIs(report, k, entry) && Truthful(trace, req, entry, servers, k, ts, replied)
  }

  /** Over any run, a report that is no error has exactly one entry for each server of the request it
      answers, in the request's order, and each entry is truthful about what happened. */
  lemma RunReports(n: nat, es: seq<Event>, subs: map<Req, Submission>, j: nat)
    requires Possible(Init(n), es) && Run(Init(n), es).Some? && Submitted(es, subs)
    requires j < |Run(Init(n), es).value.answers| && !Run(Init(n), es).value.answers[j].task.prepareError
    ensures var a := Run(Init(n), es).value.answers[j];
      var results := Get(Report(a.task), "results");
      && a.req in subs
      && Has(Report(a.task), "success", J.Bool(true)) && Has(Report(a.task), "errMsg", J.Str(J.Chars("")))
      && results.Arr? && J.ArraySize(results.m) == J.ArraySize(Servers(subs[a.req])) == |a.task.pings|
      && forall k :: 0 <= k < |a.task.pings| ==>
           EntryTrue(Report(a.task), Trace(Init(n), es), a.req, Servers(subs[a.req]), k, a.task.timestamp,
                     a.task.pings[k].log == [Reply])
  {
    var built := AnswerOrigin(n, es, subs, j);
    var a := Run(Init(n), es).value.answers[j];
    var sub, trace := subs[a.req], Trace(Init(n), es);
    assert sub.post && sub.body.Some?;
    ReadIsFresh(sub.body.value);
    FinalReport(a.task);
    forall k | 0 <= k < |a.task.pings|
      ensures EntryTrue(Report(a.task), trace, a.req, Servers(sub), k, a.task.timestamp,
                        a.task.pings[k].log == [Reply])
    {
      BuiltAddress(sub, built, k);
      assert a.task.pings[k].ip == built.pings[k].ip;
      EntryTruthful(trace, a.req, a.task, Servers(sub), k);
    }
  }

  lemma BuiltAddress(sub: Submission, built: Task, k: nat)
    requires BuiltFor(sub, built) && sub.post && sub.body.Some? && !built.prepareError && k < |built.pings|
    ensures SlotSays(Servers(sub), k, built.pings[k].ip)
  {
    ReadIsFresh(sub.body.value);
    MemberWellFormed(sub.body.value.m, J.Name("servers"));
    SlotMeans(Servers(sub), k, built.pings[k].ip);
  }

  lemma EntryTruthful(trace: seq<Mark>, req: Req, t: Task, servers: J.Entries, k: nat)
    requires !t.prepareError && Complete(t) && k < |t.pings| && Clocked(trace, req, t.timestamp, k, t.pings[k])
    requires SlotSays(servers, k, t.pings[k].ip)
    ensures EntryTrue(Report(t), trace, req, servers, k, t.timestamp, t.pings[k].log == [Reply])
  {
    var entry := EntryFound(t, k);
    EntryOfTruthful(trace, req, entry, servers, k, t.timestamp, t.pings[k]);
  }

  lemma EntryOfTruthful(trace: seq<Mark>, req: Req, entry: J.Value, servers: J.Entries, k: nat, ts: int, p: Ping)
    requires EntryOf(entry, p) && PingOk(p) && Clocked(trace, req, ts, k, p) && SlotSays(servers, k, p.ip)
    ensures Truthful(trace, req, entry, servers, k, ts, p.log == [Reply])
  {
    if p.log == [Reply] {
      assert p.status == Success;
      var sends :| Mark(Pop(p.worker.value, ts, sends), Some(req)) in trace
                   && k < |sends| && sends[k] == Sent(p.sendtime);
      assert Mark(Receive(p.worker.value, ts, k, p.recvtime), Some(req)) in trace;
    }
  }
}
