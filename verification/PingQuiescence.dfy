/** Progress for every schedule: there is a measure of the work still to be done, every callback that
    changes anything and is not a new request lowers it, and when it is used up every request whose
    task has a server has its answer. */
module PingQuiescence {
  import opened Basics
  import opened PingTask
  import opened PingSystem
  import opened PingRuns
  import opened PingIndex
  import opened PingProgress

  // ---- Sums over a map --------------------------------------------------------------------------

  ghost function Pick<K, V>(m: map<K, V>): (k: K)
    requires m != map[]
    ensures k in m
  {
    assert m.Keys != {};
    var k :| k in m;
    k
  }

  ghost function Total<K>(m: map<K, nat>): nat
    decreases |m|
  {
    if m == map[] then 0
    else
      Shrinks(m, Pick(m));
      m[Pick(m)] + Total(m - {Pick(m)})
  }

  lemma Shrinks<K, V>(m: map<K, V>, k: K)
    requires k in m
    ensures |m - {k}| < |m|
  {
    assert (m - {k}).Keys == m.Keys - {k};
    assert |m.Keys - {k}| < |m.Keys|;
  }

  lemma {:induction false} TotalSplit<K>(m: map<K, nat>, k: K)
    requires k in m
    ensures Total(m) == m[k] + Total(m - {k})
    decreases |m|
  {
    var x := Pick(m);
    if x != k {
      Shrinks(m, x);
      Shrinks(m, k);
      TotalSplit(m - {x}, k);
      TotalSplit(m - {k}, x);
      assert m - {x} - {k} == m - {k} - {x};
    }
  }

  lemma TotalUpdate<K>(m: map<K, nat>, n: map<K, nat>, k: K)
    requires k in m && n.Keys == m.Keys && forall j :: j in m && j != k ==> n[j] == m[j]
    ensures Total(n) == Total(m) - m[k] + n[k]
  {
    TotalSplit(m, k);
    TotalSplit(n, k);
    assert n - {k} == m - {k};
  }

  lemma {:induction false} TotalZero<K>(m: map<K, nat>)
    ensures Total(m) == 0 <==> forall k :: k in m ==> m[k] == 0
    decreases |m|
  {
    if m != map[] {
      var x := Pick(m);
      Shrinks(m, x);
      TotalZero(m - {x});
      assert forall k :: k in m && k != x ==> (m - {x})[k] == m[k];
      assert forall k :: k in m - {x} ==> k in m;
    }
  }

  // ---- The work still to be done --------------------------------------------------------------------

  /** How many callbacks a task can still see to: being taken up, each ping's end and the hand-off, being
      answered. */
  function Weight(g: Stage, t: Task): nat
    requires t.doneCount <= t.totalCount == |t.pings| || g.Answering?
  {
    match g
    case Queued(_) => |t.pings| + 2
    case Active(_) => t.totalCount - t.doneCount + if t.totalCount > 0 then 1 else 0
    case Answering => 1
  }

  lemma Weighable(s: Sys, t: Ref)
    requires Inv(s) && t in s.heap
    ensures t in s.stage
    ensures s.heap[t].doneCount <= s.heap[t].totalCount == |s.heap[t].pings| || s.stage[t].Answering?
  {
    assert TaskInv(s, t);
  }

  function Weights(s: Sys): (m: map<Ref, nat>)
    requires Inv(s)
    ensures m.Keys == s.heap.Keys
  {
    map t | t in s.heap :: Weighable(s, t); Weight(s.stage[t], s.heap[t])
  }

  ghost function Work(s: Sys): nat
    requires Inv(s)
  {
    Total(Weights(s))
  }

  /** A callback that touches one task changes the work by that task's weight. */
  lemma OneTask(s: Sys, s': Sys, t: Ref)
    requires Inv(s) && Inv(s') && s'.heap.Keys == s.heap.Keys && t in s.heap
    requires forall u :: u in s.heap && u != t ==> s'.heap[u] == s.heap[u]
    requires forall u :: u in s.stage && u in s'.stage && u != t ==> s'.stage[u] == s.stage[u]
    ensures Work(s') == Work(s) - Weights(s)[t] + Weights(s')[t]
  {
    forall u | u in s.heap && u != t ensures Weights(s')[u] == Weights(s)[u] {
      SameWeight(s, s', u);
    }
    TotalUpdate(Weights(s), Weights(s'), t);
  }

  lemma SameWeight(s: Sys, s': Sys, u: Ref)
    requires Inv(s) && Inv(s') && u in s.heap && u in s'.heap && s'.heap[u] == s.heap[u]
    requires u in s.stage && u in s'.stage && s'.stage[u] == s.stage[u]
    ensures Weights(s')[u] == Weights(s)[u]
  {
    Weighable(s, u);
    Weighable(s', u);
  }

  /** Ending one ping of an active task is one unit of work, whether or not it hands the task off. */
  lemma CreditLowers(s: Sys, w: nat, t: Ref, l: Local<Ref>)
    requires Inv(s) && w < |s.workers| && t in s.heap && s.stage[t] == Active(w)
    requires Outcome(LocalOf(s, w, t), l, w) && l.task.doneCount == s.heap[t].doneCount + 1
    requires Inv(Commit(s, w, t, l))
    ensures Work(Commit(s, w, t, l)) < Work(s)
  {
    var s' := Commit(s, w, t, l);
    assert TaskInv(s, t);
    Weighable(s', t);
    OneTask(s, s', t);
  }

  lemma PopWeight(s: Sys, s': Sys, w: nat, t: Ref)
    requires Inv(s) && Inv(s') && t in s.heap && t in s'.heap && t in s.stage && t in s'.stage
    requires s.stage[t] == Queued(w) && (s'.stage[t] == Active(w) || s'.stage[t] == Answering)
    requires s'.heap[t].totalCount == s.heap[t].totalCount
    ensures Weights(s')[t] < Weights(s)[t]
  {
    Weighable(s, t);
    Weighable(s', t);
    assert TaskInv(s', t);
  }

  lemma PopLowers(s: Sys, w: nat, now: int, results: seq<SendResult>)
    requires Inv(s) && Enabled(s, Pop(w, now, results)) && s.workers[w].queue != []
    ensures Next(s, Pop(w, now, results)).Some? && Inv(Next(s, Pop(w, now, results)).value)
    ensures Work(Next(s, Pop(w, now, results)).value) < Work(s)
  {
    PopOne(s, w, now, results);
    QueuedTask(s, w, 0);
    var t := s.workers[w].queue[0];
    var s' := Next(s, Pop(w, now, results)).value;
    PopWeight(s, s', w, t);
    OneTask(s, s', t);
  }

  lemma RespondLowers(s: Sys)
    requires Inv(s) && s.responses != []
    ensures Next(s, Respond).Some? && Inv(Next(s, Respond).value)
    ensures Work(Next(s, Respond).value) < Work(s)
  {
    RespondKeeps(s);
    var t := s.responses[0];
    var s' := Next(s, Respond).value;
    assert t in s.responses;
    assert Weights(s') == Weights(s) - {t};
    TotalSplit(Weights(s), t);
  }

  lemma ReceiveLowers(s: Sys, w: nat, ts: int, i: nat, now: int)
    requires Inv(s) && w < |s.workers| && Next(s, Receive(w, ts, i, now)).Some?
    ensures var s' := Next(s, Receive(w, ts, i, now)).value;
      s' == s || (Inv(s') && Work(s') < Work(s))
  {
    StepKeeps(s, Receive(w, ts, i, now));
    if ts in s.workers[w].doingMap {
      MappedTask(s, w, ts);
      var t := s.workers[w].doingMap[ts];
      ReceiveKeeps(s, w, ts, i, now);
      if i < |s.heap[t].pings| && !Terminal(s.heap[t].pings[i]) {
        DeliverKeeps(LocalOf(s, w, t), i, now, w);
        CreditLowers(s, w, t, Deliver(LocalOf(s, w, t), i, now));
      }
    }
  }

  lemma TimerLowers(s: Sys, w: nat, t: Ref, i: nat)
    requires Inv(s) && Enabled(s, Timer(w, t, i))
    ensures Next(s, Timer(w, t, i)).Some? && Inv(Next(s, Timer(w, t, i)).value)
    ensures Work(Next(s, Timer(w, t, i)).value) < Work(s)
  {
    TimerKeeps(s, w, t, i);
    TimedTask(s, w, t, i);
    TimeoutKeeps(LocalOf(s, w, t), i, w);
    CreditLowers(s, w, t, HandleTimeout(LocalOf(s, w, t), i));
  }

  /** Every callback that is no new request changes nothing or leaves less to do. */
  lemma StepLowers(s: Sys, e: Event)
    requires Inv(s) && Enabled(s, e) && Next(s, e).Some? && !e.Request?
    ensures Next(s, e).value == s || (Inv(Next(s, e).value) && Work(Next(s, e).value) < Work(s))
  {
    match e
    case Request(_, _, _, _) =>
    case Pop(w, now, results) =>
      if s.workers[w].queue != [] {
        PopLowers(s, w, now, results);
      }
    case Receive(w, ts, i, now) => ReceiveLowers(s, w, ts, i, now);
    case Timer(w, t, i) => TimerLowers(s, w, t, i);
    case Respond =>
      if s.responses != [] {
        RespondLowers(s);
      }
  }

  // ---- When nothing is left to do -------------------------------------------------------------------

  /** Every live task is active without a server. */
  predicate OnlyEmpty(s: Sys) {
    forall t :: t in s.heap ==> EmptyActive(s, t)
  }

  predicate EmptyActive(s: Sys, t: Ref)
    requires t in s.heap
  {
    t in s.stage && s.stage[t].Active? && s.heap[t].totalCount == 0
  }

  /** No callback but a new request, and no reply past the end of an array, can change anything. */
  ghost predicate Quiet(s: Sys) {
    forall e :: Enabled(s, e) && !e.Request? && Next(s, e).Some? ==> Next(s, e).value == s
  }

  lemma NoWork(s: Sys)
    requires Inv(s)
    ensures Work(s) == 0 <==> OnlyEmpty(s)
  {
    TotalZero(Weights(s));
    forall t | t in s.heap ensures Weights(s)[t] == 0 <==> EmptyActive(s, t) {
      assert TaskInv(s, t);
      Weighable(s, t);
    }
    var m := Weights(s);
    assert forall t :: t in m <==> t in s.heap;
    if OnlyEmpty(s) {
      assert forall t :: t in m ==> m[t] == 0;
    } else {
      var t: int :| t in s.heap && !EmptyActive(s, t);
      assert t in m && m[t] != 0;
    }
  }

  /** While anything is left to do, some callback that is no request does some of it. */
  lemma SomethingToDo(s: Sys) returns (e: Event)
    requires Inv(s) && !OnlyEmpty(s)
    ensures Enabled(s, e) && !e.Request? && Next(s, e).Some? && Next(s, e).value != s
  {
    var t: int :| t in s.heap && !EmptyActive(s, t);
    assert TaskInv(s, t);
    match s.stage[t] {
      case Queued(w) =>
        QueuedTask(s, w, 0);
        e := Pop(w, 0, seq(|s.heap[s.workers[w].queue[0]].pings|, _ => BadAddress));
        PopLowers(s, w, e.now, e.results);
      case Active(w) =>
        var i := SomeTimer(s, w, t);
        e := Timer(w, t, i);
        TimerLowers(s, w, t, i);
      case Answering =>
        e := Respond;
        RespondLowers(s);
    }
  }

  /** The service is at rest, but for new requests, exactly when no work is left, and then every live task
      is an active one without servers. */
  lemma QuietIff(s: Sys)
    requires Inv(s)
    ensures Quiet(s) <==> Work(s) == 0
    ensures Quiet(s) <==> OnlyEmpty(s)
  {
    NoWork(s);
    if OnlyEmpty(s) {
      forall e | Enabled(s, e) && !e.Request? && Next(s, e).Some? ensures Next(s, e).value == s {
        StepLowers(s, e);
      }
      assert Quiet(s);
    } else {
      var e := SomethingToDo(s);
      assert !Quiet(s);
    }
  }

  /** Queues empty, responses empty and no timer armed: no live task has a server. */
  lemma NothingArmed(s: Sys)
    requires Inv(s) && s.responses == []
    requires forall w :: 0 <= w < |s.workers| ==> s.workers[w].queue == [] && s.workers[w].timers == {}
    ensures OnlyEmpty(s)
  {
    forall t | t in s.heap ensures EmptyActive(s, t) {
      assert TaskInv(s, t);
      if s.stage[t].Active? && s.heap[t].totalCount > 0 {
        var i := SomeTimer(s, s.stage[t].w, t);
      }
    }
  }

  // ---- Every run ------------------------------------------------------------------------------------------

  predicate NoRequests(es: seq<Event>) {
    forall k :: 0 <= k < |es| ==> !es[k].Request?
  }

  /** How many callbacks of the run changed anything. */
  function Changes(s: Sys, es: seq<Event>): nat
    requires Possible(s, es)
    decreases |es|
  {
    if es == [] || Next(s, es[0]).None? then 0
    else (if Next(s, es[0]).value == s then 0 else 1) + Changes(Next(s, es[0]).value, es[1..])
  }

  lemma {:induction false} RunLowers(s: Sys, es: seq<Event>)
    requires Inv(s) && Possible(s, es) && Run(s, es).Some? && NoRequests(es)
    ensures Inv(Run(s, es).value) && Work(Run(s, es).value) + Changes(s, es) <= Work(s)
    decreases |es|
  {
    if es != [] {
      StepKeeps(s, es[0]);
      StepLowers(s, es[0]);
      assert NoRequests(es[1..]);
      RunLowers(Next(s, es[0]).value, es[1..]);
    }
  }

  /** A task that has a server, or is handed off, stays so while it lives. */
  predicate StaysDue(s: Sys, t: Ref, req: Req) {
    t in s.doingRequest && s.doingRequest[t] == req ==>
      t in s.heap && t in s.stage && (s.heap[t].totalCount > 0 || s.stage[t].Answering?)
  }

  predicate SoleHolder(s: Sys, t: Ref, req: Req) {
    req in s.seen && forall u :: u in s.doingRequest && s.doingRequest[u] == req ==> u == t
  }

  lemma DueWork(s: Sys, e: Event, t: Ref, req: Req)
    requires Inv(s) && StaysDue(s, t, req) && Enabled(s, e) && Next(s, e).Some? && (e.Receive? || e.Timer?)
    ensures StaysDue(Next(s, e).value, t, req)
  {
    var changed, v, u, l := WorkShape(s, e);
  }

  lemma DueStep(s: Sys, e: Event, t: Ref, req: Req)
    requires Inv(s) && StaysDue(s, t, req) && SoleHolder(s, t, req) && Enabled(s, e) && Next(s, e).Some?
    requires !e.Request?
    ensures StaysDue(Next(s, e).value, t, req) && SoleHolder(Next(s, e).value, t, req)
  {
    StepSeen(s, e);
    forall u | u in Next(s, e).value.doingRequest && Next(s, e).value.doingRequest[u] == req ensures u == t {
      SameRequest(s, e, u);
    }
    match e
    case Pop(w, now, results) =>
      if s.workers[w].queue != [] {
        PopOne(s, w, now, results);
      }
    case Receive(_, _, _, _) => DueWork(s, e, t, req);
    case Timer(_, _, _) => DueWork(s, e, t, req);
    case Respond =>
  }

  lemma {:induction false} RunDue(s: Sys, es: seq<Event>, t: Ref, req: Req)
    requires Inv(s) && StaysDue(s, t, req) && SoleHolder(s, t, req) && NoRequests(es)
    requires Possible(s, es) && Run(s, es).Some?
    ensures StaysDue(Run(s, es).value, t, req) && SoleHolder(Run(s, es).value, t, req)
    decreases |es|
  {
    if es != [] {
      StepKeeps(s, es[0]);
      DueStep(s, es[0], t, req);
      assert NoRequests(es[1..]);
      RunDue(Next(s, es[0]).value, es[1..], t, req);
    }
  }

  /** Whatever the schedule: a run without further requests in which as many callbacks changed something
      as there was work at its start has answered every request whose task has a server or was on its
      way back, and no such run can change more. */
  lemma AllAnswered(s: Sys, es: seq<Event>, t: Ref)
    requires Inv(s) && Possible(s, es) && Run(s, es).Some? && NoRequests(es)
    requires t in s.heap && t in s.stage && (s.heap[t].totalCount > 0 || s.stage[t].Answering?)
    ensures t in s.doingRequest
    ensures Changes(s, es) <= Work(s)
    ensures Changes(s, es) == Work(s) || Quiet(Run(s, es).value) ==> Answered(Run(s, es).value, s.doingRequest[t])
  {
    var s', req := Run(s, es).value, s.doingRequest[t];
    RunLowers(s, es);
    RunDue(s, es, t, req);
    RunSeen(s, es);
    QuietIff(s');
    if OnlyEmpty(s') {
      assert req !in s'.doingRequest.Values by {
        if req in s'.doingRequest.Values {
          var u := Holder(s'.doingRequest, req);
        }
      }
      assert Answered(s', req);
    }
  }
}
