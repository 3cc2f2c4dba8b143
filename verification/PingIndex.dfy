/** The worker's index of active tasks and the replies looked up in it: the size of the index and when
    it is complete, replies credited to the ping they were sent for, what two tasks with one timestamp do
    to that, and the exact condition under which every awaited ping gets its reply. */
module PingIndex {
  import opened Basics
  import opened PingTask
  import opened PingSystem
  import opened PingRuns
  import opened Bytes
  import opened PingPayload

  // ---- Size ------------------------------------------------------------------------------------

  /** Every active task can be found by its timestamp. */
  predicate Indexed(s: Sys, w: nat)
    requires w < |s.workers|
  {
    forall t :: t in ActiveSet(s.stage, w) ==>
      && t in s.heap && s.heap[t].timestamp in s.workers[w].doingMap
      && s.workers[w].doingMap[s.heap[t].timestamp] == t
  }

  lemma {:induction false} InjectiveValues<K, V>(m: map<K, V>)
    requires forall a, b :: a in m && b in m && a != b ==> m[a] != m[b]
    ensures |m.Values| == |m|
    decreases |m|
  {
    if m != map[] {
      var a :| a in m.Keys;
      var rest := m - {a};
      InjectiveValues(rest);
      forall v | v in m.Values ensures v in rest.Values + {m[a]} {
        var b := Holder(m, v);
        assert b != a ==> rest[b] == v;
      }
      forall v | v in rest.Values ensures v in m.Values && v != m[a] {
        var b := Holder(rest, v);
        assert m[b] == v;
      }
      assert m.Values == rest.Values + {m[a]};
      assert m[a] !in rest.Values;
      assert m.Keys == rest.Keys + {a};
    }
  }

  /** The index never holds more tasks than are active, which is what `doingCount` counts and the
      capacity bounds; it holds as many exactly when every active task can be found in it. */
  lemma IndexSize(s: Sys, w: nat)
    requires Inv(s) && w < |s.workers|
    ensures s.workers[w].doingCount == |ActiveSet(s.stage, w)|
    ensures |s.workers[w].doingMap| <= s.workers[w].doingCount <= 1024
    ensures |s.workers[w].doingMap| == s.workers[w].doingCount <==> Indexed(s, w)
  {
    var m := s.workers[w].doingMap;
    assert WorkerInv(s, w);
    forall a, b | a in m && b in m && a != b ensures m[a] != m[b] {
      assert Mapped(s, w, a) && Mapped(s, w, b);
    }
    InjectiveValues(m);
    forall t | t in m.Values ensures t in ActiveSet(s.stage, w) {
      var ts := Holder(m, t);
      assert Mapped(s, w, ts);
    }
    SubsetSize(m.Values, ActiveSet(s.stage, w));
    if m.Values == ActiveSet(s.stage, w) {
      forall t | t in ActiveSet(s.stage, w)
        ensures t in s.heap && s.heap[t].timestamp in m && m[s.heap[t].timestamp] == t
      {
        var ts := Holder(m, t);
        assert Mapped(s, w, ts);
      }
    }
    if Indexed(s, w) {
      forall t | t in ActiveSet(s.stage, w) ensures t in m.Values {
        assert m[s.heap[t].timestamp] == t;
      }
    }
  }

  /** A queued task is turned away, with error 1005, exactly when 1024 tasks are active on its worker. */
  lemma TurnedAwayIffFull(s: Sys, w: nat, now: int, results: seq<SendResult>)
    requires Inv(s) && Enabled(s, Pop(w, now, results)) && s.workers[w].queue != []
    ensures s.workers[w].queue[0] in s.heap
    ensures var t := s.workers[w].queue[0];
      var s' := TakeUp(s, w, now, results);
      && t in s'.heap
      && (s'.heap[t].prepareError <==> |ActiveSet(s.stage, w)| == 1024)
      && (s'.heap[t].prepareError ==> s'.heap[t].preErrorCode == 1005 && s'.responses == s.responses + [t])
  {
    QueuedTask(s, w, 0);
    IndexSize(s, w);
    var t := s.workers[w].queue[0];
    if s.workers[w].doingCount < DOING_TASK_CAPACITY {
      DoTaskSends(LocalOf(Accept(s, w, now), w, t), 0, w, results);
    }
  }

  lemma {:induction false} SubsetSize<X>(a: set<X>, b: set<X>)
    requires a <= b
    ensures |a| <= |b|
    ensures |a| == |b| <==> a == b
    decreases a
  {
    if a != {} {
      var x :| x in a;
      SubsetSize(a - {x}, b - {x});
      assert a == (a - {x}) + {x} && b == (b - {x}) + {x};
    }
  }

  // ---- One callback ---------------------------------------------------------------------------------

  /** The callback takes the head of `w`'s queue up at time `now`. */
  predicate Accepts(s: Sys, e: Event, w: nat) {
    && e.Pop? && e.w == w && w < |s.workers| && s.workers[w].queue != []
    && s.workers[w].doingCount < DOING_TASK_CAPACITY
  }

  predicate SameTask(s: Sys, s': Sys, w: nat, t: Ref) {
    && t in s.stage && s.stage[t] == Active(w) && t in s.heap && t in s'.heap && t in s.doingRequest
    && t in s'.doingRequest && s'.doingRequest[t] == s.doingRequest[t]
    && s'.heap[t].timestamp == s.heap[t].timestamp && s'.heap[t].totalCount == s.heap[t].totalCount
  }

  /** What a callback other than taking up a task may do to a worker's active tasks and index:
      tasks only leave, and an index entry goes only with a task, not an empty one, that carried its
      timestamp. */
  ghost predicate OnlyLeave(s: Sys, s': Sys, w: nat)
    requires w < |s.workers| == |s'.workers|
  {
    && (forall t :: t in ActiveSet(s'.stage, w) ==> SameTask(s, s', w, t))
    && (s'.workers[w].doingMap == s.workers[w].doingMap
        || exists t :: t in ActiveSet(s.stage, w) && t !in ActiveSet(s'.stage, w) && t in s.heap
                       && s.heap[t].totalCount > 0
                       && s'.workers[w].doingMap == s.workers[w].doingMap - {s.heap[t].timestamp})
  }

  lemma CommitLeaves(s: Sys, w: nat, v: nat, t: Ref, l: Local<Ref>)
    requires Inv(s) && w < |s.workers| && v < |s.workers| && t in s.heap && s.stage[t] == Active(v)
    requires Outcome(LocalOf(s, v, t), l, v)
    ensures OnlyLeave(s, Commit(s, v, t, l), w)
  {
    var s' := Commit(s, v, t, l);
    if l.sent == 1 && v == w {
      assert t in ActiveSet(s.stage, w) && t !in ActiveSet(s'.stage, w);
    }
  }

  lemma PopLeaves(s: Sys, v: nat, now: int, results: seq<SendResult>, w: nat)
    requires Inv(s) && w < |s.workers| && Enabled(s, Pop(v, now, results)) && s.workers[v].queue != []
    requires s.workers[v].queue[0] in s.heap && !Accepts(s, Pop(v, now, results), w)
    ensures |TakeUp(s, v, now, results).workers| == |s.workers|
    ensures OnlyLeave(s, TakeUp(s, v, now, results), w)
  {
    QueuedTask(s, v, 0);
  }

  lemma OtherLeaves(s: Sys, e: Event, w: nat)
    requires Inv(s) && w < |s.workers| && Enabled(s, e) && Next(s, e).Some? && (e.Request? || e.Respond?)
    ensures |Next(s, e).value.workers| == |s.workers|
    ensures OnlyLeave(s, Next(s, e).value, w)
  {
    assert Next(s, e).value.workers[w].doingMap == s.workers[w].doingMap;
  }

  lemma StepLeaves(s: Sys, e: Event, w: nat)
    requires Inv(s) && w < |s.workers| && Enabled(s, e) && Next(s, e).Some? && !Accepts(s, e, w)
    ensures |Next(s, e).value.workers| == |s.workers|
    ensures OnlyLeave(s, Next(s, e).value, w)
  {
    match e
    case Request(_, _, _, _) => OtherLeaves(s, e, w);
    case Pop(v, now, results) =>
      if s.workers[v].queue != [] {
        PopLeaves(s, v, now, results, w);
      }
    case Receive(v, ts, i, now) => ReceiveLeaves(s, v, ts, i, now, w);
    case Timer(v, t, i) =>
      TimerKeeps(s, v, t, i);
      CommitLeaves(s, w, v, t, HandleTimeout(LocalOf(s, v, t), i));
    case Respond => OtherLeaves(s, e, w);
  }

  lemma ReceiveLeaves(s: Sys, v: nat, ts: int, i: nat, now: int, w: nat)
    requires Inv(s) && w < |s.workers| && v < |s.workers| && Next(s, Receive(v, ts, i, now)).Some?
    ensures |Next(s, Receive(v, ts, i, now)).value.workers| == |s.workers|
    ensures OnlyLeave(s, Next(s, Receive(v, ts, i, now)).value, w)
  {
    StepKeeps(s, Receive(v, ts, i, now));
    if ts in s.workers[v].doingMap {
      MappedTask(s, v, ts);
      var t := s.workers[v].doingMap[ts];
      ReceiveKeeps(s, v, ts, i, now);
      if i < |s.heap[t].pings| && !Terminal(s.heap[t].pings[i]) {
        CommitLeaves(s, w, v, t, Deliver(LocalOf(s, v, t), i, now));
      }
    }
  }

  lemma AcceptMaps(s: Sys, w: nat, now: int, results: seq<SendResult>)
    requires Inv(s) && Enabled(s, Pop(w, now, results)) && Accepts(s, Pop(w, now, results), w)
    ensures s.workers[w].queue[0] in s.heap
    ensures var t := s.workers[w].queue[0];
      var s' := TakeUp(s, w, now, results);
      var m := s.workers[w].doingMap;
      && |s'.workers| == |s.workers|
      && t in s'.heap && s'.heap[t].timestamp == now && t in s'.stage && s'.stage.Keys == s.stage.Keys
      && s'.stage[t] == (if results != [] && AllFail(results, 0) then Answering else Active(w))
      && s'.workers[w].queue == s.workers[w].queue[1..]
      && s'.workers[w].doingMap ==
           (if s'.stage[t] != Active(w) then m - {now} else if now in m then m else m[now := t])
  {
    var t := s.workers[w].queue[0];
    QueuedTask(s, w, 0);
    AcceptKeeps(s, w, now);
    var l := LocalOf(Accept(s, w, now), w, t);
    FreshStarts(l, w);
    DoTaskKeeps(l, 0, w, results);
  }

  /** Taking a task up stamps it, maps its stamp unless the stamp is mapped already, and unmaps the
      stamp again if every send failed. */
  lemma AcceptEffect(s: Sys, w: nat, now: int, results: seq<SendResult>)
    requires Inv(s) && Enabled(s, Pop(w, now, results)) && Accepts(s, Pop(w, now, results), w)
    ensures s.workers[w].queue[0] in s.heap
    ensures var t := s.workers[w].queue[0];
      var s' := TakeUp(s, w, now, results);
      var m := s.workers[w].doingMap;
      && |s'.workers| == |s.workers|
      && t in s'.heap && s'.heap[t].timestamp == now
      && t !in ActiveSet(s.stage, w)
      && ActiveSet(s'.stage, w) - {t} == ActiveSet(s.stage, w)
      && (forall u :: u in ActiveSet(s.stage, w) ==> SameTask(s, s', w, u))
      && s'.workers[w].doingMap ==
           (if t !in ActiveSet(s'.stage, w) then m - {now} else if now in m then m else m[now := t])
  {
    AcceptMaps(s, w, now, results);
    QueuedTask(s, w, 0);
  }

  // ---- When the index stays complete --------------------------------------------------------------------

  /** A task is taken up under a timestamp that an active task of the same worker is mapped by. */
  predicate Collides(s: Sys, e: Event, w: nat) {
    Accepts(s, e, w) && e.now in s.workers[w].doingMap
  }

  lemma AcceptIndexed(s: Sys, w: nat, now: int, results: seq<SendResult>)
    requires Inv(s) && Enabled(s, Pop(w, now, results)) && Accepts(s, Pop(w, now, results), w) && Indexed(s, w)
    requires s.workers[w].queue[0] in s.heap
    ensures |TakeUp(s, w, now, results).workers| == |s.workers|
    ensures Indexed(TakeUp(s, w, now, results), w) <==> now !in s.workers[w].doingMap
  {
    AcceptEffect(s, w, now, results);
    var t := s.workers[w].queue[0];
    var s' := TakeUp(s, w, now, results);
    if now in s.workers[w].doingMap {
      MappedTask(s, w, now);
      var u := s.workers[w].doingMap[now];
      assert u in ActiveSet(s.stage, w);
      assert u in ActiveSet(s'.stage, w);
      assert SameTask(s, s', w, u);
    } else {
      forall u | u in ActiveSet(s'.stage, w)
        ensures u in s'.heap && s'.heap[u].timestamp in s'.workers[w].doingMap
        ensures s'.workers[w].doingMap[s'.heap[u].timestamp] == u
      {
        if u != t {
          assert u in ActiveSet(s.stage, w);
          assert SameTask(s, s', w, u);
        }
      }
    }
  }

  /** A complete index stays complete across a callback if and only if the callback does not take a
      task up under a timestamp already in use. */
  lemma IndexedStep(s: Sys, e: Event, w: nat)
    requires Inv(s) && w < |s.workers| && Indexed(s, w) && Enabled(s, e) && Next(s, e).Some?
    ensures |Next(s, e).value.workers| == |s.workers|
    ensures Indexed(Next(s, e).value, w) <==> !Collides(s, e, w)
  {
    if Accepts(s, e, w) {
      PopKeeps(s, w, e.now, e.results);
      AcceptIndexed(s, w, e.now, e.results);
    } else {
      StepLeaves(s, e, w);
      var s' := Next(s, e).value;
      forall u | u in ActiveSet(s'.stage, w)
        ensures u in s'.heap && s'.heap[u].timestamp in s'.workers[w].doingMap
        ensures s'.workers[w].doingMap[s'.heap[u].timestamp] == u
      {
        assert SameTask(s, s', w, u);
        assert u in ActiveSet(s.stage, w);
      }
    }
  }

  // ---- Over runs ---------------------------------------------------------------------------------------------

  function Stamps(es: seq<Event>, w: nat): set<int> {
    if es == [] then {}
    else (if es[0].Pop? && es[0].w == w then {es[0].now} else {}) + Stamps(es[1..], w)
  }

  /** Worker `w` never reads the same time twice. */
  predicate DistinctStamps(es: seq<Event>, w: nat) {
    es == []
    || (DistinctStamps(es[1..], w) && (es[0].Pop? && es[0].w == w ==> es[0].now !in Stamps(es[1..], w)))
  }

  lemma KeysGrow(s: Sys, e: Event, w: nat)
    requires Inv(s) && w < |s.workers| && Enabled(s, e) && Next(s, e).Some?
    ensures |Next(s, e).value.workers| == |s.workers|
    ensures forall ts :: ts in Next(s, e).value.workers[w].doingMap ==>
      ts in s.workers[w].doingMap || (e.Pop? && e.w == w && e.now == ts)
  {
    if Accepts(s, e, w) {
      AcceptEffect(s, w, e.now, e.results);
    } else {
      StepLeaves(s, e, w);
    }
  }

  /** One callback of a run that does not repeat a timestamp still in use. */
  lemma IndexedNext(s: Sys, e: Event, w: nat, later: set<int>)
    requires Inv(s) && w < |s.workers| && Indexed(s, w) && Enabled(s, e) && Next(s, e).Some?
    requires forall ts :: ts in s.workers[w].doingMap ==> ts !in later && !(e.Pop? && e.w == w && e.now == ts)
    requires e.Pop? && e.w == w ==> e.now !in later
    ensures Inv(Next(s, e).value) && |Next(s, e).value.workers| == |s.workers| && Indexed(Next(s, e).value, w)
    ensures forall ts :: ts in Next(s, e).value.workers[w].doingMap ==>
      && ts !in later
      && (ts in s.workers[w].doingMap || (e.Pop? && e.w == w && e.now == ts))
  {
    StepKeeps(s, e);
    IndexedStep(s, e, w);
    KeysGrow(s, e, w);
  }

  lemma {:induction false} RunIndexed(s: Sys, es: seq<Event>, w: nat)
    requires Inv(s) && w < |s.workers| && Indexed(s, w) && Possible(s, es) && Run(s, es).Some?
    requires DistinctStamps(es, w) && forall ts :: ts in s.workers[w].doingMap ==> ts !in Stamps(es, w)
    ensures var s' := Run(s, es).value;
      Inv(s') && |s'.workers| == |s.workers| && Indexed(s', w)
    ensures forall ts :: ts in Run(s, es).value.workers[w].doingMap ==>
      ts in s.workers[w].doingMap || ts in Stamps(es, w)
    decreases |es|
  {
    if es != [] {
      IndexedNext(s, es[0], w, Stamps(es[1..], w));
      RunIndexed(Next(s, es[0]).value, es[1..], w);
    }
  }

  /** Over any run in which a worker's timestamps are distinct, its index holds exactly its active
      tasks, each under its own timestamp, so a task that completes is always found there. */
  lemma DistinctStampsIndex(n: nat, es: seq<Event>, w: nat)
    requires w < n && Possible(Init(n), es) && Run(Init(n), es).Some? && DistinctStamps(es, w)
    ensures var s := Run(Init(n), es).value;
      && Inv(s) && |s.workers| == n && Indexed(s, w)
      && |s.workers[w].doingMap| == s.workers[w].doingCount
    ensures forall ts :: ts in Run(Init(n), es).value.workers[w].doingMap ==> ts in Stamps(es, w)
  {
    InitKeeps(n);
    assert ActiveSet(Init(n).stage, w) == {};
    RunIndexed(Init(n), es, w);
    IndexSize(Run(Init(n), es).value, w);
  }

  // ---- Two tasks stamped alike ------------------------------------------------------------------------------

  predicate SomeSent(results: seq<SendResult>) {
    exists k :: 0 <= k < |results| && results[k].Sent?
  }

  lemma Taken(s: Sys, w: nat, now: int, results: seq<SendResult>)
    requires Inv(s) && Enabled(s, Pop(w, now, results)) && Accepts(s, Pop(w, now, results), w) && SomeSent(results)
    ensures Next(s, Pop(w, now, results)).Some? && s.workers[w].queue[0] in s.heap
    ensures var s' := Next(s, Pop(w, now, results)).value;
      var t := s.workers[w].queue[0];
      && Inv(s') && |s'.workers| == |s.workers|
      && s'.workers[w].queue == s.workers[w].queue[1..]
      && s'.workers[w].doingCount == s.workers[w].doingCount + 1
      && t in ActiveSet(s'.stage, w) && t in s'.heap && s'.heap[t].timestamp == now
      && (forall u :: u in ActiveSet(s.stage, w) ==> SameTask(s, s', w, u) && u in ActiveSet(s'.stage, w))
      && (forall u :: u in s.heap && u != t ==> u in s'.heap && s'.heap[u] == s.heap[u])
  {
    StepKeeps(s, Pop(w, now, results));
    AcceptMaps(s, w, now, results);
    AcceptEffect(s, w, now, results);
    IndexSize(s, w);
    IndexSize(TakeUp(s, w, now, results), w);
  }

  /** Two tasks taken up under one timestamp share it from then on. */
  lemma SameTick(s: Sys, w: nat, now: int, r0: seq<SendResult>, r1: seq<SendResult>)
    requires Inv(s) && w < |s.workers| && |s.workers[w].queue| >= 2
    requires s.workers[w].doingCount + 2 <= DOING_TASK_CAPACITY
    requires var q := s.workers[w].queue;
      && q[0] in s.heap && |r0| == |s.heap[q[0]].pings| && q[1] in s.heap && |r1| == |s.heap[q[1]].pings|
    requires SomeSent(r0) && SomeSent(r1)
    ensures Possible(s, [Pop(w, now, r0)] + [Pop(w, now, r1)])
    ensures Run(s, [Pop(w, now, r0)] + [Pop(w, now, r1)]).Some?
    ensures var s' := Run(s, [Pop(w, now, r0)] + [Pop(w, now, r1)]).value;
      var t, u := s.workers[w].queue[0], s.workers[w].queue[1];
      && Inv(s') && |s'.workers| == |s.workers| && t != u
      && t in ActiveSet(s'.stage, w) && u in ActiveSet(s'.stage, w)
      && t in s'.heap && u in s'.heap && s'.heap[t].timestamp == s'.heap[u].timestamp == now
  {
    assert WorkerInv(s, w);
    Taken(s, w, now, r0);
    var s1 := Next(s, Pop(w, now, r0)).value;
    Taken(s1, w, now, r1);
    assert SameTask(s1, Next(s1, Pop(w, now, r1)).value, w, s.workers[w].queue[0]);
    RunCons(s1, Pop(w, now, r1), []);
    assert [Pop(w, now, r1)] + [] == [Pop(w, now, r1)];
    RunCons(s, Pop(w, now, r0), [Pop(w, now, r1)]);
  }

  /** Distinct timestamps are needed: when one of two active tasks stamped alike completes, the
      other stays active with no entry in the index. */
  lemma SharedStampLosesTask(s: Sys, w: nat, t: Ref, u: Ref, i: nat)
    requires Inv(s) && w < |s.workers| && t != u && t in s.heap && u in s.heap
    requires t in ActiveSet(s.stage, w) && u in ActiveSet(s.stage, w)
    requires s.heap[t].timestamp == s.heap[u].timestamp
    requires (t, i) in s.workers[w].timers && s.heap[t].doneCount + 1 == s.heap[t].totalCount
    ensures Next(s, Timer(w, t, i)).Some? && |Next(s, Timer(w, t, i)).value.workers| == |s.workers|
    ensures var s' := Next(s, Timer(w, t, i)).value;
      && u in ActiveSet(s'.stage, w) && u in s'.heap && s'.heap[u] == s.heap[u]
      && s.heap[u].timestamp !in s'.workers[w].doingMap
  {
    TimerKeeps(s, w, t, i);
    assert TaskInv(s, t);
    TimeoutKeeps(LocalOf(s, w, t), i, w);
  }

  /** However an active task completes, the entry under its timestamp goes, if there is one and whoever
      it leads to, and nothing else of the worker's index changes. */
  lemma CompletionUnmaps(s: Sys, e: Event, w: nat, t: Ref)
    requires Inv(s) && w < |s.workers| && t in ActiveSet(s.stage, w) && t in s.heap
    requires Enabled(s, e) && Next(s, e).Some? && t !in ActiveSet(Next(s, e).value.stage, w)
    ensures var s' := Next(s, e).value;
      && |s'.workers| == |s.workers| && s'.responses == s.responses + [t]
      && s'.workers[w].doingMap == s.workers[w].doingMap - {s.heap[t].timestamp}
      && s'.workers[w].doingCount == s.workers[w].doingCount - 1
      && ActiveSet(s'.stage, w) == ActiveSet(s.stage, w) - {t}
  {
    OnlyWorkCompletes(s, e, w, t);
    var changed, v, u, l := WorkShape(s, e);
    assert seq(1, _ => t) == [t];
    ActiveSetUpdate(s.stage, t, Answering, w);
  }

  lemma OnlyWorkCompletes(s: Sys, e: Event, w: nat, t: Ref)
    requires Inv(s) && w < |s.workers| && t in ActiveSet(s.stage, w)
    requires Enabled(s, e) && Next(s, e).Some? && t !in ActiveSet(Next(s, e).value.stage, w)
    ensures e.Receive? || e.Timer?
  {
    if e.Pop? && s.workers[e.w].queue != [] {
      QueuedTask(s, e.w, 0);
    }
  }

  lemma {:induction false} StaysUnmapped(s: Sys, es: seq<Event>, w: nat, ts: int)
    requires Inv(s) && w < |s.workers| && ts !in s.workers[w].doingMap
    requires Possible(s, es) && Run(s, es).Some? && ts !in Stamps(es, w)
    ensures var s' := Run(s, es).value;
      Inv(s') && |s'.workers| == |s.workers| && ts !in s'.workers[w].doingMap
    decreases |es|
  {
    if es != [] {
      StepKeeps(s, es[0]);
      KeysGrow(s, es[0], w);
      StaysUnmapped(Next(s, es[0]).value, es[1..], w, ts);
    }
  }

  /** A task that is active with no entry under its timestamp finds none when it completes, whatever
      happened meanwhile, as long as the worker takes nothing up under that timestamp: `onComplete`
      takes the branch it calls impossible and leaves the index as it is. */
  lemma LostTaskCompletes(s: Sys, es: seq<Event>, e: Event, w: nat, ts: int, u: Ref)
    requires Inv(s) && w < |s.workers| && ts !in s.workers[w].doingMap
    requires Possible(s, es) && Run(s, es).Some? && ts !in Stamps(es, w)
    requires var m := Run(s, es).value;
      && u in ActiveSet(m.stage, w) && u in m.heap && m.heap[u].timestamp == ts
      && Enabled(m, e) && Next(m, e).Some? && u !in ActiveSet(Next(m, e).value.stage, w)
    ensures var m := Run(s, es).value;
      var s' := Next(m, e).value;
      && |s'.workers| == |m.workers| == |s.workers| && s'.responses == m.responses + [u]
      && ts !in m.workers[w].doingMap && s'.workers[w].doingMap == m.workers[w].doingMap
      && s'.workers[w].doingCount == m.workers[w].doingCount - 1
  {
    StaysUnmapped(s, es, w, ts);
    CompletionUnmaps(Run(s, es).value, e, w, u);
  }

  /** And if something was taken up under it meanwhile, the completion erases the newcomer's entry. */
  lemma NewcomerErased(s: Sys, e: Event, w: nat, u: Ref, x: Ref)
    requires Inv(s) && w < |s.workers| && u != x && u in ActiveSet(s.stage, w) && u in s.heap
    requires s.heap[u].timestamp in s.workers[w].doingMap && s.workers[w].doingMap[s.heap[u].timestamp] == x
    requires Enabled(s, e) && Next(s, e).Some? && u !in ActiveSet(Next(s, e).value.stage, w)
    ensures var s' := Next(s, e).value;
      && |s'.workers| == |s.workers| && x in ActiveSet(s'.stage, w)
      && s.heap[u].timestamp !in s'.workers[w].doingMap
  {
    MappedTask(s, w, s.heap[u].timestamp);
    CompletionUnmaps(s, e, w, u);
  }

  // ---- Replies find their ping ---------------------------------------------------------------------------------

  /** No active task of the worker carries the timestamp, except `req`'s task at `t`, which can
      then be found by it. */
  predicate Owns(s: Sys, w: nat, ts: int, t: Ref, req: Req) {
    && w < |s.workers|
    && forall u :: u in ActiveSet(s.stage, w) && u in s.heap && s.heap[u].timestamp == ts ==>
         u == t && u in s.doingRequest && s.doingRequest[u] == req && ts in s.workers[w].doingMap
  }

  lemma OwnsStep(s: Sys, e: Event, w: nat, ts: int, t: Ref, req: Req)
    requires Inv(s) && Owns(s, w, ts, t, req) && Enabled(s, e) && Next(s, e).Some?
    requires e.Pop? && e.w == w ==> e.now != ts
    ensures Owns(Next(s, e).value, w, ts, t, req)
  {
    var s' := Next(s, e).value;
    if Accepts(s, e, w) {
      AcceptEffect(s, w, e.now, e.results);
    } else {
      StepLeaves(s, e, w);
    }
    forall u | u in ActiveSet(s'.stage, w) && u in s'.heap && s'.heap[u].timestamp == ts
      ensures u == t && u in s'.doingRequest && s'.doingRequest[u] == req && ts in s'.workers[w].doingMap
    {
      if Accepts(s, e, w) {
        assert u in ActiveSet(s'.stage, w) - {s.workers[w].queue[0]};
      }
      assert SameTask(s, s', w, u);
      assert u in ActiveSet(s.stage, w);
    }
  }

  /** While `req` waits, its task is at `t`, still active under the timestamp or handed off. */
  predicate Waits(s: Sys, w: nat, ts: int, t: Ref, req: Req, total: int) {
    && req in s.seen
    && (t in s.doingRequest && s.doingRequest[t] == req ==>
          && t in s.stage && t in s.heap
          && (s.stage[t] == Answering
              || (s.stage[t] == Active(w) && s.heap[t].timestamp == ts && s.heap[t].totalCount == total)))
  }

  lemma CommitWaits(s: Sys, v: nat, u: Ref, l: Local<Ref>, w: nat, ts: int, t: Ref, req: Req, total: int)
    requires Inv(s) && v < |s.workers| && u in s.heap && s.stage[u] == Active(v)
    requires Outcome(LocalOf(s, v, u), l, v) && Waits(s, w, ts, t, req, total)
    ensures Waits(Commit(s, v, u, l), w, ts, t, req, total)
  {
  }

  lemma WaitsWork(s: Sys, e: Event, w: nat, ts: int, t: Ref, req: Req, total: int)
    requires Inv(s) && Waits(s, w, ts, t, req, total) && Enabled(s, e) && Next(s, e).Some? && (e.Receive? || e.Timer?)
    ensures Waits(Next(s, e).value, w, ts, t, req, total)
  {
    var changed, v, u, l := WorkShape(s, e);
    if changed {
      CommitWaits(s, v, u, l, w, ts, t, req, total);
    }
  }

  lemma WaitsStep(s: Sys, e: Event, w: nat, ts: int, t: Ref, req: Req, total: int)
    requires Inv(s) && Waits(s, w, ts, t, req, total) && Enabled(s, e) && Next(s, e).Some?
    ensures Waits(Next(s, e).value, w, ts, t, req, total)
  {
    match e
    case Request(_, _, _, _) =>
    case Pop(v, now, results) =>
      if s.workers[v].queue != [] {
        QueuedTask(s, v, 0);
      }
    case Receive(_, _, _, _) => WaitsWork(s, e, w, ts, t, req, total);
    case Timer(_, _, _) => WaitsWork(s, e, w, ts, t, req, total);
    case Respond =>
  }

  lemma {:induction false} RunOwns(s: Sys, es: seq<Event>, w: nat, ts: int, t: Ref, req: Req, total: int)
    requires Inv(s) && Possible(s, es) && Run(s, es).Some? && ts !in Stamps(es, w)
    requires Owns(s, w, ts, t, req) && Waits(s, w, ts, t, req, total)
    ensures var s' := Run(s, es).value;
      Inv(s') && Owns(s', w, ts, t, req) && Waits(s', w, ts, t, req, total)
    decreases |es|
  {
    if es != [] {
      StepKeeps(s, es[0]);
      OwnsStep(s, es[0], w, ts, t, req);
      WaitsStep(s, es[0], w, ts, t, req, total);
      RunOwns(Next(s, es[0]).value, es[1..], w, ts, t, req, total);
    }
  }

  /** What a reply carrying `ts` and `i` does: it ends ping `i` of `req`'s task if the request still
      waits on that ping, and otherwise changes nothing. */
  ghost predicate Credits(s: Sys, w: nat, ts: int, i: nat, now: int, t: Ref, req: Req) {
    && w < |s.workers| && Next(s, Receive(w, ts, i, now)).Some?
    && var s' := Next(s, Receive(w, ts, i, now)).value;
       if t in s.doingRequest && s.doingRequest[t] == req && t in s.heap && t in s.stage && s.stage[t] == Active(w)
          && i < |s.heap[t].pings| && !Terminal(s.heap[t].pings[i])
       then
         && t in s'.heap && s'.heap == s.heap[t := s'.heap[t]]
         && OnlyPing(s.heap[t], s'.heap[t], i)
         && s'.heap[t].pings[i].status == Success && s'.heap[t].pings[i].recvtime == now
         && s'.heap[t].doneCount == s.heap[t].doneCount + 1
       else s' == s
  }

  lemma OwnerCredited(s: Sys, w: nat, ts: int, i: nat, now: int, t: Ref, req: Req, total: int)
    requires Inv(s) && Owns(s, w, ts, t, req) && Waits(s, w, ts, t, req, total)
    requires i < total
    ensures Credits(s, w, ts, i, now, t, req)
  {
    if ts in s.workers[w].doingMap {
      MappedTask(s, w, ts);
      var u := s.workers[w].doingMap[ts];
      assert u in ActiveSet(s.stage, w);
      assert u == t;
      ReceiveKeeps(s, w, ts, i, now);
      DeliverKeeps(LocalOf(s, w, t), i, now, w);
    } else if t in s.heap && s.stage[t] == Active(w) {
      assert t in ActiveSet(s.stage, w);
    }
  }

  /** Right attribution: take any run in which worker `w`'s timestamps are distinct, a task active
      on `w` at some point of it, and any later point; a reply with that task's timestamp and the
      index of one of its pings credits that ping of that task if the request still waits on it, and
      otherwise, when it is a duplicate or comes too late, changes nothing at all. */
  lemma RightAttribution(n: nat, before: seq<Event>, after: seq<Event>, w: nat, t: Ref, i: nat, now: int)
    requires w < n && Possible(Init(n), before) && Run(Init(n), before).Some?
    requires DistinctStamps(before + after, w)
    requires var m := Run(Init(n), before).value;
      && t in m.heap && t in m.stage && m.stage[t] == Active(w) && t in m.doingRequest && i < m.heap[t].totalCount
      && Possible(m, after) && Run(m, after).Some?
    ensures var m := Run(Init(n), before).value;
      Credits(Run(m, after).value, w, m.heap[t].timestamp, i, now, t, m.doingRequest[t])
  {
    var m := Run(Init(n), before).value;
    var ts, req := m.heap[t].timestamp, m.doingRequest[t];
    DistinctSplit(before, after, w);
    DistinctStampsIndex(n, before, w);
    assert t in ActiveSet(m.stage, w);
    assert ts in m.workers[w].doingMap && ts in Stamps(before, w);
    assert Waits(m, w, ts, t, req, m.heap[t].totalCount);
    RunOwns(m, after, w, ts, t, req, m.heap[t].totalCount);
    OwnerCredited(Run(m, after).value, w, ts, i, now, t, req, m.heap[t].totalCount);
  }

  lemma {:induction false} DistinctSplit(a: seq<Event>, b: seq<Event>, w: nat)
    requires DistinctStamps(a + b, w)
    ensures DistinctStamps(a, w) && Stamps(a, w) !! Stamps(b, w)
    ensures Stamps(a + b, w) == Stamps(a, w) + Stamps(b, w)
  {
    if a == [] {
      assert a + b == b;
    } else {
      assert (a + b)[1..] == a[1..] + b;
      DistinctSplit(a[1..], b, w);
    }
  }

  // ---- A reply to the wrong task ----------------------------------------------------------------

  /** While `t` is in the index under the timestamp it shares with `u`, a reply to ping `i` of `u` ends
      ping `i` of `t` as a success, and leaves `u` waiting. */
  lemma ShadowedReply(s: Sys, w: nat, t: Ref, u: Ref, i: nat, now: int)
    requires Inv(s) && w < |s.workers| && t != u && t in ActiveSet(s.stage, w) && u in ActiveSet(s.stage, w)
    requires t in s.heap && u in s.heap && s.heap[t].timestamp == s.heap[u].timestamp
    requires s.heap[u].timestamp in s.workers[w].doingMap && s.workers[w].doingMap[s.heap[u].timestamp] == t
    requires i < |s.heap[t].pings| && !Terminal(s.heap[t].pings[i])
    requires i < |s.heap[u].pings| && !Terminal(s.heap[u].pings[i])
    ensures Next(s, Receive(w, s.heap[u].timestamp, i, now)).Some?
    ensures var s' := Next(s, Receive(w, s.heap[u].timestamp, i, now)).value;
      && t in s'.heap && s'.heap == s.heap[t := s'.heap[t]]
      && |s'.heap[t].pings| == |s.heap[t].pings| && s'.heap[t].pings[i].status == Success
  {
    MappedTask(s, w, s.heap[u].timestamp);
    ReceiveKeeps(s, w, s.heap[u].timestamp, i, now);
    DeliverKeeps(LocalOf(s, w, t), i, now, w);
  }

  /** A task just taken up: mapped under the new timestamp if that was free, with one ping attempted
      for each send result. */
  lemma TakenPings(s: Sys, w: nat, now: int, results: seq<SendResult>)
    requires Inv(s) && Enabled(s, Pop(w, now, results)) && Accepts(s, Pop(w, now, results), w) && SomeSent(results)
    ensures s.workers[w].queue[0] in s.heap && Next(s, Pop(w, now, results)).Some?
    ensures var t := s.workers[w].queue[0];
      var s' := Next(s, Pop(w, now, results)).value;
      && t in s'.heap && s'.heap[t].totalCount == |s'.heap[t].pings| == |results|
      && |s.heap[t].pings| == |results|
      && (forall k :: 0 <= k < |results| && results[k].Sent? ==> s'.heap[t].pings[k].status == Doing)
      && w < |s'.workers|
      && s'.workers[w].doingMap
           == if now in s.workers[w].doingMap then s.workers[w].doingMap else s.workers[w].doingMap[now := t]
  {
    AcceptMaps(s, w, now, results);
    var t := s.workers[w].queue[0];
    QueuedTask(s, w, 0);
    DoTaskSends(LocalOf(Accept(s, w, now), w, t), 0, w, results);
  }

  /** The second of the two is not mapped, so its replies are looked up in the first. */
  lemma LookedUpInFirst(s: Sys, w: nat, now: int, t: Ref, results: seq<SendResult>, n: nat, later: int)
    requires Inv(s) && Enabled(s, Pop(w, now, results)) && Accepts(s, Pop(w, now, results), w) && SomeSent(results)
    requires now in s.workers[w].doingMap && s.workers[w].doingMap[now] == t && t in s.heap && s.heap[t].totalCount == n
    ensures Next(s, Pop(w, now, results)).Some?
    ensures Overrun(Next(s, Pop(w, now, results)).value, Receive(w, now, n, later))
  {
    MappedTask(s, w, now);
    Taken(s, w, now, results);
    TakenPings(s, w, now, results);
    assert t in ActiveSet(s.stage, w);
    assert SameTask(s, Next(s, Pop(w, now, results)).value, w, t);
  }

  lemma SentIsAwaited(s: Sys, w: nat, now: int, results: seq<SendResult>, n: nat)
    requires Inv(s) && Enabled(s, Pop(w, now, results)) && Accepts(s, Pop(w, now, results), w)
    requires n < |results| && results[n].Sent?
    ensures s.workers[w].queue[0] in s.heap && Next(s, Pop(w, now, results)).Some?
    ensures w < |Next(s, Pop(w, now, results)).value.workers|
    ensures (s.workers[w].queue[0], n) in Next(s, Pop(w, now, results)).value.workers[w].timers
  {
    assert SomeSent(results);
    Taken(s, w, now, results);
    TakenPings(s, w, now, results);
    var s' := Next(s, Pop(w, now, results)).value;
    var u := s.workers[w].queue[0];
    AwaitedIsArmed(s', w, u, n);
  }

  lemma AwaitedIsArmed(s: Sys, w: nat, t: Ref, i: nat)
    requires Inv(s) && t in ActiveSet(s.stage, w) && t in s.heap
    requires i < |s.heap[t].pings| && !Terminal(s.heap[t].pings[i])
    ensures w < |s.workers| && (t, i) in s.workers[w].timers
  {
    TimersOwed(s, w, t);
  }

  /** An honest reply reads past the array: take up a task, and in the same tick one with more pings;
      the reply to the longer one's ping number `|r0|`, which was sent and is awaited, is looked up in
      the shorter one. From any state with room. */
  lemma ShadowedOverrun(s: Sys, w: nat, now: int, r0: seq<SendResult>, r1: seq<SendResult>, later: int)
    requires Inv(s) && w < |s.workers| && |s.workers[w].queue| >= 2 && now !in s.workers[w].doingMap
    requires s.workers[w].doingCount + 2 <= DOING_TASK_CAPACITY
    requires var q := s.workers[w].queue;
      && q[0] in s.heap && |r0| == |s.heap[q[0]].pings| && q[1] in s.heap && |r1| == |s.heap[q[1]].pings|
    requires SomeSent(r0) && |r0| < |r1| && r1[|r0|].Sent?
    ensures Possible(s, [Pop(w, now, r0)] + [Pop(w, now, r1)])
    ensures Run(s, [Pop(w, now, r0)] + [Pop(w, now, r1)]).Some?
    ensures var s' := Run(s, [Pop(w, now, r0)] + [Pop(w, now, r1)]).value;
      && w < |s'.workers| && (s.workers[w].queue[1], |r0|) in s'.workers[w].timers
      && Next(s', Receive(w, now, |r0|, later)).None?
  {
    QueueDistinct(s, w, 1);
    Taken(s, w, now, r0);
    TakenPings(s, w, now, r0);
    var s1 := Next(s, Pop(w, now, r0)).value;
    assert SomeSent(r1);
    SentIsAwaited(s1, w, now, r1, |r0|);
    LookedUpInFirst(s1, w, now, s.workers[w].queue[0], r1, |r0|, later);
    StepKeeps(s1, Pop(w, now, r1));
    StepKeeps(Next(s1, Pop(w, now, r1)).value, Receive(w, now, |r0|, later));
    RunOne(s1, Pop(w, now, r1));
    RunCons(s, Pop(w, now, r0), [Pop(w, now, r1)]);
  }

  lemma QueueDistinct(s: Sys, w: nat, k: nat)
    requires Inv(s) && w < |s.workers| && k < |s.workers[w].queue|
    ensures k > 0 ==> s.workers[w].queue[k] != s.workers[w].queue[0]
  {
    assert WorkerInv(s, w);
  }

  lemma RunOne(s: Sys, e: Event)
    requires Enabled(s, e) && Next(s, e).Some?
    ensures Possible(s, [e]) && Run(s, [e]) == Next(s, e)
  {
    RunCons(s, e, []);
    assert [e] + [] == [e];
  }

  // ---- Replies to awaited pings -------------------------------------------------------------------

  predicate Found(s: Sys, w: nat, t: Ref)
    requires w < |s.workers| && t in s.heap
  {
    s.heap[t].timestamp in s.workers[w].doingMap && s.workers[w].doingMap[s.heap[t].timestamp] == t
  }

  /** Every reply to an awaited ping of an active task would be credited to that ping alone. */
  ghost predicate AllCredited(s: Sys, w: nat) {
    forall t, i, now :: t in ActiveSet(s.stage, w) && t in s.heap && t in s.doingRequest
                        && 0 <= i < |s.heap[t].pings| && !Terminal(s.heap[t].pings[i])
      ==> Credits(s, w, s.heap[t].timestamp, i, now, t, s.doingRequest[t])
  }

  lemma FoundIsCredited(s: Sys, w: nat, t: Ref, i: nat, now: int)
    requires Inv(s) && w < |s.workers| && t in s.heap && t in s.stage && s.stage[t] == Active(w) && Found(s, w, t)
    requires t in s.doingRequest && i < |s.heap[t].pings| && !Terminal(s.heap[t].pings[i])
    ensures Credits(s, w, s.heap[t].timestamp, i, now, t, s.doingRequest[t])
  {
    MappedTask(s, w, s.heap[t].timestamp);
    ReceiveKeeps(s, w, s.heap[t].timestamp, i, now);
    DeliverKeeps(LocalOf(s, w, t), i, now, w);
  }

  lemma CreditedIsFound(s: Sys, w: nat, t: Ref, i: nat, now: int)
    requires Inv(s) && w < |s.workers| && t in s.heap && t in s.stage && s.stage[t] == Active(w)
    requires t in s.doingRequest && i < |s.heap[t].pings| && !Terminal(s.heap[t].pings[i])
    requires Credits(s, w, s.heap[t].timestamp, i, now, t, s.doingRequest[t])
    ensures Found(s, w, t)
  {
    var ts := s.heap[t].timestamp;
    StepKeeps(s, Receive(w, ts, i, now));
    if ts in s.workers[w].doingMap {
      MappedTask(s, w, ts);
      ReceiveKeeps(s, w, ts, i, now);
    }
  }

  /** The awaited pings of a worker's active tasks would all get their replies if and only if every
      active task of the worker that has a server is found in the index under its timestamp. Of late
      and repeated replies to tasks already handed off this says nothing. */
  lemma CreditedIffFound(s: Sys, w: nat)
    requires Inv(s) && w < |s.workers|
    ensures AllCredited(s, w) <==>
      forall t :: t in ActiveSet(s.stage, w) && t in s.heap && s.heap[t].totalCount > 0 ==> Found(s, w, t)
  {
    forall t | t in ActiveSet(s.stage, w) && t in s.heap && s.heap[t].totalCount > 0 && AllCredited(s, w)
      ensures Found(s, w, t)
    {
      var i := SomeTimer(s, w, t);
      TimersOwed(s, w, t);
      CreditedIsFound(s, w, t, i, 0);
    }
    forall t, i: int, now | t in ActiveSet(s.stage, w) && t in s.heap && t in s.doingRequest
                       && 0 <= i < |s.heap[t].pings| && !Terminal(s.heap[t].pings[i]) && Found(s, w, t)
      ensures Credits(s, w, s.heap[t].timestamp, i, now, t, s.doingRequest[t])
    {
      FoundIsCredited(s, w, t, i, now);
    }
    forall t | t in ActiveSet(s.stage, w) && t in s.heap && |s.heap[t].pings| > 0 ensures s.heap[t].totalCount > 0 {
      assert TaskInv(s, t);
    }
  }

  // ---- From the bytes ----------------------------------------------------------------------------

  /** End to end: in any run in which worker `w`'s timestamps are distinct, an echo reply with the
      data sent for ping `i` of a task active on `w`, behind an IP header of any legal length,
      received at any later point, credits that ping of that task if its request still waits on it,
      and otherwise changes nothing. */
  lemma EchoCredits(n: nat, before: seq<Event>, after: seq<Event>, w: nat, t: Ref, i: nat, now: int,
                    tid: nat, pid: nat, ip: seq<byte>, head: seq<byte>, more: seq<byte>)
    requires w < n && Possible(Init(n), before) && Run(Init(n), before).Some?
    requires DistinctStamps(before + after, w)
    requires var m := Run(Init(n), before).value;
      && t in m.heap && t in m.stage && m.stage[t] == Active(w) && t in m.doingRequest && i < m.heap[t].totalCount
      && Possible(m, after) && Run(m, after).Some?
      && 0 <= m.heap[t].timestamp < Pow256(8)
    requires tid < 0x1_0000 && pid < 0x1_0000 && i < 0x1_0000 && IpHeader(ip) && |head| == 3
    ensures var m := Run(Init(n), before).value;
      var r := Decode(EchoReply(ip, head, pid, 0, Payload(tid, m.heap[t].timestamp, i), [0] + more), tid, pid);
      r.Some? && Credits(Run(m, after).value, w, r.value.timestamp, r.value.index, now, t, m.doingRequest[t])
  {
    var m := Run(Init(n), before).value;
    ReplyReadsBack(ip, head, pid, 0, tid, m.heap[t].timestamp, i, [0] + more, tid, pid);
    RightAttribution(n, before, after, w, t, i, now);
  }
}
