/** Which replies end which pings: the exact condition under which every packet that was sent, however
    late or often its reply comes, is credited to the request it was sent for or to none; in a state,
    across one callback, and over whole runs. */
module PingAttribution {
  import opened Basics
  import opened PingTask
  import opened PingSystem
  import opened PingRuns
  import opened PingIndex

  // ---- What was sent -----------------------------------------------------------------------------

  /** A packet sent: the worker, timestamp and index its reply carries and, as a history, the task and
      the request it was sent for. */
  datatype Packet = Packet(w: nat, timestamp: int, index: nat, t: Ref, req: Req)

  /** Taking up a task sends a packet for each send that succeeds. */
  function SentBy(s: Sys, e: Event): set<Packet> {
    if e.Pop? && Accepts(s, e, e.w) && s.workers[e.w].queue[0] in s.doingRequest then
      var t := s.workers[e.w].queue[0];
      set k: nat | k < |e.results| && e.results[k].Sent? :: Packet(e.w, e.now, k, t, s.doingRequest[t])
    else {}
  }

  /** The packet's request is answered, or its task is where the packet names it, on its way to the
      master or still active under the packet's timestamp. */
  predicate Sender(s: Sys, p: Packet) {
    && p.w < |s.workers| && p.req in s.seen
    && forall u :: u in s.doingRequest && s.doingRequest[u] == p.req ==>
         && u == p.t && u in s.stage && u in s.heap
         && (s.stage[u] == Answering
             || (s.stage[u] == Active(p.w) && s.heap[u].timestamp == p.timestamp && p.index < s.heap[u].totalCount))
  }

  /** A packet was sent for every ping that is waiting. */
  predicate Logged(s: Sys, sent: set<Packet>) {
    forall t, k: nat :: t in s.heap && t in s.stage && s.stage[t].Active? && t in s.doingRequest
                        && k < |s.heap[t].pings| && !Terminal(s.heap[t].pings[k])
      ==> Packet(s.stage[t].w, s.heap[t].timestamp, k, t, s.doingRequest[t]) in sent
  }

  /** `sent` holds what was sent on the way to `s`. */
  predicate History(s: Sys, sent: set<Packet>) {
    && (forall p :: p in sent ==> Sender(s, p))
    && Logged(s, sent)
  }

  /** What taking up a task does to it and to the others. */
  lemma AcceptedTask(s: Sys, w: nat, now: int, results: seq<SendResult>)
    requires Inv(s) && Enabled(s, Pop(w, now, results)) && Accepts(s, Pop(w, now, results), w)
    ensures s.workers[w].queue[0] in s.heap && s.workers[w].queue[0] in s.doingRequest
    ensures var h := s.workers[w].queue[0];
      var s' := TakeUp(s, w, now, results);
      && h in s'.heap && s'.heap[h].timestamp == now && |s'.heap[h].pings| == s'.heap[h].totalCount == |results|
      && (forall k :: 0 <= k < |results| ==> (!Terminal(s'.heap[h].pings[k]) <==> results[k].Sent?))
      && s'.doingRequest == s.doingRequest && s'.seen == s.seen
      && (forall u :: u in s.heap && u != h ==> u in s'.heap && s'.heap[u] == s.heap[u])
      && (forall u :: u in s.stage && u != h ==> u in s'.stage && s'.stage[u] == s.stage[u])
  {
    QueuedTask(s, w, 0);
    var h := s.workers[w].queue[0];
    var l := LocalOf(Accept(s, w, now), w, h);
    DoTaskSends(l, 0, w, results);
    assert TakeUp(s, w, now, results).heap == s.heap[h := DoTask(l, 0, w, results).task];
    AttemptsSent(s.heap[h].pings, DoTask(l, 0, w, results).task.pings, w, results);
  }

  lemma AttemptsSent(before: seq<Ping>, after: seq<Ping>, w: nat, results: seq<SendResult>)
    requires |before| == |after| == |results|
    requires forall k :: 0 <= k < |results| ==>
      before[k].status == Uninited && after[k] == Attempted(before[k], w, results[k])
    ensures forall k :: 0 <= k < |results| ==> (!Terminal(after[k]) <==> results[k].Sent?)
  {
  }

  lemma SenderStep(s: Sys, e: Event, p: Packet)
    requires Inv(s) && Sender(s, p) && Enabled(s, e) && Next(s, e).Some?
    ensures Sender(Next(s, e).value, p)
  {
    var s' := Next(s, e).value;
    StepSeen(s, e);
    WorkersKept(s, e);
    forall u | u in s'.doingRequest && s'.doingRequest[u] == p.req
      ensures u == p.t && u in s'.stage && u in s'.heap
      ensures s'.stage[u] == Answering
              || (s'.stage[u] == Active(p.w) && s'.heap[u].timestamp == p.timestamp && p.index < s'.heap[u].totalCount)
    {
      SameRequest(s, e, u);
      var total := if s.stage[u] == Answering then p.index + 1 else s.heap[u].totalCount;
      WaitsStep(s, e, p.w, p.timestamp, p.t, p.req, total);
    }
  }

  lemma WorkersKept(s: Sys, e: Event)
    requires Inv(s) && Enabled(s, e) && Next(s, e).Some?
    ensures |Next(s, e).value.workers| == |s.workers|
  {
  }

  /** A task active after a callback was active before, unless the callback took it up. */
  lemma ActiveBefore(s: Sys, e: Event, w: nat, t: Ref)
    requires Inv(s) && w < |s.workers| && Enabled(s, e) && Next(s, e).Some?
    requires t in ActiveSet(Next(s, e).value.stage, w) && !(Accepts(s, e, w) && s.workers[w].queue[0] == t)
    ensures t in ActiveSet(s.stage, w) && SameTask(s, Next(s, e).value, w, t)
  {
    if Accepts(s, e, w) {
      AcceptEffect(s, w, e.now, e.results);
      assert t in ActiveSet(Next(s, e).value.stage, w) - {s.workers[w].queue[0]};
    } else {
      StepLeaves(s, e, w);
      assert SameTask(s, Next(s, e).value, w, t);
    }
  }

  /** A ping waiting after a callback was waiting before, in a task active before. */
  lemma PendingBefore(s: Sys, e: Event, w: nat, t: Ref, k: nat)
    requires Inv(s) && w < |s.workers| && Enabled(s, e) && Next(s, e).Some?
    requires t in ActiveSet(s.stage, w) && t in s.heap && t in Next(s, e).value.heap
    requires k < |Next(s, e).value.heap[t].pings| && !Terminal(Next(s, e).value.heap[t].pings[k])
    requires SameTask(s, Next(s, e).value, w, t) && t in Next(s, e).value.stage
    requires Next(s, e).value.stage[t] == Active(w)
    ensures k < |s.heap[t].pings| && !Terminal(s.heap[t].pings[k])
  {
    StepKeeps(s, e);
    assert TaskInv(s, t);
    assert TaskInv(Next(s, e).value, t);
    PingEndsOnce(s, e, t, k);
  }

  lemma LoggedStep(s: Sys, e: Event, sent: set<Packet>)
    requires Inv(s) && Logged(s, sent) && Enabled(s, e) && Next(s, e).Some?
    ensures Logged(Next(s, e).value, sent + SentBy(s, e))
  {
    var s' := Next(s, e).value;
    forall t, k: nat | t in s'.heap && t in s'.stage && s'.stage[t].Active? && t in s'.doingRequest
                       && k < |s'.heap[t].pings| && !Terminal(s'.heap[t].pings[k])
      ensures Packet(s'.stage[t].w, s'.heap[t].timestamp, k, t, s'.doingRequest[t]) in sent + SentBy(s, e)
    {
      var w := s'.stage[t].w;
      StepKeeps(s, e);
      assert TaskInv(s', t);
      WorkersKept(s, e);
      if Accepts(s, e, w) && s.workers[w].queue[0] == t {
        AcceptedTask(s, w, e.now, e.results);
      } else {
        ActiveBefore(s, e, w, t);
        PendingBefore(s, e, w, t, k);
      }
    }
  }

  lemma NewSender(s: Sys, e: Event, p: Packet)
    requires Inv(s) && Enabled(s, e) && Next(s, e).Some? && p in SentBy(s, e)
    ensures Sender(Next(s, e).value, p)
  {
    AcceptMaps(s, e.w, e.now, e.results);
    AcceptedTask(s, e.w, e.now, e.results);
    WorkersKept(s, e);
  }

  /** The history of a run grows by what each callback sends. */
  lemma HistoryStep(s: Sys, e: Event, sent: set<Packet>)
    requires Inv(s) && History(s, sent) && Enabled(s, e) && Next(s, e).Some?
    ensures History(Next(s, e).value, sent + SentBy(s, e))
  {
    LoggedStep(s, e, sent);
    forall p | p in sent + SentBy(s, e) ensures Sender(Next(s, e).value, p) {
      if p in sent {
        SenderStep(s, e, p);
      } else {
        NewSender(s, e, p);
      }
    }
  }

  // ---- The condition in a state ----------------------------------------------------------------------

  /** The packet's own request still waits on its ping. */
  predicate Awaits(s: Sys, p: Packet) {
    && p.t in s.doingRequest && s.doingRequest[p.t] == p.req && p.t in s.heap && p.t in s.stage
    && s.stage[p.t] == Active(p.w) && p.index < |s.heap[p.t].pings| && !Terminal(s.heap[p.t].pings[p.index])
  }

  /** The task has nothing that a reply with this index could end or overrun. */
  predicate Ignores(t: Task, i: nat) {
    i != t.totalCount && (i < |t.pings| ==> Terminal(t.pings[i]))
  }

  /** Where the packet's timestamp leads, if anywhere, is its own request's task or one that ignores it. */
  predicate NotMistaken(s: Sys, p: Packet)
    requires p.w < |s.workers|
  {
    var m := s.workers[p.w].doingMap;
    p.timestamp in m ==>
      var u := m[p.timestamp];
      u in s.heap && u in s.doingRequest && s.doingRequest[u] != p.req ==> Ignores(s.heap[u], p.index)
  }

  predicate Clear(s: Sys, p: Packet) {
    p.w < |s.workers| && NotMistaken(s, p) && (Awaits(s, p) ==> Found(s, p.w, p.t))
  }

  predicate AllClear(s: Sys, sent: set<Packet>) {
    forall p :: p in sent ==> Clear(s, p)
  }

  /** A reply to any packet sent, whenever it comes, ends the ping it was sent for if that is awaited, and
      otherwise changes nothing. */
  ghost predicate Attributed(s: Sys, sent: set<Packet>) {
    forall p, now :: p in sent ==> Credits(s, p.w, p.timestamp, p.index, now, p.t, p.req)
  }

  /** A reply that is looked up ends the pending ping it finds and no other task's, or changes nothing. */
  lemma Delivered(s: Sys, w: nat, ts: int, i: nat, now: int)
    requires Inv(s) && w < |s.workers| && ts in s.workers[w].doingMap && s.workers[w].doingMap[ts] in s.heap
    requires i != s.heap[s.workers[w].doingMap[ts]].totalCount
    ensures Next(s, Receive(w, ts, i, now)).Some?
    ensures var u := s.workers[w].doingMap[ts];
      var s' := Next(s, Receive(w, ts, i, now)).value;
      if Ignores(s.heap[u], i) then s' == s
      else u in s'.heap && s'.heap[u].doneCount == s.heap[u].doneCount + 1
  {
    MappedTask(s, w, ts);
    ReceiveKeeps(s, w, ts, i, now);
    DeliverKeeps(LocalOf(s, w, s.workers[w].doingMap[ts]), i, now, w);
  }

  /** A reply whose timestamp leads to another request's task. */
  lemma MistakenReply(s: Sys, p: Packet, now: int)
    requires Inv(s) && Sender(s, p) && p.timestamp in s.workers[p.w].doingMap
    requires var u := s.workers[p.w].doingMap[p.timestamp];
      u in s.heap && u in s.doingRequest && s.doingRequest[u] != p.req
    ensures Credits(s, p.w, p.timestamp, p.index, now, p.t, p.req)
       <==> Ignores(s.heap[s.workers[p.w].doingMap[p.timestamp]], p.index) && !Awaits(s, p)
  {
    var u := s.workers[p.w].doingMap[p.timestamp];
    StepKeeps(s, Receive(p.w, p.timestamp, p.index, now));
    if p.index != s.heap[u].totalCount {
      MappedTask(s, p.w, p.timestamp);
      Delivered(s, p.w, p.timestamp, p.index, now);
    }
  }

  /** A reply whose timestamp leads to its own request's task. */
  lemma OwnReply(s: Sys, p: Packet, now: int)
    requires Inv(s) && Sender(s, p) && p.timestamp in s.workers[p.w].doingMap
    requires var u := s.workers[p.w].doingMap[p.timestamp];
      u in s.heap && u in s.doingRequest && s.doingRequest[u] == p.req
    ensures Credits(s, p.w, p.timestamp, p.index, now, p.t, p.req) && Clear(s, p)
  {
    MappedTask(s, p.w, p.timestamp);
    ReceiveKeeps(s, p.w, p.timestamp, p.index, now);
    DeliverKeeps(LocalOf(s, p.w, p.t), p.index, now, p.w);
  }

  lemma CreditsIffClear(s: Sys, p: Packet, now: int)
    requires Inv(s) && Sender(s, p)
    ensures Credits(s, p.w, p.timestamp, p.index, now, p.t, p.req) <==> Clear(s, p)
  {
    var m := s.workers[p.w].doingMap;
    if p.timestamp in m {
      MappedTask(s, p.w, p.timestamp);
      if s.doingRequest[m[p.timestamp]] == p.req {
        OwnReply(s, p, now);
      } else {
        MistakenReply(s, p, now);
      }
    }
  }

  /** Right attribution in a state: every packet sent so far would be credited as it should if and only
      if none has a timestamp that leads to another request's task with that ping pending, or with
      exactly that many pings, and every awaited one leads to its own. */
  lemma AttributedIff(s: Sys, sent: set<Packet>)
    requires Inv(s) && History(s, sent)
    ensures Attributed(s, sent) <==> AllClear(s, sent)
  {
    forall p, now | p in sent
      ensures Credits(s, p.w, p.timestamp, p.index, now, p.t, p.req) <==> Clear(s, p)
    {
      CreditsIffClear(s, p, now);
    }
    if Attributed(s, sent) {
      forall p | p in sent ensures Clear(s, p) {
        assert Credits(s, p.w, p.timestamp, p.index, 0, p.t, p.req);
      }
    }
  }

  // ---- The condition across one callback --------------------------------------------------------------

  /** An active task with a server waits on a packet of its own. */
  lemma AwaitedPacket(s: Sys, sent: set<Packet>, w: nat, t: Ref) returns (p: Packet)
    requires Inv(s) && Logged(s, sent) && t in ActiveSet(s.stage, w) && t in s.heap && s.heap[t].totalCount > 0
    ensures p in sent && Awaits(s, p) && p.w == w && p.t == t && p.timestamp == s.heap[t].timestamp
  {
    var i := SomeTimer(s, w, t);
    TimersOwed(s, w, t);
    p := Packet(w, s.heap[t].timestamp, i, t, s.doingRequest[t]);
  }

  lemma AwaitedFound(s: Sys, sent: set<Packet>, w: nat, t: Ref)
    requires Inv(s) && Logged(s, sent) && AllClear(s, sent)
    requires t in ActiveSet(s.stage, w) && t in s.heap && s.heap[t].totalCount > 0
    ensures w < |s.workers| && Found(s, w, t)
  {
    var p := AwaitedPacket(s, sent, w, t);
    assert Clear(s, p);
  }

  /** An entry that goes, goes with a task that carried its timestamp. */
  lemma EntryLost(s: Sys, s': Sys, w: nat, ts: int) returns (x: Ref)
    requires w < |s.workers| == |s'.workers| && OnlyLeave(s, s', w) && ts in s.workers[w].doingMap
    requires ts in s'.workers[w].doingMap ==> s'.workers[w].doingMap[ts] != s.workers[w].doingMap[ts]
    ensures x in ActiveSet(s.stage, w) && x !in ActiveSet(s'.stage, w)
    ensures x in s.heap && s.heap[x].totalCount > 0 && s.heap[x].timestamp == ts
  {
    x :| x in ActiveSet(s.stage, w) && x !in ActiveSet(s'.stage, w) && x in s.heap && s.heap[x].totalCount > 0
         && s'.workers[w].doingMap == s.workers[w].doingMap - {s.heap[x].timestamp};
  }

  /** A task that stays active stays in the index: no other task shares its timestamp. */
  lemma EntryStays(s: Sys, e: Event, w: nat, t: Ref, sent: set<Packet>)
    requires Inv(s) && Logged(s, sent) && AllClear(s, sent) && w < |s.workers|
    requires Enabled(s, e) && Next(s, e).Some? && !Accepts(s, e, w)
    requires t in ActiveSet(s.stage, w) && t in s.heap && Found(s, w, t) && t in ActiveSet(Next(s, e).value.stage, w)
    ensures |Next(s, e).value.workers| == |s.workers| && t in Next(s, e).value.heap && Found(Next(s, e).value, w, t)
  {
    ActiveBefore(s, e, w, t);
    StepLeaves(s, e, w);
    if !Found(Next(s, e).value, w, t) {
      var x := EntryLost(s, Next(s, e).value, w, s.heap[t].timestamp);
      AwaitedFound(s, sent, w, x);
    }
  }

  /** A callback that takes no task up on the packet's worker does it no harm. */
  lemma StaysClear(s: Sys, e: Event, sent: set<Packet>, p: Packet)
    requires Inv(s) && History(s, sent) && AllClear(s, sent) && p in sent
    requires Enabled(s, e) && Next(s, e).Some? && !Accepts(s, e, p.w)
    ensures Clear(Next(s, e).value, p)
  {
    assert Clear(s, p) && Sender(s, p);
    StepKeeps(s, e);
    WorkersKept(s, e);
    KeysGrow(s, e, p.w);
    MistakeStays(s, e, p);
    var s' := Next(s, e).value;
    if Awaits(s', p) {
      ActiveBefore(s, e, p.w, p.t);
      PendingBefore(s, e, p.w, p.t, p.index);
      assert Awaits(s, p);
      EntryStays(s, e, p.w, p.t, sent);
    }
  }

  lemma MistakeStays(s: Sys, e: Event, p: Packet)
    requires Inv(s) && Sender(s, p) && NotMistaken(s, p)
    requires Enabled(s, e) && Next(s, e).Some? && !Accepts(s, e, p.w)
    ensures p.w < |Next(s, e).value.workers| && NotMistaken(Next(s, e).value, p)
  {
    StepKeeps(s, e);
    StepLeaves(s, e, p.w);
    var s' := Next(s, e).value;
    if p.timestamp in s'.workers[p.w].doingMap {
      MappedTask(s', p.w, p.timestamp);
      var u := s'.workers[p.w].doingMap[p.timestamp];
      assert u in ActiveSet(s'.stage, p.w);
      assert SameTask(s, s', p.w, u);
      if p.index < |s'.heap[u].pings| && !Terminal(s'.heap[u].pings[p.index]) {
        PendingBefore(s, e, p.w, u, p.index);
      }
    }
  }

  /** The packet's reply would end or overrun a ping of the task just taken up. */
  predicate Strikes(p: Packet, w: nat, now: int, results: seq<SendResult>) {
    p.w == w && p.timestamp == now
    && (p.index == |results| || (p.index < |results| && results[p.index].Sent?))
  }

  /** The task just taken up is on its way to the master at once. */
  predicate AtOnce(results: seq<SendResult>) {
    results != [] && AllFail(results, 0)
  }

  /** Taking up a task breaks right attribution. Under a timestamp nothing is mapped by: if the task
      stays active and the reply to a packet sent under that timestamp before would strike it. Under a
      mapped timestamp: if a packet goes out, or if every send fails and the mapped task, which loses
      its entry, has a server. */
  predicate Spoils(s: Sys, e: Event, sent: set<Packet>) {
    && e.Pop? && Accepts(s, e, e.w)
    && var m := s.workers[e.w].doingMap;
       if e.now !in m then !AtOnce(e.results) && exists p :: p in sent && Strikes(p, e.w, e.now, e.results)
       else if AtOnce(e.results) then m[e.now] in s.heap && s.heap[m[e.now]].totalCount > 0
       else e.results != []
  }

  lemma OldMistake(s: Sys, w: nat, now: int, results: seq<SendResult>, p: Packet)
    requires Inv(s) && Sender(s, p) && NotMistaken(s, p) && p.w == w
    requires Enabled(s, Pop(w, now, results)) && Accepts(s, Pop(w, now, results), w)
    requires s.workers[w].queue[0] in s.heap
    ensures |TakeUp(s, w, now, results).workers| == |s.workers|
    ensures NotMistaken(TakeUp(s, w, now, results), p) <==>
      (now !in s.workers[w].doingMap ==> AtOnce(results) || !Strikes(p, w, now, results))
  {
    AcceptMaps(s, w, now, results);
    AcceptedTask(s, w, now, results);
    QueuedTask(s, w, 0);
    if p.timestamp in s.workers[w].doingMap {
      MappedTask(s, w, p.timestamp);
    }
  }

  lemma OldAwaits(s: Sys, w: nat, now: int, results: seq<SendResult>, p: Packet)
    requires Inv(s) && Sender(s, p) && Clear(s, p) && p.w == w
    requires Enabled(s, Pop(w, now, results)) && Accepts(s, Pop(w, now, results), w)
    requires s.workers[w].queue[0] in s.heap
    ensures |TakeUp(s, w, now, results).workers| == |s.workers|
    ensures Awaits(TakeUp(s, w, now, results), p) <==> Awaits(s, p)
    ensures Awaits(s, p) ==> p.t in TakeUp(s, w, now, results).heap
    ensures Awaits(s, p) ==>
      (Found(TakeUp(s, w, now, results), w, p.t)
       <==> !(now in s.workers[w].doingMap && AtOnce(results) && p.timestamp == now))
  {
    AcceptMaps(s, w, now, results);
    AcceptedTask(s, w, now, results);
    QueuedTask(s, w, 0);
  }

  /** What becomes of a packet sent before. */
  lemma OldPacket(s: Sys, w: nat, now: int, results: seq<SendResult>, p: Packet)
    requires Inv(s) && Sender(s, p) && Clear(s, p) && p.w == w
    requires Enabled(s, Pop(w, now, results)) && Accepts(s, Pop(w, now, results), w)
    requires s.workers[w].queue[0] in s.heap
    ensures Clear(TakeUp(s, w, now, results), p) <==>
      if now !in s.workers[w].doingMap then AtOnce(results) || !Strikes(p, w, now, results)
      else !(AtOnce(results) && Awaits(s, p) && p.timestamp == now)
  {
    OldMistake(s, w, now, results, p);
    OldAwaits(s, w, now, results, p);
  }

  /** What becomes of a packet just sent. */
  lemma NewPacket(s: Sys, w: nat, now: int, results: seq<SendResult>, p: Packet)
    requires Inv(s) && Enabled(s, Pop(w, now, results)) && Accepts(s, Pop(w, now, results), w)
    requires s.workers[w].queue[0] in s.heap && p in SentBy(s, Pop(w, now, results))
    ensures Clear(TakeUp(s, w, now, results), p) <==> now !in s.workers[w].doingMap
  {
    AcceptMaps(s, w, now, results);
    AcceptedTask(s, w, now, results);
    QueuedTask(s, w, 0);
    assert Awaits(TakeUp(s, w, now, results), p);
    if now in s.workers[w].doingMap {
      MappedTask(s, w, now);
    }
  }

  lemma Sent(s: Sys, w: nat, now: int, results: seq<SendResult>, k: nat) returns (p: Packet)
    requires Inv(s) && Enabled(s, Pop(w, now, results)) && Accepts(s, Pop(w, now, results), w)
    requires k < |results| && results[k].Sent?
    ensures p in SentBy(s, Pop(w, now, results))
  {
    QueuedTask(s, w, 0);
    var t := s.workers[w].queue[0];
    p := Packet(w, now, k, t, s.doingRequest[t]);
  }

  lemma SomeFails(results: seq<SendResult>) returns (k: nat)
    requires !AllFail(results, 0)
    ensures k < |results| && results[k].Sent?
  {
    k :| k < |results| && results[k].Sent?;
  }

  lemma NewIsNew(s: Sys, w: nat, now: int, results: seq<SendResult>, p: Packet)
    requires Inv(s) && Enabled(s, Pop(w, now, results)) && Sender(s, p)
    ensures p !in SentBy(s, Pop(w, now, results))
  {
    if p in SentBy(s, Pop(w, now, results)) {
      QueuedTask(s, w, 0);
    }
  }

  /** A packet after a task is taken up, whichever worker sent it, and whether before or just now. */
  predicate Unharmed(s: Sys, w: nat, now: int, results: seq<SendResult>, sent: set<Packet>, p: Packet)
    requires w < |s.workers|
  {
    if now !in s.workers[w].doingMap then AtOnce(results) || !(p in sent && Strikes(p, w, now, results))
    else p in sent && !(AtOnce(results) && Awaits(s, p) && p.w == w && p.timestamp == now)
  }

  lemma AfterTakingUp(s: Sys, w: nat, now: int, results: seq<SendResult>, sent: set<Packet>, p: Packet)
    requires Inv(s) && History(s, sent) && AllClear(s, sent)
    requires Enabled(s, Pop(w, now, results)) && Accepts(s, Pop(w, now, results), w)
    requires s.workers[w].queue[0] in s.heap && p in sent + SentBy(s, Pop(w, now, results))
    ensures Clear(TakeUp(s, w, now, results), p) <==> Unharmed(s, w, now, results, sent, p)
  {
    if p !in sent {
      NewPacket(s, w, now, results, p);
    } else if p.w == w {
      OldPacket(s, w, now, results, p);
    } else {
      StaysClear(s, Pop(w, now, results), sent, p);
    }
  }

  /** Nobody is harmed exactly when the callback does not spoil: under a timestamp in use, a packet that
      goes out is harmed, and so are those of the mapped task if it loses its entry. */
  lemma HarmIsSpoiling(s: Sys, w: nat, now: int, results: seq<SendResult>, sent: set<Packet>)
    requires Inv(s) && History(s, sent) && AllClear(s, sent)
    requires Enabled(s, Pop(w, now, results)) && Accepts(s, Pop(w, now, results), w)
    ensures (forall p :: p in sent + SentBy(s, Pop(w, now, results)) ==> Unharmed(s, w, now, results, sent, p))
       <==> !Spoils(s, Pop(w, now, results), sent)
  {
    var out := SentBy(s, Pop(w, now, results));
    if now !in s.workers[w].doingMap {
      if exists p :: p in sent && Strikes(p, w, now, results) {
        var p :| p in sent && Strikes(p, w, now, results);
        assert p in sent + out && (Unharmed(s, w, now, results, sent, p) <==> AtOnce(results));
      }
    } else if AtOnce(results) {
      LostEntryHarms(s, w, now, sent);
      assert out == {};
      if exists p :: p in sent && Awaits(s, p) && p.w == w && p.timestamp == now {
        var p :| p in sent && Awaits(s, p) && p.w == w && p.timestamp == now;
        assert p in sent + out && !Unharmed(s, w, now, results, sent, p);
      }
    } else if results != [] {
      var k := SomeFails(results);
      var p := Sent(s, w, now, results, k);
      if p in sent {
        NewIsNew(s, w, now, results, p);
      }
      assert p in sent + out && !Unharmed(s, w, now, results, sent, p);
    }
  }

  /** Somebody waits for a packet sent under a mapped timestamp exactly when the mapped task has a server. */
  lemma LostEntryHarms(s: Sys, w: nat, now: int, sent: set<Packet>)
    requires Inv(s) && History(s, sent) && AllClear(s, sent) && w < |s.workers| && now in s.workers[w].doingMap
    ensures s.workers[w].doingMap[now] in s.heap
    ensures (exists p :: p in sent && Awaits(s, p) && p.w == w && p.timestamp == now)
       <==> s.heap[s.workers[w].doingMap[now]].totalCount > 0
  {
    MappedTask(s, w, now);
    var u := s.workers[w].doingMap[now];
    if s.heap[u].totalCount > 0 {
      assert u in ActiveSet(s.stage, w);
      var p := AwaitedPacket(s, sent, w, u);
    }
    forall p | p in sent && Awaits(s, p) && p.w == w && p.timestamp == now ensures s.heap[u].totalCount > 0 {
      assert Clear(s, p) && Sender(s, p);
    }
  }

  lemma TakingUpSpoils(s: Sys, w: nat, now: int, results: seq<SendResult>, sent: set<Packet>)
    requires Inv(s) && History(s, sent) && AllClear(s, sent)
    requires Enabled(s, Pop(w, now, results)) && Accepts(s, Pop(w, now, results), w)
    requires s.workers[w].queue[0] in s.heap
    ensures AllClear(TakeUp(s, w, now, results), sent + SentBy(s, Pop(w, now, results)))
       <==> !Spoils(s, Pop(w, now, results), sent)
  {
    HarmIsSpoiling(s, w, now, results, sent);
    var all := sent + SentBy(s, Pop(w, now, results));
    forall p | p in all ensures Clear(TakeUp(s, w, now, results), p) <==> Unharmed(s, w, now, results, sent, p) {
      AfterTakingUp(s, w, now, results, sent, p);
    }
  }

  /** Right attribution survives a callback if and only if the callback does not spoil it, which only
      taking up a task can. */
  lemma AttributedStep(s: Sys, e: Event, sent: set<Packet>)
    requires Inv(s) && History(s, sent) && Attributed(s, sent) && Enabled(s, e) && Next(s, e).Some?
    ensures History(Next(s, e).value, sent + SentBy(s, e))
    ensures Attributed(Next(s, e).value, sent + SentBy(s, e)) <==> !Spoils(s, e, sent)
  {
    StepKeeps(s, e);
    HistoryStep(s, e, sent);
    AttributedIff(s, sent);
    AttributedIff(Next(s, e).value, sent + SentBy(s, e));
    if e.Pop? && Accepts(s, e, e.w) {
      TakingUpSpoils(s, e.w, e.now, e.results, sent);
    } else {
      forall p | p in sent ensures Clear(Next(s, e).value, p) {
        StaysClear(s, e, sent, p);
      }
    }
  }

  /** A timestamp that is not in the index and that no packet of the worker carries does no harm. */
  lemma UnusedStamp(s: Sys, e: Event, sent: set<Packet>)
    requires e.Pop? && e.w < |s.workers| && e.now !in s.workers[e.w].doingMap
    requires forall p :: p in sent && p.w == e.w ==> p.timestamp != e.now
    ensures !Spoils(s, e, sent)
  {
  }

  // ---- Over runs --------------------------------------------------------------------------------------

  /** Every reply of the run carries what some packet sent before it in the run carried; replies may
      be lost, repeated and late. */
  predicate Honest(s: Sys, es: seq<Event>, sent: set<Packet>)
    requires Possible(s, es)
    decreases |es|
  {
    es == []
    || ((es[0].Receive? ==>
           exists p :: p in sent && p.w == es[0].w && p.timestamp == es[0].timestamp && p.index == es[0].index)
        && (Next(s, es[0]).Some? ==> Honest(Next(s, es[0]).value, es[1..], sent + SentBy(s, es[0]))))
  }

  /** At every point of the run every packet sent by then would be credited as it should. */
  ghost predicate AlwaysAttributed(s: Sys, es: seq<Event>, sent: set<Packet>)
    requires Possible(s, es)
    decreases |es|
  {
    Attributed(s, sent)
    && (es != [] && Next(s, es[0]).Some? ==> AlwaysAttributed(Next(s, es[0]).value, es[1..], sent + SentBy(s, es[0])))
  }

  /** No callback of the run spoils it. */
  predicate Unspoilt(s: Sys, es: seq<Event>, sent: set<Packet>)
    requires Possible(s, es)
    decreases |es|
  {
    es != [] ==>
      && !Spoils(s, es[0], sent)
      && (Next(s, es[0]).Some? ==> Unspoilt(Next(s, es[0]).value, es[1..], sent + SentBy(s, es[0])))
  }

  lemma {:induction false} AlwaysIffUnspoilt(s: Sys, es: seq<Event>, sent: set<Packet>)
    requires Inv(s) && History(s, sent) && Attributed(s, sent) && Possible(s, es)
    ensures AlwaysAttributed(s, es, sent) <==> Unspoilt(s, es, sent)
    decreases |es|
  {
    if es != [] && Next(s, es[0]).Some? {
      var s', all := Next(s, es[0]).value, sent + SentBy(s, es[0]);
      StepKeeps(s, es[0]);
      AttributedStep(s, es[0], sent);
      if Attributed(s', all) {
        AlwaysIffUnspoilt(s', es[1..], all);
      }
    } else if es != [] {
      StepKeeps(s, es[0]);
    }
  }

  /** An honest reply in a state of right attribution meets no missing ping. */
  lemma HonestReply(s: Sys, e: Event, sent: set<Packet>)
    requires Inv(s) && Attributed(s, sent) && Enabled(s, e)
    requires e.Receive? ==> exists p :: p in sent && p.w == e.w && p.timestamp == e.timestamp && p.index == e.index
    ensures !Overrun(s, e) && Next(s, e).Some?
  {
    StepKeeps(s, e);
    if e.Receive? {
      var p :| p in sent && p.w == e.w && p.timestamp == e.timestamp && p.index == e.index;
      assert Credits(s, p.w, p.timestamp, p.index, e.now, p.t, p.req);
    }
  }

  lemma {:induction false} UnspoiltIsSafe(s: Sys, es: seq<Event>, sent: set<Packet>)
    requires Inv(s) && History(s, sent) && Attributed(s, sent) && Possible(s, es)
    requires Honest(s, es, sent) && Unspoilt(s, es, sent)
    ensures !Overruns(s, es)
    decreases |es|
  {
    if es != [] {
      StepKeeps(s, es[0]);
      HonestReply(s, es[0], sent);
      AttributedStep(s, es[0], sent);
      UnspoiltIsSafe(Next(s, es[0]).value, es[1..], sent + SentBy(s, es[0]));
    }
  }

  lemma StartsAttributed(n: nat)
    ensures Inv(Init(n)) && History(Init(n), {}) && Attributed(Init(n), {})
  {
    InitKeeps(n);
  }

  /** Over every run from the start, whatever replies it contains: the packets sent by then are credited
      as they should be, at every point, if and only if no task is taken up in a way that spoils it; and
      if so and the replies are honest, no callback goes astray. */
  lemma AttributedRuns(n: nat, es: seq<Event>)
    requires Possible(Init(n), es)
    ensures AlwaysAttributed(Init(n), es, {}) <==> Unspoilt(Init(n), es, {})
    ensures Unspoilt(Init(n), es, {}) && Honest(Init(n), es, {}) ==> Run(Init(n), es).Some?
  {
    StartsAttributed(n);
    AlwaysIffUnspoilt(Init(n), es, {});
    if Unspoilt(Init(n), es, {}) && Honest(Init(n), es, {}) {
      UnspoiltIsSafe(Init(n), es, {});
      RunKeeps(Init(n), es);
    }
  }

  // ---- Distinct timestamps ------------------------------------------------------------------------------

  /** No timestamp in the index, or sent, is among those to come. */
  predicate Ahead(s: Sys, w: nat, sent: set<Packet>, stamps: set<int>)
    requires w < |s.workers|
  {
    && (forall ts :: ts in s.workers[w].doingMap ==> ts !in stamps)
    && (forall p :: p in sent && p.w == w ==> p.timestamp !in stamps)
  }

  ghost predicate AllAhead(s: Sys, sent: set<Packet>, es: seq<Event>) {
    forall w: nat :: w < |s.workers| ==> Ahead(s, w, sent, Stamps(es, w)) && DistinctStamps(es, w)
  }

  lemma AheadStep(s: Sys, e: Event, es: seq<Event>, sent: set<Packet>)
    requires Inv(s) && Enabled(s, e) && Next(s, e).Some? && es != [] && es[0] == e && AllAhead(s, sent, es)
    ensures AllAhead(Next(s, e).value, sent + SentBy(s, e), es[1..])
  {
    var s' := Next(s, e).value;
    WorkersKept(s, e);
    forall w: nat | w < |s'.workers|
      ensures Ahead(s', w, sent + SentBy(s, e), Stamps(es[1..], w)) && DistinctStamps(es[1..], w)
    {
      KeysGrow(s, e, w);
      assert Ahead(s, w, sent, Stamps(es, w)) && DistinctStamps(es, w);
    }
  }

  lemma {:induction false} DistinctIsUnspoilt(s: Sys, es: seq<Event>, sent: set<Packet>)
    requires Inv(s) && Possible(s, es) && AllAhead(s, sent, es)
    ensures Unspoilt(s, es, sent)
    decreases |es|
  {
    if es != [] {
      StepKeeps(s, es[0]);
      if es[0].Pop? {
        assert Ahead(s, es[0].w, sent, Stamps(es, es[0].w));
        UnusedStamp(s, es[0], sent);
      }
      if Next(s, es[0]).Some? {
        AheadStep(s, es[0], es, sent);
        DistinctIsUnspoilt(Next(s, es[0]).value, es[1..], sent + SentBy(s, es[0]));
      }
    }
  }

  /** With distinct timestamps nothing is spoilt: at every point of the run every packet sent is
      credited as it should be; and with honest replies no callback touches memory that is not there. */
  lemma HonestRunIsSafe(n: nat, es: seq<Event>)
    requires Possible(Init(n), es) && forall w: nat :: w < n ==> DistinctStamps(es, w)
    ensures AlwaysAttributed(Init(n), es, {})
    ensures Honest(Init(n), es, {}) ==> Run(Init(n), es).Some? && Inv(Run(Init(n), es).value)
    ensures Run(Init(n), es).Some? ==> forall w: nat :: w < n ==> AllCredited(Run(Init(n), es).value, w)
  {
    StartsAttributed(n);
    DistinctIsUnspoilt(Init(n), es, {});
    AttributedRuns(n, es);
    RunKeeps(Init(n), es);
    if Run(Init(n), es).Some? {
      forall w: nat | w < n ensures AllCredited(Run(Init(n), es).value, w) {
        DistinctStampsIndex(n, es, w);
        CreditedIffFound(Run(Init(n), es).value, w);
      }
    }
  }
}
