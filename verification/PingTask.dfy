/** One task and its pings: what each worker callback does to them, and what that keeps.
    A callback sees one task, the worker's bookkeeping, and that task's armed timers. */
module PingTask {
  import opened Basics

  datatype Status = Uninited | Doing | TimedOut | SendError | Success

  /** Why a ping ended. */
  datatype Cause = Reply | Timeout | Failure

  /** `log` is a history: one entry for every time `doneCount` is raised for this ping. */
  datatype Ping = Ping(
    ip: string, timeout: int, status: Status, sendtime: int, recvtime: int,
    worker: Option<nat>, log: seq<Cause>)

  datatype Task = Task(
    prepareError: bool, preErrorCode: int, timestamp: int,
    totalCount: int, doneCount: int, pings: seq<Ping>)

  /** What one send attempt comes to: `inet_pton` fails, `sendto` fails, or the packet is out. */
  datatype SendResult = BadAddress | SendFailed(now: int) | Sent(now: int)

  /** The state a callback works on. `timers` are the indices of this task's armed timers and
      `sent` counts how often the task has been sent to the master. */
  datatype Local<T> = Local(
    task: Task, doingMap: map<int, T>, doingCount: int, timers: set<nat>, sent: nat)

  const DOING_TASK_CAPACITY := 1024
  const TOO_MANY_TASKS := 1005

  predicate Terminal(p: Ping) {
    p.status != Uninited && p.status != Doing
  }

  // ---- The callbacks -------------------------------------------------------------------------

  /** `TaskWorker::onComplete`, both branches: the task goes to the master either way. */
  function OnComplete<T>(l: Local<T>): Local<T> {
    var ts := l.task.timestamp;
    l.(doingCount := l.doingCount - 1,
       doingMap := if ts in l.doingMap then l.doingMap - {ts} else l.doingMap,
       sent := l.sent + 1)
  }

  function Put(t: Task, i: nat, p: Ping): Task
    requires i < |t.pings|
  {
    t.(pings := t.pings[i := p])
  }

  /** Ping `i` ends as `p`: the count goes up and a complete task is handed off. */
  function Credit<T>(l: Local<T>, i: nat, p: Ping): Local<T>
    requires i < |l.task.pings|
  {
    var t := Put(l.task, i, p).(doneCount := l.task.doneCount + 1);
    if t.doneCount >= t.totalCount then OnComplete(l.(task := t)) else l.(task := t)
  }

  /** `Ping::start`, with `setTimer` after a successful send. */
  function Start<T>(l: Local<T>, i: nat, w: nat, r: SendResult): Local<T>
    requires i < |l.task.pings|
  {
    var p := l.task.pings[i].(worker := Some(w));
    match r
    case BadAddress => Fail(l, i, p)
    case SendFailed(now) => Fail(l, i, p.(sendtime := now))
    case Sent(now) =>
      l.(task := Put(l.task, i, p.(sendtime := now, status := Doing)), timers := l.timers + {i})
  }

  function Fail<T>(l: Local<T>, i: nat, p: Ping): Local<T>
    requires i < |l.task.pings|
  {
    if Terminal(p) then l.(task := Put(l.task, i, p))
    else Credit(l, i, p.(status := SendError, log := p.log + [Failure]))
  }

  /** `TaskWorker::doTask` from ping `i` on, with the bound read on entry. */
  function DoTask<T>(l: Local<T>, i: nat, w: nat, results: seq<SendResult>): Local<T>
    requires i <= |l.task.pings| == |results|
    decreases |results| - i
  {
    if i == |results| then l else DoTask(Start(l, i, w, results[i]), i + 1, w, results)
  }

  /** `Ping::handleTimeout`: the one-shot timer is spent when it fires. */
  function HandleTimeout<T>(l: Local<T>, i: nat): Local<T>
    requires i < |l.task.pings|
  {
    var fired := l.(timers := l.timers - {i});
    var p := l.task.pings[i];
    if Terminal(p) then fired
    else Credit(fired, i, p.(status := TimedOut, log := p.log + [Timeout]))
  }

  /** `TaskWorker::onReceive` once the task is found; an index beyond the count is ignored. */
  function Deliver<T>(l: Local<T>, i: nat, now: int): Local<T>
    requires i < |l.task.pings| || i > l.task.totalCount
  {
    if i > l.task.totalCount then l
    else
      var p := l.task.pings[i];
      if Terminal(p) then l
      else
        Credit(l.(timers := l.timers - {i}), i,
               p.(status := Success, recvtime := now, log := p.log + [Reply]))
  }

  /** Taking up a task in a worker that is full, and in one that is not. */
  function TurnAway<T>(l: Local<T>): Local<T> {
    l.(task := l.task.(prepareError := true, preErrorCode := TOO_MANY_TASKS), sent := l.sent + 1)
  }

  /** `insert` keeps an entry that is already there. */
  function TakeOn<T>(l: Local<T>, now: int, t: T): Local<T> {
    l.(task := l.task.(timestamp := now),
       doingMap := if now in l.doingMap then l.doingMap else l.doingMap[now := t],
       doingCount := l.doingCount + 1)
  }

  // ---- Counting -------------------------------------------------------------------------------

  function CountDone(ps: seq<Ping>): (n: nat)
    ensures n <= |ps|
  {
    if ps == [] then 0
    else CountDone(ps[..|ps| - 1]) + if Terminal(ps[|ps| - 1]) then 1 else 0
  }

  lemma {:induction false} CountUpdate(ps: seq<Ping>, i: nat, p: Ping)
    requires i < |ps|
    ensures CountDone(ps[i := p])
         == CountDone(ps) - (if Terminal(ps[i]) then 1 else 0) + (if Terminal(p) then 1 else 0)
  {
    var n := |ps| - 1;
    if i < n {
      CountUpdate(ps[..n], i, p);
      assert ps[i := p][..n] == ps[..n][i := p];
    } else {
      assert ps[i := p][..n] == ps[..n];
    }
  }

  /** The count is full exactly when every ping has ended. */
  lemma {:induction false} CountFull(ps: seq<Ping>)
    ensures CountDone(ps) == |ps| <==> forall k :: 0 <= k < |ps| ==> Terminal(ps[k])
  {
    if ps != [] {
      CountFull(ps[..|ps| - 1]);
    }
  }

  /** Pings not yet started do not count. */
  lemma {:induction false} CountStarted(ps: seq<Ping>, i: nat)
    requires i <= |ps| && forall k :: i <= k < |ps| ==> !Terminal(ps[k])
    ensures CountDone(ps) <= i
  {
    if |ps| > i {
      CountStarted(ps[..|ps| - 1], i);
    }
  }

  // ---- What holds of a task between callbacks ----------------------------------------------------

  /** The history of a ping agrees with its status: ended once, for the reason the status
      names, or not at all. */
  predicate PingOk(p: Ping) {
    p.log == match p.status
             case Uninited => []
             case Doing => []
             case TimedOut => [Timeout]
             case SendError => [Failure]
             case Success => [Reply]
  }

  predicate PingsOk(t: Task) {
    && |t.pings| == t.totalCount
    && t.doneCount == CountDone(t.pings)
    && forall k :: 0 <= k < |t.pings| ==> PingOk(t.pings[k])
  }

  /** Accepted by the HTTP side, not yet taken up by a worker. */
  predicate Fresh(t: Task) {
    && !t.prepareError && PingsOk(t)
    && forall k :: 0 <= k < |t.pings| ==> t.pings[k].status == Uninited
  }

  /** The pings waiting for a reply. */
  function DoingSet(t: Task): set<nat> {
    set k: nat | k < |t.pings| && t.pings[k].status == Doing
  }

  /** Started by worker `w` up to ping `i`, with exactly the waiting pings' timers armed. */
  predicate Started(t: Task, timers: set<nat>, i: nat, w: nat) {
    && !t.prepareError && PingsOk(t) && i <= |t.pings|
    && (forall k :: 0 <= k < i ==> t.pings[k].status != Uninited && t.pings[k].worker == Some(w))
    && (forall k :: i <= k < |t.pings| ==> t.pings[k].status == Uninited)
    && timers == DoingSet(t)
  }

  /** Active: all pings started, not all ended (or there were none to start). */
  predicate Running(t: Task, timers: set<nat>, w: nat) {
    && Started(t, timers, |t.pings|, w)
    && (t.doneCount < t.totalCount || t.totalCount == 0)
  }

  /** Handed off: every ping has ended and no timer is armed. */
  predicate Complete(t: Task) {
    && !t.prepareError && PingsOk(t) && t.doneCount == t.totalCount > 0
    && forall k :: 0 <= k < |t.pings| ==> Terminal(t.pings[k])
  }

  /** What a callback leaves behind, relative to the bookkeeping it found. */
  ghost predicate Outcome<T>(l: Local<T>, r: Local<T>, w: nat) {
    && r.task.timestamp == l.task.timestamp && r.task.totalCount == l.task.totalCount
    && if r.sent == 0 then Running(r.task, r.timers, w) && r.doingMap == l.doingMap && r.doingCount == l.doingCount
       else
         && r.sent == 1 && Complete(r.task) && r.timers == {}
         && r.doingMap == l.doingMap - {l.task.timestamp} && r.doingCount == l.doingCount - 1
  }

  /** Pings other than `i` are untouched, and an ended ping never changes again. */
  predicate OnlyPing(t: Task, u: Task, i: nat) {
    && |t.pings| == |u.pings|
    && forall k :: 0 <= k < |t.pings| && (k != i || Terminal(t.pings[k])) ==> u.pings[k] == t.pings[k]
  }

  // ---- The callbacks keep it ------------------------------------------------------------------------

  /** Ending one pending ping of a started task: the count follows, the timers follow, and the
      hand-off happens exactly when this was the last one. */
  lemma CreditKeeps<T>(l: Local<T>, m: Local<T>, i: nat, p: Ping, w: nat)
    requires Started(l.task, l.timers, |l.task.pings|, w) && l.sent == 0 && l.task.totalCount > 0
    requires i < |l.task.pings| && !Terminal(l.task.pings[i])
    requires m == l.(timers := l.timers - {i})
    requires Terminal(p) && PingOk(p) && p.worker == Some(w)
    ensures Outcome(l, Credit(m, i, p), w)
    ensures Credit(m, i, p).sent == 1 <==> l.task.doneCount + 1 == l.task.totalCount
  {
    var ps := l.task.pings[i := p];
    CountUpdate(l.task.pings, i, p);
    CountFull(ps);
    assert DoingSet(Put(l.task, i, p)) == DoingSet(l.task) - {i};
    if CountDone(ps) == |ps| {
      assert DoingSet(l.task) - {i} == {};
    }
  }

  /** A timer that fires ends its ping and changes nothing else. */
  lemma TimeoutKeeps<T>(l: Local<T>, i: nat, w: nat)
    requires Running(l.task, l.timers, w) && l.sent == 0 && i in l.timers
    ensures i < |l.task.pings|
    ensures Outcome(l, HandleTimeout(l, i), w)
    ensures HandleTimeout(l, i).task.pings[i].status == TimedOut
    ensures OnlyPing(l.task, HandleTimeout(l, i).task, i)
    ensures HandleTimeout(l, i).task.doneCount == l.task.doneCount + 1
    ensures HandleTimeout(l, i).sent == 1 <==> l.task.doneCount + 1 == l.task.totalCount
  {
    var p := l.task.pings[i];
    CreditKeeps(l, l.(timers := l.timers - {i}), i, p.(status := TimedOut, log := p.log + [Timeout]), w);
  }

  /** A reply ends the ping it names if that ping is still pending, and is ignored otherwise:
      duplicates and late replies change nothing. A pending ping always has a timer to delete. */
  lemma DeliverKeeps<T>(l: Local<T>, i: nat, now: int, w: nat)
    requires Running(l.task, l.timers, w) && l.sent == 0 && i != l.task.totalCount
    ensures var r := Deliver(l, i, now);
      && (i < |l.task.pings| && !Terminal(l.task.pings[i]) ==>
            && i in l.timers && Outcome(l, r, w) && OnlyPing(l.task, r.task, i)
            && r.task.pings[i].status == Success && r.task.pings[i].recvtime == now
            && r.task.pings[i].sendtime == l.task.pings[i].sendtime
            && r.task.doneCount == l.task.doneCount + 1
            && (r.sent == 1 <==> l.task.doneCount + 1 == l.task.totalCount))
      && (i >= |l.task.pings| || Terminal(l.task.pings[i]) ==> r == l)
  {
    if i < |l.task.pings| && !Terminal(l.task.pings[i]) {
      var p := l.task.pings[i];
      CreditKeeps(l, l.(timers := l.timers - {i}), i,
                  p.(status := Success, recvtime := now, log := p.log + [Reply]), w);
    }
  }

  /** One more ping started: the one at `i` becomes `p`, ended or waiting. */
  lemma StartedNext<T>(l: Local<T>, i: nat, w: nat, p: Ping, m: Local<T>)
    requires Started(l.task, l.timers, i, w) && i < |l.task.pings|
    requires PingOk(p) && p.status != Uninited && p.worker == Some(w)
    requires m.task == Put(l.task, i, p).(doneCount := l.task.doneCount + if Terminal(p) then 1 else 0)
    requires m.timers == if Terminal(p) then l.timers else l.timers + {i}
    ensures Started(m.task, m.timers, i + 1, w)
    ensures m.task.doneCount <= i + 1
  {
    CountUpdate(l.task.pings, i, p);
    CountStarted(m.task.pings, i + 1);
    assert DoingSet(m.task) == if Terminal(p) then DoingSet(l.task) else DoingSet(l.task) + {i};
  }

  /** A started task whose count is full is complete, and no timer is armed. */
  lemma FullIsComplete<T>(l: Local<T>, i: nat, w: nat)
    requires Started(l.task, l.timers, i, w) && l.task.doneCount == l.task.totalCount > 0
    ensures Complete(l.task) && l.timers == {}
  {
    CountFull(l.task.pings);
    assert DoingSet(l.task) == {};
  }

  /** What starting a ping does, hand-off and all. */
  lemma StartEffect<T>(l: Local<T>, i: nat, w: nat, r: SendResult)
    requires i < |l.task.pings| && l.task.pings[i].status == Uninited && l.task.pings[i].log == [] && l.sent == 0
    ensures var m := Start(l, i, w, r);
      && i < |m.task.pings|
      && var p := m.task.pings[i];
         && PingOk(p) && p.status != Uninited && p.worker == Some(w) && (Terminal(p) <==> !r.Sent?)
         && m.task == Put(l.task, i, p).(doneCount := l.task.doneCount + if Terminal(p) then 1 else 0)
         && m.timers == (if Terminal(p) then l.timers else l.timers + {i})
    ensures var m := Start(l, i, w, r);
      if !r.Sent? && m.task.doneCount >= m.task.totalCount then
        m.sent == 1 && m.doingMap == l.doingMap - {l.task.timestamp} && m.doingCount == l.doingCount - 1
      else m.sent == 0 && m.doingMap == l.doingMap && m.doingCount == l.doingCount
  {
  }

  /** Starting one more ping. */
  lemma StartKeeps<T>(l: Local<T>, i: nat, w: nat, r: SendResult)
    requires Started(l.task, l.timers, i, w) && l.sent == 0 && i < |l.task.pings|
    ensures var m := Start(l, i, w, r);
      && Started(m.task, m.timers, i + 1, w)
      && m.task.timestamp == l.task.timestamp && m.task.totalCount == l.task.totalCount
      && m.task.doneCount == l.task.doneCount + (if r.Sent? then 0 else 1)
      && m.task.doneCount <= i + 1
      && m.sent <= 1
      && (m.sent == 1 <==> m.task.doneCount == m.task.totalCount)
      && (m.sent == 0 ==> m.doingMap == l.doingMap && m.doingCount == l.doingCount)
      && (m.sent == 1 ==>
            && i + 1 == |m.task.pings| && m.timers == {} && Complete(m.task)
            && m.doingMap == l.doingMap - {l.task.timestamp} && m.doingCount == l.doingCount - 1)
  {
    CountStarted(l.task.pings, i);
    var m := Start(l, i, w, r);
    assert PingOk(l.task.pings[i]);
    StartEffect(l, i, w, r);
    StartedNext(l, i, w, m.task.pings[i], m);
    assert m.task.doneCount <= i + 1 <= m.task.totalCount;
    if m.task.doneCount == m.task.totalCount {
      FullIsComplete(m, i + 1, w);
    }
  }

  predicate AllFail(results: seq<SendResult>, i: nat) {
    forall k :: i <= k < |results| ==> !results[k].Sent?
  }

  /** `doTask` on a fresh task, whatever the sends come to: every ping is started, and the task
      is handed off at once exactly when every send failed, after the last of them. */
  lemma {:induction false} DoTaskKeeps<T>(l: Local<T>, i: nat, w: nat, results: seq<SendResult>)
    requires Started(l.task, l.timers, i, w) && l.sent == 0 && |results| == |l.task.pings|
    requires l.task.doneCount < l.task.totalCount || l.task.totalCount == 0
    ensures Outcome(l, DoTask(l, i, w, results), w)
    ensures DoTask(l, i, w, results).sent == 1 <==> |results| > 0 && l.task.doneCount == i && AllFail(results, i)
    decreases |results| - i
  {
    CountStarted(l.task.pings, i);
    if i < |results| {
      var m := Start(l, i, w, results[i]);
      StartKeeps(l, i, w, results[i]);
      if m.sent == 0 {
        DoTaskKeeps(m, i + 1, w, results);
        OutcomeThrough(l, m, DoTask(m, i + 1, w, results), w);
      }
      FailSoFar(l.task.doneCount, m.task.doneCount, i, results);
    }
  }

  lemma OutcomeThrough<T>(l: Local<T>, m: Local<T>, r: Local<T>, w: nat)
    requires m.task.timestamp == l.task.timestamp && m.task.totalCount == l.task.totalCount
    requires m.doingMap == l.doingMap && m.doingCount == l.doingCount && Outcome(m, r, w)
    ensures Outcome(l, r, w)
  {
  }

  lemma FailSoFar(before: int, after: int, i: nat, results: seq<SendResult>)
    requires i < |results| && after == before + (if results[i].Sent? then 0 else 1)
    ensures before <= i ==> (before == i && AllFail(results, i) <==> after == i + 1 && AllFail(results, i + 1))
  {
  }

  /** A ping after its send was attempted. */
  function Attempted(p: Ping, w: nat, r: SendResult): Ping {
    match r
    case BadAddress => p.(worker := Some(w), status := SendError, log := p.log + [Failure])
    case SendFailed(now) => p.(worker := Some(w), sendtime := now, status := SendError, log := p.log + [Failure])
    case Sent(now) => p.(worker := Some(w), sendtime := now, status := Doing)
  }

  /** `doTask` attempts every ping from `i` on, once, and touches no other. */
  lemma {:induction false} DoTaskSends<T>(l: Local<T>, i: nat, w: nat, results: seq<SendResult>)
    requires i <= |l.task.pings| == |results|
    requires forall k :: i <= k < |results| ==> l.task.pings[k].status == Uninited
    ensures var r := DoTask(l, i, w, results);
      && |r.task.pings| == |results| && r.task.totalCount == l.task.totalCount
      && r.task.prepareError == l.task.prepareError && r.task.preErrorCode == l.task.preErrorCode
      && r.task.timestamp == l.task.timestamp
      && (forall k :: 0 <= k < i ==> r.task.pings[k] == l.task.pings[k])
      && (forall k :: i <= k < |results| ==> r.task.pings[k] == Attempted(l.task.pings[k], w, results[k]))
    decreases |results| - i
  {
    if i < |results| {
      DoTaskSends(Start(l, i, w, results[i]), i + 1, w, results);
    }
  }

  /** Once every ping is started, those waiting and those ended make up the task. */
  lemma {:induction false} WaitingCount(ps: seq<Ping>)
    requires forall k :: 0 <= k < |ps| ==> ps[k].status != Uninited
    ensures |set k: nat | k < |ps| && ps[k].status == Doing| == |ps| - CountDone(ps)
  {
    var waiting := set k: nat | k < |ps| && ps[k].status == Doing;
    if ps == [] {
      assert waiting == {};
    } else {
      WaitingCount(ps[..|ps| - 1]);
      OneMoreWaiting(ps);
    }
  }

  lemma OneMoreWaiting(ps: seq<Ping>)
    requires ps != []
    ensures var n := |ps| - 1;
      |set k: nat | k < |ps| && ps[k].status == Doing|
      == |set k: nat | k < |ps[..n]| && ps[..n][k].status == Doing| + if ps[n].status == Doing then 1 else 0
  {
    var n := |ps| - 1;
    var waiting := set k: nat | k < |ps| && ps[k].status == Doing;
    var before := set k: nat | k < |ps[..n]| && ps[..n][k].status == Doing;
    assert waiting == before + if ps[n].status == Doing then {n} else {};
  }
}
