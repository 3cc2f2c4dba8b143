/** The objects of the ping service and their callbacks, each proved to do to one task, its worker
    and the response queue what `PingTask` says. The event loop's side is explicit: what a send came
    to, what the clock read, and which callback runs. */
module PingService {
  import opened Basics
  import J = JsonValues
  import P = PingTask
  import R = TaskReport

  const WORKER_NUM := 1

  class Ping {
    const index: nat
    const parentTask: Task
    var ip: string
    var timeout: int
    var status: P.Status
    var sendtime: int
    var recvtime: int
    var worker: TaskWorker?
    var timerArmed: bool
    ghost var log: seq<P.Cause>

    constructor (index: nat, parentTask: Task, ip: string, timeout: int)
      ensures this.index == index && this.parentTask == parentTask
      ensures Rec() == R.NewPing(ip, timeout) && !timerArmed
    {
      this.index, this.parentTask := index, parentTask;
      this.ip, this.timeout, status := ip, timeout, P.Uninited;
      sendtime, recvtime := 0, 0;
      worker, timerArmed, log := null, false, [];
    }

    ghost function Rec(): P.Ping
      reads this
    {
      P.Ping(ip, timeout, status, sendtime, recvtime, if worker == null then None else Some(worker.threadId), log)
    }

    /** The ping lies where its task looks for it. */
    ghost predicate InPlace()
      reads this, parentTask, parentTask.pingArray
    {
      parentTask.Valid() && index < |parentTask.pingArray| && parentTask.pingArray[index] == this
    }

    method HandleTimeout(ghost base: nat)
      requires InPlace() && worker != null && base <= |worker.master.responseQueue|
      modifies this`status, this`timerArmed, this`log, parentTask`doneCount,
               worker`doingMap, worker`doingCount, worker.master`responseQueue
      ensures InPlace() && worker.Sends(parentTask, old(worker.master.responseQueue))
      ensures worker.View(parentTask, base) == P.HandleTimeout(old(worker.View(parentTask, base)), index)
    {
      ghost var before, timers := parentTask.Recs(), parentTask.Timers();
      timerArmed := false;
      TimersChanged(parentTask, index, timers);
      PingChanged(parentTask, index, before);
      Expire(base);
    }

    /** `handleTimeout` once its timer is spent. */
    method Expire(ghost base: nat)
      requires InPlace() && worker != null && base <= |worker.master.responseQueue|
      modifies this`status, this`log, parentTask`doneCount,
               worker`doingMap, worker`doingCount, worker.master`responseQueue
      ensures InPlace() && worker.Sends(parentTask, old(worker.master.responseQueue))
      ensures var l, p := old(worker.View(parentTask, base)), old(Rec());
        worker.View(parentTask, base) ==
          if P.Terminal(p) then l else P.Credit(l, index, p.(status := P.TimedOut, log := p.log + [P.Timeout]))
    {
      if status != P.Uninited && status != P.Doing {
        return;
      }
      ghost var before, timers := parentTask.Recs(), parentTask.Timers();
      status := P.TimedOut;
      log := log + [P.Timeout];
      PingChanged(parentTask, index, before);
      assert parentTask.Timers() == timers;
      worker.Count(parentTask, base);
    }

    /** `r` is what `inet_pton` and `sendto` came to. */
    method Start(r: P.SendResult, ghost base: nat)
      requires InPlace() && worker != null && base <= |worker.master.responseQueue|
      modifies this`status, this`sendtime, this`timerArmed, this`log, parentTask`doneCount,
               worker`doingMap, worker`doingCount, worker.master`responseQueue
      ensures InPlace() && worker.Sends(parentTask, old(worker.master.responseQueue))
      ensures worker.View(parentTask, base) == P.Start(old(worker.View(parentTask, base)), index, worker.threadId, r)
    {
      ghost var l, before, timers := worker.View(parentTask, base), parentTask.Recs(), parentTask.Timers();
      assert l.task.pings[index] == Rec();
      if r.BadAddress? {
        Fail(base);
        return;
      }
      sendtime := r.now;
      PingChanged(parentTask, index, before);
      if r.SendFailed? {
        assert parentTask.Timers() == timers;
        FailAgain(l, index, Rec());
        Fail(base);
        return;
      }
      status := P.Doing;
      SetTimer();
      TimersChanged(parentTask, index, timers);
      PingChanged(parentTask, index, before);
    }

    /** What both failing branches of `start` do. */
    method Fail(ghost base: nat)
      requires InPlace() && worker != null && base <= |worker.master.responseQueue|
      modifies this`status, this`log, parentTask`doneCount,
               worker`doingMap, worker`doingCount, worker.master`responseQueue
      ensures InPlace() && worker.Sends(parentTask, old(worker.master.responseQueue))
      ensures worker.View(parentTask, base) == P.Fail(old(worker.View(parentTask, base)), index, old(Rec()))
    {
      ghost var before, timers := parentTask.Recs(), parentTask.Timers();
      if status == P.Uninited || status == P.Doing {
        status := P.SendError;
        log := log + [P.Failure];
        PingChanged(parentTask, index, before);
        assert parentTask.Timers() == timers;
        worker.Count(parentTask, base);
      } else {
        assert before[index] == Rec();
      }
    }

    method SetTimer()
      modifies this`timerArmed
      ensures timerArmed
    {
      timerArmed := true;
    }
  }

  class Task {
    var prepareError: bool
    var preErrorCode: int
    var timestamp: int
    var totalCount: int
    var doneCount: int
    var pingArray: seq<Ping>

    ghost predicate Valid()
      reads this, pingArray
    {
      forall k :: 0 <= k < |pingArray| ==> pingArray[k].index == k && pingArray[k].parentTask == this
    }

    ghost function Recs(): seq<P.Ping>
      reads this, pingArray
    {
      seq(|pingArray|, k requires 0 <= k < |pingArray| reads this, pingArray => pingArray[k].Rec())
    }

    ghost function Rec(): P.Task
      reads this, pingArray
    {
      P.Task(prepareError, preErrorCode, timestamp, totalCount, doneCount, Recs())
    }

    ghost function Timers(): set<nat>
      reads this, pingArray
    {
      set k: nat | k < |pingArray| && pingArray[k].timerArmed
    }

    constructor (errorCode: int)
      ensures Valid() && Rec() == R.Refused(errorCode) && pingArray == []
    {
      prepareError, preErrorCode := true, errorCode;
      timestamp, totalCount, doneCount := 0, 0, 0;
      pingArray := [];
    }

    constructor Empty()
      ensures Valid() && Rec() == P.Task(false, 0, 0, 0, 0, []) && pingArray == []
    {
      prepareError, preErrorCode := false, 0;
      timestamp, totalCount, doneCount := 0, 0, 0;
      pingArray := [];
    }

    /** The constructor from a request body; None when it throws. */
    static method FromJson(body: J.Value) returns (task: Option<Task>)
      requires R.ReadTask(body) != R.Endless
      ensures task.None? <==> R.ReadTask(body) == R.Thrown
      ensures task.Some? ==>
        && fresh(task.value) && fresh(task.value.pingArray) && task.value.Valid()
        && R.ReadTask(body) == R.Built(task.value.Rec()) && task.value.Timers() == {}
    {
      var t := new Task.Empty();
      task := Some(t);
      if !body.Null? && !body.Obj? {
        t.prepareError, t.preErrorCode := true, 1001;
        return;
      }
      var timeout := R.AsInt(R.Member(body, "timeout").GetOr(J.Int(5)));
      if timeout.None? {
        return None;
      }
      if timeout.value <= 0 {
        t.prepareError, t.preErrorCode := true, 1002;
        return;
      }
      var servers := R.Member(body, "servers").GetOr(J.Null);
      if !servers.Arr? {
        t.prepareError, t.preErrorCode := true, 1003;
        return;
      }
      var size := J.ArraySize(servers.m);
      if size > R.MAX_PING_PER_TASK {
        t.prepareError, t.preErrorCode := true, 1004;
        return;
      }
      t.totalCount, t.doneCount := size, 0;
      var thrown := t.FillPings(servers.m, size, timeout.value);
      if thrown {
        return None;
      }
    }

    /** The constructor's loop, with its 16-bit counter. */
    method FillPings(servers: J.Entries, size: int, timeout: int) returns (thrown: bool)
      requires Valid() && pingArray == []
      requires size < R.COUNTER || (size == R.COUNTER && R.ReadServers(servers, 0, size, timeout).None?)
      modifies this`pingArray
      ensures thrown <==> R.ReadServers(servers, 0, size, timeout).None?
      ensures Valid() && fresh(pingArray)
      ensures !thrown ==> R.ReadServers(servers, 0, size, timeout) == Some(Recs()) && Timers() == {}
    {
      var i: nat := 0;
      JoinedStart(R.ReadServers(servers, 0, size, timeout));
      assert Recs() == [];
      while i < size
        invariant i == |pingArray| < R.COUNTER && (size < 0 ==> i == 0) && (0 <= size ==> i <= size)
        invariant Valid() && fresh(pingArray) && Timers() == {}
        invariant R.ReadServers(servers, 0, size, timeout) == Joined(Recs(), R.ReadServers(servers, i, size, timeout))
        decreases size - i
      {
        var ip := R.AsString(J.At(servers, i));
        if ip.None? {
          return true;
        }
        ghost var before := Recs();
        var ping := new Ping(i, this, ip.value, timeout);
        pingArray := pingArray + [ping];
        assert Recs() == before + [R.NewPing(ip.value, timeout)];
        JoinedStep(before, servers, i, size, timeout);
        i := (i + 1) % R.COUNTER;
      }
      assert Recs() + [] == Recs();
      return false;
    }

    /** `buildResponse`, up to the text. */
    method BuildResponse() returns (body: J.Value)
      requires Valid() && (prepareError || totalCount == |pingArray|)
      ensures body == R.Report(Rec())
    {
      body := J.Null;
      if prepareError {
        body := R.SetMember(body, "success", J.Bool(false));
        body := R.SetMember(body, "errMsg", J.Str(J.Chars(R.ErrorMessage(preErrorCode))));
        return;
      }
      body := R.SetMember(body, "success", J.Bool(true));
      body := R.SetMember(body, "errMsg", J.Str(J.Chars("")));
      var i := 0;
      while i < totalCount
        invariant 0 <= i <= totalCount
        invariant body == R.AddResults(R.Heading(true, ""), Recs(), i)
      {
        body := ReportPing(body, i);
        assert Recs()[i] == pingArray[i].Rec();
        i := i + 1;
      }
    }

    /** One turn of the loop in `buildResponse`. */
    method ReportPing(start: J.Value, i: nat) returns (body: J.Value)
      requires i < |pingArray|
      ensures body == R.AddResult(start, i, pingArray[i].Rec())
    {
      var p := pingArray[i];
      body := R.SetResult(start, i, "ip", J.Str(J.Chars(p.ip)));
      var lossRate := if p.status == P.Success then 0.0 else 1.0;
      body := R.SetResult(body, i, "lossRate", J.Real(lossRate));
      var cost := (p.recvtime - p.sendtime) as real / 1000.0;
      if lossRate == 0.0 {
        body := R.SetResult(body, i, "avgRtt", J.Real(cost));
      }
    }

    method FillHttpResponse() returns (response: R.Response)
      requires Valid() && (prepareError || totalCount == |pingArray|)
      ensures response == R.Respond(Rec())
    {
      if preErrorCode > 0 && preErrorCode < 1000 {
        return R.HttpError(preErrorCode);
      }
      var body := BuildResponse();
      return R.Body(body);
    }

    function IsComplete(): bool
      reads this
    {
      doneCount >= totalCount
    }
  }

  ghost function Joined(done: seq<P.Ping>, rest: Option<seq<P.Ping>>): Option<seq<P.Ping>> {
    match rest
    case None => None
    case Some(pings) => Some(done + pings)
  }

  lemma JoinedStart(rest: Option<seq<P.Ping>>)
    ensures Joined([], rest) == rest
  {
    assert rest.Some? ==> [] + rest.value == rest.value;
  }

  lemma JoinedStep(done: seq<P.Ping>, servers: J.Entries, i: nat, size: int, timeout: int)
    requires i < size && R.AsString(J.At(servers, i)).Some?
    ensures Joined(done, R.ReadServers(servers, i, size, timeout))
         == Joined(done + [R.NewPing(R.AsString(J.At(servers, i)).value, timeout)],
                   R.ReadServers(servers, i + 1, size, timeout))
  {
    var p := R.NewPing(R.AsString(J.At(servers, i)).value, timeout);
    assert forall rest: seq<P.Ping> {:trigger [p] + rest} :: done + ([p] + rest) == done + [p] + rest;
  }

  /** Only ping `i` changed. */
  lemma PingChanged(task: Task, i: nat, before: seq<P.Ping>)
    requires i < |task.pingArray| == |before|
    requires forall k :: 0 <= k < |before| && k != i ==> task.pingArray[k].Rec() == before[k]
    ensures task.Recs() == before[i := task.pingArray[i].Rec()]
  {
  }

  lemma TimersChanged(task: Task, i: nat, before: set<nat>)
    requires i < |task.pingArray|
    requires forall k: nat :: k < |task.pingArray| && k != i ==> (task.pingArray[k].timerArmed <==> k in before)
    requires forall k :: k in before ==> k < |task.pingArray|
    ensures task.Timers() == if task.pingArray[i].timerArmed then before + {i} else before - {i}
  {
  }

  function Counted<T>(l: P.Local<T>): P.Local<T> {
    var t := l.task.(doneCount := l.task.doneCount + 1);
    if t.doneCount >= t.totalCount then P.OnComplete(l.(task := t)) else l.(task := t)
  }

  lemma UpdateTwice<X>(s: seq<X>, i: nat, x: X, y: X)
    requires i < |s|
    ensures s[i := x][i := y] == s[i := y]
  {
  }

  lemma FailAgain<T>(l: P.Local<T>, i: nat, p: P.Ping)
    requires i < |l.task.pings|
    ensures P.Fail(l.(task := P.Put(l.task, i, p)), i, p) == P.Fail(l, i, p)
  {
    UpdateTwice(l.task.pings, i, p, p);
    UpdateTwice(l.task.pings, i, p, p.(status := P.SendError, log := p.log + [P.Failure]));
  }

  lemma StartAgain<T>(l: P.Local<T>, i: nat, w: nat, r: P.SendResult)
    requires i < |l.task.pings|
    ensures var p := l.task.pings[i].(worker := Some(w));
      P.Start(l.(task := P.Put(l.task, i, p)), i, w, r) == P.Start(l, i, w, r)
  {
    var p := l.task.pings[i].(worker := Some(w));
    var q := if r.BadAddress? then p else p.(sendtime := r.now);
    UpdateTwice(l.task.pings, i, p, q);
    UpdateTwice(l.task.pings, i, p, q.(status := P.SendError, log := p.log + [P.Failure]));
    UpdateTwice(l.task.pings, i, p, q.(status := P.Doing));
  }

  class TaskWorker {
    const threadId: nat
    const master: HttpServer
    var taskQueue: seq<Task>
    var doingMap: map<int, Task>
    var doingCount: int

    constructor (threadId: nat, master: HttpServer)
      ensures this.threadId == threadId && this.master == master
      ensures taskQueue == [] && doingMap == map[] && doingCount == 0
    {
      this.threadId, this.master := threadId, master;
      taskQueue, doingMap, doingCount := [], map[], 0;
    }

    /** What a callback on `task` works on, with the hand-offs since the response queue had
        length `base`. */
    ghost function View(task: Task, base: nat): P.Local<Task>
      requires base <= |master.responseQueue|
      reads this, task, task.pingArray, master
    {
      P.Local(task.Rec(), doingMap, doingCount, task.Timers(), |master.responseQueue| - base)
    }

    /** The response queue grew by `task`, if at all. */
    ghost predicate Sends(task: Task, before: seq<Task>)
      reads master
    {
      && before <= master.responseQueue
      && forall k :: |before| <= k < |master.responseQueue| ==> master.responseQueue[k] == task
    }

    /** `now` is read, and the sends attempted, only if a task is accepted. */
    method NotifyEventHandler(now: int, results: seq<P.SendResult>)
      requires taskQueue != [] ==>
        taskQueue[0].Valid() && taskQueue[0].totalCount == |taskQueue[0].pingArray| == |results|
      modifies this, master`responseQueue
      modifies if taskQueue != [] then {taskQueue[0]} else {}
      modifies if taskQueue != [] then taskQueue[0].pingArray else []
      ensures old(taskQueue) == [] ==> unchanged(this) && unchanged(master)
      ensures old(taskQueue) != [] ==>
        var task := old(taskQueue)[0];
        var l := old(View(taskQueue[0], |master.responseQueue|));
        && taskQueue == old(taskQueue)[1..] && task.Valid() && Sends(task, old(master.responseQueue))
        && View(task, |old(master.responseQueue)|) ==
             (if l.doingCount >= 1024 then P.TurnAway(l)
              else P.DoTask(P.TakeOn(l, now, task), 0, threadId, results))
    {
      if taskQueue == [] {
        return;
      }
      var task := taskQueue[0];
      taskQueue := taskQueue[1..];
      TakeUp(task, now, results);
    }

    /** `notifyEventHandler` on the task it popped. */
    method TakeUp(task: Task, now: int, results: seq<P.SendResult>)
      requires task.Valid() && task.totalCount == |task.pingArray| == |results|
      modifies this`doingMap, this`doingCount, master`responseQueue, task, task.pingArray
      ensures task.Valid() && Sends(task, old(master.responseQueue))
      ensures var l := old(View(task, |master.responseQueue|));
        View(task, |old(master.responseQueue)|) ==
          if l.doingCount >= 1024 then P.TurnAway(l)
          else P.DoTask(P.TakeOn(l, now, task), 0, threadId, results)
    {
      ghost var recs, timers, n := task.Recs(), task.Timers(), |master.responseQueue|;
      ghost var l := View(task, n);
      if doingCount >= P.DOING_TASK_CAPACITY {
        task.prepareError := true;
        task.preErrorCode := P.TOO_MANY_TASKS;
        SendToMaster(task);
        assert task.Recs() == recs && task.Timers() == timers;
        return;
      }
      task.timestamp := now;
      if now !in doingMap {
        doingMap := doingMap[now := task];
      }
      doingCount := doingCount + 1;
      assert task.Recs() == recs && task.Timers() == timers;
      assert View(task, n) == P.TakeOn(l, now, task);
      DoTask(task, results, n);
    }

    method EnqueueTask(task: Task)
      modifies this`taskQueue
      ensures taskQueue == old(taskQueue) + [task]
    {
      taskQueue := taskQueue + [task];
    }

    method SendToMaster(task: Task)
      modifies master`responseQueue
      ensures master.responseQueue == old(master.responseQueue) + [task]
    {
      master.EnqueueResponse(task);
    }

    method OnComplete(task: Task, ghost base: nat)
      requires base <= |master.responseQueue|
      modifies this`doingMap, this`doingCount, master`responseQueue
      ensures master.responseQueue == old(master.responseQueue) + [task]
      ensures View(task, base) == P.OnComplete(old(View(task, base)))
    {
      doingCount := doingCount - 1;
      var timestamp := task.timestamp;
      if timestamp !in doingMap {
        SendToMaster(task);
      } else {
        doingMap := doingMap - {timestamp};
        SendToMaster(task);
      }
    }

    method OnReceive(timestamp: int, index: nat, now: int, ghost base: nat)
      requires base <= |master.responseQueue|
      requires timestamp in doingMap ==>
        var task := doingMap[timestamp];
        task.Valid() && (index < |task.pingArray| || index > task.totalCount)
      modifies this`doingMap, this`doingCount, master`responseQueue
      modifies if timestamp in doingMap then {doingMap[timestamp]} else {}
      modifies if timestamp in doingMap && index < |doingMap[timestamp].pingArray|
               then {doingMap[timestamp].pingArray[index]} else {}
      ensures timestamp !in old(doingMap) ==>
        doingMap == old(doingMap) && doingCount == old(doingCount) && master.responseQueue == old(master.responseQueue)
      ensures timestamp in old(doingMap) ==>
        var task := old(doingMap)[timestamp];
        && task.Valid() && Sends(task, old(master.responseQueue))
        && View(task, base) == P.Deliver(old(View(doingMap[timestamp], base)), index, now)
    {
      if timestamp !in doingMap {
        return;
      }
      ReceiveFor(doingMap[timestamp], index, now, base);
    }

    method ReceiveFor(task: Task, index: nat, now: int, ghost base: nat)
      requires task.Valid() && (index < |task.pingArray| || index > task.totalCount)
      requires base <= |master.responseQueue|
      modifies this`doingMap, this`doingCount, master`responseQueue, task`doneCount
      modifies if index < |task.pingArray| then {task.pingArray[index]} else {}
      ensures task.Valid() && Sends(task, old(master.responseQueue))
      ensures View(task, base) == P.Deliver(old(View(task, base)), index, now)
    {
      if index > task.totalCount {
        return;
      }
      var p := task.pingArray[index];
      if p.status != P.Uninited && p.status != P.Doing {
        return;
      }
      ghost var before, timers := task.Recs(), task.Timers();
      p.status := P.Success;
      p.log := p.log + [P.Reply];
      p.recvtime := now;
      p.timerArmed := false;
      PingChanged(task, index, before);
      TimersChanged(task, index, timers);
      Count(task, base);
    }

    /** One ping more has ended: `doneCount` goes up, and a complete task is handed off. */
    method Count(task: Task, ghost base: nat)
      requires base <= |master.responseQueue|
      modifies this`doingMap, this`doingCount, master`responseQueue, task`doneCount
      ensures Sends(task, old(master.responseQueue))
      ensures View(task, base) == Counted(old(View(task, base)))
    {
      task.doneCount := task.doneCount + 1;
      if task.IsComplete() {
        OnComplete(task, base);
      }
    }

    /** Starts every ping. The bound is read again before each turn, as the source does, the last time
        after the task may have been handed off; on these objects it never changes. */
    method DoTask(task: Task, results: seq<P.SendResult>, ghost base: nat)
      requires task.Valid() && task.totalCount == |task.pingArray| == |results| && base <= |master.responseQueue|
      modifies this`doingMap, this`doingCount, master`responseQueue, task`doneCount, task.pingArray
      ensures task.Valid() && Sends(task, old(master.responseQueue))
      ensures View(task, base) == P.DoTask(old(View(task, base)), 0, threadId, results)
    {
      var i := 0;
      while i < task.totalCount
        invariant 0 <= i <= task.totalCount == |results| && task.Valid() && task.pingArray == old(task.pingArray)
        invariant Sends(task, old(master.responseQueue)) && base <= |master.responseQueue|
        invariant P.DoTask(View(task, base), i, threadId, results)
               == P.DoTask(old(View(task, base)), 0, threadId, results)
      {
        StartOne(task, i, results[i], base);
        i := i + 1;
      }
    }

    method StartOne(task: Task, i: nat, r: P.SendResult, ghost base: nat)
      requires task.Valid() && i < |task.pingArray| && base <= |master.responseQueue|
      modifies this`doingMap, this`doingCount, master`responseQueue, task`doneCount, task.pingArray[i]
      ensures task.Valid() && Sends(task, old(master.responseQueue))
      ensures View(task, base) == P.Start(old(View(task, base)), i, threadId, r)
    {
      var ping := task.pingArray[i];
      ghost var before := task.Recs();
      ping.worker := this;
      PingChanged(task, i, before);
      assert task.Timers() == old(task.Timers());
      StartAgain(old(View(task, base)), i, threadId, r);
      ping.Start(r, base);
    }
  }

  class HttpServer {
    var responseQueue: seq<Task>
    var doingRequest: map<Task, int>
    var workers: seq<TaskWorker>
    var randedIndex: nat

    constructor ()
      ensures responseQueue == [] && doingRequest == map[] && workers == [] && randedIndex == 0
    {
      responseQueue, doingRequest, workers, randedIndex := [], map[], [], 0;
    }

    /** The worker next in turn. */
    function Chosen(): TaskWorker
      requires randedIndex < |workers|
      reads this
    {
      workers[randedIndex]
    }

    method EnqueueResponse(task: Task)
      modifies this`responseQueue
      ensures responseQueue == old(responseQueue) + [task]
    {
      responseQueue := responseQueue + [task];
    }

    /** The oldest response is answered under its request, and forgotten. */
    method TryRespEventHandler() returns (answer: Option<(int, R.Response)>)
      requires responseQueue != [] ==>
        && responseQueue[0].Valid()
        && (responseQueue[0].prepareError || responseQueue[0].totalCount == |responseQueue[0].pingArray|)
      modifies this`responseQueue, this`doingRequest
      ensures old(responseQueue) == [] ==> answer == None && unchanged(this)
      ensures old(responseQueue) != [] ==>
        var task := old(responseQueue)[0];
        && responseQueue == old(responseQueue)[1..] && doingRequest == old(doingRequest) - {task}
        && answer == if task in old(doingRequest) then Some((old(doingRequest)[task], R.Respond(task.Rec()))) else None
    {
      if responseQueue == [] {
        return None;
      }
      var taskResp := responseQueue[0];
      responseQueue := responseQueue[1..];
      if taskResp !in doingRequest {
        return None;
      }
      var req := doingRequest[taskResp];
      doingRequest := doingRequest - {taskResp};
      var response := taskResp.FillHttpResponse();
      return Some((req, response));
    }

    method SendToWorker(task: Task)
      requires randedIndex < |workers|
      modifies this`randedIndex, Chosen()`taskQueue
      ensures old(Chosen()).taskQueue == old(Chosen().taskQueue) + [task]
      ensures randedIndex == (old(randedIndex) + 1) % WORKER_NUM < |workers|
    {
      var worker := Chosen();
      worker.EnqueueTask(task);
      randedIndex := (randedIndex + 1) % WORKER_NUM;
    }

    /** `body` is None when the payload is not JSON; the result is None when building the task
        throws, and nothing has changed then. A task just built is never in `doingRequest`, so the
        branch the handler calls impossible cannot be taken. */
    method HandlePingReq(req: int, post: bool, body: Option<J.Value>) returns (task: Option<Task>)
      requires randedIndex < |workers| && R.FromRequest(post, body) != R.Endless
      modifies this`responseQueue, this`doingRequest, this`randedIndex, Chosen()`taskQueue
      ensures task.None? <==> R.FromRequest(post, body) == R.Thrown
      ensures task.None? ==> unchanged(this) && unchanged(Chosen())
      ensures task.Some? ==>
        && fresh(task.value) && task.value.Valid() && R.FromRequest(post, body) == R.Built(task.value.Rec())
        && doingRequest == old(doingRequest)[task.value := req] && task.value !in old(doingRequest)
        && responseQueue == old(responseQueue) + (if task.value.prepareError then [task.value] else [])
        && randedIndex == (if task.value.prepareError then old(randedIndex) else (old(randedIndex) + 1) % WORKER_NUM)
        && old(Chosen()).taskQueue == old(Chosen().taskQueue) + (if task.value.prepareError then [] else [task.value])
    {
      var t: Task;
      if !post {
        t := new Task(405);
      } else if body.None? {
        t := new Task(415);
      } else {
        task := Task.FromJson(body.value);
        if task.None? {
          return;
        }
        t := task.value;
      }
      task := Some(t);
      assert t !in doingRequest;
      doingRequest := doingRequest[t := req];
      if t.prepareError {
        EnqueueResponse(t);
      } else {
        SendToWorker(t);
      }
    }
  }
}
