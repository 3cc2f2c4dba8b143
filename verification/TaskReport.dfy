/** Tasks from requests and reports from tasks: what the JSON constructor of `Task` makes of a body,
    and what `buildResponse` says about a task that is done with. */
module TaskReport {
  import opened Basics
  import J = JsonValues
  import opened PingTask

  const MAX_PING_PER_TASK := 65536
  const COUNTER := 65536 // values of the constructor's 16-bit loop counter

  // ---- Reading a body ---------------------------------------------------------------------------

  /** Building a task ends with a task, with an exception, or not at all. */
  datatype Built = Built(task: Task) | Thrown | Endless

  /** `Value::asInt`: None when it throws. */
  function AsInt(v: J.Value): Option<int> {
    match v
    case Null => Some(0)
    case Int(i) => Some(i)
    case UInt(u) => if u < J.MAX_INT then Some(u) else None
    case Real(r) =>
      if J.MIN_INT as real <= r <= J.MAX_INT as real then Some(if r >= 0.0 then r.Floor else -(-r).Floor) else None
    case Bool(b) => Some(if b then 1 else 0)
    case _ => None
  }

  /** `Value::asString`: None when it throws. */
  function AsString(v: J.Value): Option<string> {
    match v
    case Null => Some("")
    case Str(NullPtr) => Some("")
    case Str(Chars(s)) => Some(J.CStr(s))
    case Bool(b) => Some(if b then "true" else "false")
    case _ => None
  }

  /** A member of a body that is an object or null; None when it is not there. */
  function Member(body: J.Value, name: string): Option<J.Value> {
    if body.Obj? then J.Lookup(body.m, J.Name(name)) else None
  }

  /** A task refused with an error code. */
  function Refused(code: int): Task {
    Task(true, code, 0, 0, 0, [])
  }

  function NewPing(ip: string, timeout: int): Ping {
    Ping(ip, timeout, Uninited, 0, 0, None, [])
  }

  /** The pings from slot `i` on; None when a server is not a string. */
  function ReadServers(servers: J.Entries, i: nat, size: int, timeout: int): Option<seq<Ping>>
    decreases size - i
  {
    if i >= size then Some([])
    else match AsString(J.At(servers, i))
         case None => None
         case Some(ip) =>
           match ReadServers(servers, i + 1, size, timeout)
           case None => None
           case Some(pings) => Some([NewPing(ip, timeout)] + pings)
  }

  /** `Task::Task(JsonValue &)`. */
  function ReadTask(body: J.Value): Built {
    if !body.Null? && !body.Obj? then Built(Refused(1001))
    else
      match AsInt(Member(body, "timeout").GetOr(J.Int(5)))
      case None => Thrown
      case Some(timeout) =>
        if timeout <= 0 then Built(Refused(1002))
        else
          var servers := Member(body, "servers").GetOr(J.Null);
          if !servers.Arr? then Built(Refused(1003))
          else
            var size := J.ArraySize(servers.m);
            if size > MAX_PING_PER_TASK then Built(Refused(1004))
            else
              match ReadServers(servers.m, 0, size, timeout)
              case None => Thrown
              case Some(pings) =>
                // all converted, but a counter of 16 bits does not reach this size
                if size >= COUNTER then Endless else Built(Task(false, 0, 0, size, 0, pings))
  }

  // ---- The loop over the servers, by its counter ----------------------------------------------------

  /** Where the constructor's loop stands: about to test the counter, past the loop, or thrown out. */
  datatype Turn = Counting(i: nat) | Left | Threw

  /** One test and, if it succeeds, one turn; the counter has 16 bits. */
  function NextTurn(servers: J.Entries, size: int, turn: Turn): Turn {
    match turn
    case Counting(i) =>
      if i >= size then Left
      else if AsString(J.At(servers, i)).None? then Threw
      else Counting((i + 1) % COUNTER)
    case _ => turn
  }

  function Turns(servers: J.Entries, size: int, n: nat): Turn {
    if n == 0 then Counting(0) else NextTurn(servers, size, Turns(servers, size, n - 1))
  }

  predicate AllConvert(servers: J.Entries, size: int) {
    forall k :: 0 <= k < size ==> AsString(J.At(servers, k)).Some?
  }

  /** While every slot passed converts, the counter goes round below 65536. */
  lemma {:induction false} TurnsCount(servers: J.Entries, size: int, n: nat)
    requires 0 <= size && forall k :: 0 <= k < n && k < size && k < COUNTER ==> AsString(J.At(servers, k)).Some?
    ensures n <= size || size >= COUNTER ==> Turns(servers, size, n) == Counting(n % COUNTER)
  {
    if n > 0 && (n <= size || size >= COUNTER) {
      TurnsCount(servers, size, n - 1);
      Wraps(n - 1);
    }
  }

  lemma Wraps(n: nat)
    ensures n % COUNTER <= n && (n % COUNTER + 1) % COUNTER == (n + 1) % COUNTER
  {
  }

  /** The first slot that does not convert. */
  lemma {:induction false} FirstFailure(servers: J.Entries, size: nat) returns (i: nat)
    requires !AllConvert(servers, size)
    ensures i < size && AsString(J.At(servers, i)).None? && AllConvert(servers, i)
  {
    if AllConvert(servers, size - 1) {
      i := size - 1;
    } else {
      i := FirstFailure(servers, size - 1);
    }
  }

  /** The loop is never left, in whatever number of turns, if and only if the size is beyond the
      counter and every server converts; a single one that does not throws it out. For the sizes
      the check before the loop lets through, that is the one size 65536. */
  lemma LoopNeverEnds(servers: J.Entries, size: nat)
    requires size <= MAX_PING_PER_TASK
    ensures (forall n: nat :: Turns(servers, size, n).Counting?) <==> size == 65536 && AllConvert(servers, size)
    ensures (exists n: nat :: Turns(servers, size, n) == Threw) <==> !AllConvert(servers, size)
    ensures (exists n: nat :: Turns(servers, size, n) == Left) <==> size < 65536 && AllConvert(servers, size)
  {
    if !AllConvert(servers, size) {
      var n := ThrowsAt(servers, size);
      EndsIn(servers, size, n);
    } else if size < COUNTER {
      LeavesAt(servers, size);
      EndsIn(servers, size, size + 1);
    } else {
      forall n: nat ensures Turns(servers, size, n) == Counting(n % COUNTER) {
        TurnsCount(servers, size, n);
      }
    }
  }

  lemma ThrowsAt(servers: J.Entries, size: nat) returns (n: nat)
    requires size <= MAX_PING_PER_TASK && !AllConvert(servers, size)
    ensures Turns(servers, size, n) == Threw
  {
    var i := FirstFailure(servers, size);
    TurnsCount(servers, size, i);
    n := i + 1;
  }

  lemma LeavesAt(servers: J.Entries, size: nat)
    requires size < COUNTER && AllConvert(servers, size)
    ensures Turns(servers, size, size + 1) == Left
  {
    TurnsCount(servers, size, size);
  }

  /** However the loop ends, it ends no other way. */
  lemma EndsIn(servers: J.Entries, size: int, n: nat)
    requires !Turns(servers, size, n).Counting?
    ensures !forall m: nat :: Turns(servers, size, m).Counting?
    ensures forall m: nat :: Turns(servers, size, m).Counting? || Turns(servers, size, m) == Turns(servers, size, n)
  {
    forall m: nat ensures Turns(servers, size, m).Counting? || Turns(servers, size, m) == Turns(servers, size, n) {
      EndsOneWay(servers, size, n, m);
    }
  }

  lemma {:induction false} StaysEnded(servers: J.Entries, size: int, n: nat, m: nat)
    requires n <= m && !Turns(servers, size, n).Counting?
    ensures Turns(servers, size, m) == Turns(servers, size, n)
  {
    if n < m {
      StaysEnded(servers, size, n, m - 1);
    }
  }

  lemma EndsOneWay(servers: J.Entries, size: int, n: nat, m: nat)
    requires !Turns(servers, size, n).Counting?
    ensures Turns(servers, size, m).Counting? || Turns(servers, size, m) == Turns(servers, size, n)
  {
    if n <= m {
      StaysEnded(servers, size, n, m);
    } else if !Turns(servers, size, m).Counting? {
      StaysEnded(servers, size, m, n);
    }
  }

  /** The body gets as far as the loop: the servers it then runs over. */
  function ReachesLoop(body: J.Value): Option<J.Entries> {
    if !body.Null? && !body.Obj? then None
    else
      var timeout := AsInt(Member(body, "timeout").GetOr(J.Int(5)));
      var servers := Member(body, "servers").GetOr(J.Null);
      if timeout.None? || timeout.value <= 0 || !servers.Arr? || J.ArraySize(servers.m) > MAX_PING_PER_TASK then None
      else Some(servers.m)
  }

  /** The constructor, by its loop: a body that does not reach the loop is refused or throws; on one
      that does, the constructor runs for ever, throws, or builds a task that is not a refusal,
      exactly as the loop does; and for ever exactly on 65536 servers that all convert. */
  lemma ConstructorByLoop(body: J.Value)
    requires J.WF(body)
    ensures match ReachesLoop(body)
      case None => ReadTask(body) == Thrown || (ReadTask(body).Built? && ReadTask(body).task.prepareError)
      case Some(servers) =>
        var size := J.ArraySize(servers);
        && (ReadTask(body) == Endless <==> forall n: nat :: Turns(servers, size, n).Counting?)
        && (ReadTask(body) == Thrown <==> exists n: nat :: Turns(servers, size, n) == Threw)
        && (ReadTask(body).Built? <==> exists n: nat :: Turns(servers, size, n) == Left)
        && (ReadTask(body).Built? ==> !ReadTask(body).task.prepareError)
        && (ReadTask(body) == Endless <==> size == 65536 && AllConvert(servers, size))
  {
    if ReachesLoop(body).Some? {
      var servers := ReachesLoop(body).value;
      var timeout := AsInt(Member(body, "timeout").GetOr(J.Int(5))).value;
      MemberWellFormed(body.m, J.Name("servers"));
      SizeNonNegative(servers, 0);
      ServersRead(servers, 0, J.ArraySize(servers), timeout);
      LoopNeverEnds(servers, J.ArraySize(servers));
    }
  }

  lemma {:induction false} ServersRead(servers: J.Entries, i: nat, size: nat, timeout: int)
    requires i <= size
    ensures ReadServers(servers, i, size, timeout).Some? <==>
      forall k :: i <= k < size ==> AsString(J.At(servers, k)).Some?
    ensures ReadServers(servers, i, size, timeout).Some? ==>
      var pings := ReadServers(servers, i, size, timeout).value;
      && |pings| == size - i
      && forall k :: 0 <= k < |pings| ==>
           AsString(J.At(servers, i + k)).Some? && pings[k] == NewPing(AsString(J.At(servers, i + k)).value, timeout)
    decreases size - i
  {
    if i < size {
      ServersRead(servers, i + 1, size, timeout);
      if ReadServers(servers, i, size, timeout).Some? {
        var rest := ReadServers(servers, i + 1, size, timeout).value;
        assert ReadServers(servers, i, size, timeout).value[1..] == rest;
        forall k | 0 < k < size - i
          ensures AsString(J.At(servers, i + k)).Some?
          ensures ReadServers(servers, i, size, timeout).value[k]
               == NewPing(AsString(J.At(servers, i + k)).value, timeout)
        {
          assert rest[k - 1] == NewPing(AsString(J.At(servers, i + 1 + (k - 1))).value, timeout);
        }
      }
    }
  }

  lemma {:induction false} SizeNonNegative(m: J.Entries, low: int)
    requires J.WFItems(m, low) && low >= 0
    ensures J.ArraySize(m) >= 0
    decreases m
  {
    if m.Entry? {
      SizeNonNegative(m.rest, m.key.i + 1);
    }
  }

  lemma {:induction false} MemberWellFormed(m: J.Entries, k: J.Key)
    requires J.WFMembers(m) && J.Lookup(m, k).Some?
    ensures J.WF(J.Lookup(m, k).value)
    decreases m
  {
    if m.key != k {
      MemberWellFormed(m.rest, k);
    }
  }

  /** A task read from a body is one the protocol may be handed: a refusal without pings, or a fresh
      task with one ping per slot of the server array, in order, each under the request's timeout. */
  lemma ReadIsFresh(body: J.Value)
    requires J.WF(body) && ReadTask(body).Built?
    ensures var task := ReadTask(body).task;
      if task.prepareError then
        task.pings == [] && 1001 <= task.preErrorCode <= 1004
      else
        && Fresh(task) && task.totalCount < COUNTER
        && Member(body, "servers").Some? && Member(body, "servers").value.Arr?
        && task.totalCount == J.ArraySize(Member(body, "servers").value.m)
        && forall k :: 0 <= k < |task.pings| ==>
             && AsString(J.At(Member(body, "servers").value.m, k)) == Some(task.pings[k].ip)
             && task.pings[k].timeout > 0
             && AsInt(Member(body, "timeout").GetOr(J.Int(5))) == Some(task.pings[k].timeout)
  {
    if !ReadTask(body).task.prepareError {
      var servers := Member(body, "servers").value.m;
      var timeout := AsInt(Member(body, "timeout").GetOr(J.Int(5))).value;
      MemberWellFormed(body.m, J.Name("servers"));
      SizeNonNegative(servers, 0);
      ServersFresh(servers, J.ArraySize(servers), timeout);
    }
  }

  lemma ServersFresh(servers: J.Entries, size: nat, timeout: int)
    requires ReadServers(servers, 0, size, timeout).Some?
    ensures var pings := ReadServers(servers, 0, size, timeout).value;
      && Fresh(Task(false, 0, 0, size, 0, pings))
      && forall k :: 0 <= k < |pings| ==>
           AsString(J.At(servers, k)) == Some(pings[k].ip) && pings[k].timeout == timeout
  {
    ServersRead(servers, 0, size, timeout);
    var pings := ReadServers(servers, 0, size, timeout).value;
    forall k | 0 <= k < |pings|
      ensures AsString(J.At(servers, k)).Some? && pings[k] == NewPing(AsString(J.At(servers, k)).value, timeout)
    {
      assert pings[k] == NewPing(AsString(J.At(servers, 0 + k)).value, timeout);
    }
    NewPingsFresh(pings, servers, timeout);
  }

  lemma NewPingsFresh(pings: seq<Ping>, servers: J.Entries, timeout: int)
    requires forall k :: 0 <= k < |pings| ==>
      AsString(J.At(servers, k)).Some? && pings[k] == NewPing(AsString(J.At(servers, k)).value, timeout)
    ensures Fresh(Task(false, 0, 0, |pings|, 0, pings))
    ensures forall k :: 0 <= k < |pings| ==>
      AsString(J.At(servers, k)) == Some(pings[k].ip) && pings[k].timeout == timeout
  {
    CountStarted(pings, 0);
  }

  // ---- Building a report -----------------------------------------------------------------------------

  function Get(v: J.Value, name: string): J.Value {
    Member(v, name).GetOr(J.Null)
  }

  function Item(v: J.Value, i: int): J.Value {
    if v.Arr? then J.At(v.m, i) else J.Null
  }

  /** `v[name] = x`, on an object or null. */
  function SetMember(v: J.Value, name: string, x: J.Value): J.Value {
    J.Obj(J.Store(if v.Obj? then v.m else J.End, J.Name(name), x))
  }

  /** `v[i] = x`, on an array or null. */
  function SetItem(v: J.Value, i: int, x: J.Value): J.Value {
    J.Arr(J.Store(if v.Arr? then v.m else J.End, J.Index(i), x))
  }

  /** `body["results"][i][name] = x`. */
  function SetResult(body: J.Value, i: int, name: string, x: J.Value): J.Value {
    var results := Get(body, "results");
    SetMember(body, "results", SetItem(results, i, SetMember(Item(results, i), name, x)))
  }

  function LossRate(p: Ping): real {
    if p.status == Success then 0.0 else 1.0
  }

  function Cost(p: Ping): real {
    (p.recvtime - p.sendtime) as real / 1000.0
  }

  /** One turn of the loop in `buildResponse`. */
  function AddResult(body: J.Value, i: int, p: Ping): J.Value {
    var body1 := SetResult(body, i, "ip", J.Str(J.Chars(p.ip)));
    var body2 := SetResult(body1, i, "lossRate", J.Real(LossRate(p)));
    if LossRate(p) == 0.0 then SetResult(body2, i, "avgRtt", J.Real(Cost(p))) else body2
  }

  function AddResults(body: J.Value, pings: seq<Ping>, n: nat): J.Value
    requires n <= |pings|
  {
    if n == 0 then body else AddResult(AddResults(body, pings, n - 1), n - 1, pings[n - 1])
  }

  const INVALID := "payload invalid, "

  function ErrorMessage(code: int): string {
    match code
    case 1001 => INVALID + "json body is not an object"
    case 1002 => INVALID + "timeout invalid"
    case 1003 => INVALID + "servers invalid, null or not array"
    case 1004 => INVALID + "servers overflow, too much servers " + "in one request (capacity: 65536)"
    case 1005 => "too many tasks working, drop this task"
    case 1006 => "init task error, casuse varies, " + "please check log"
    case _ => "unknown error"
  }

  function Heading(success: bool, message: string): J.Value {
    SetMember(SetMember(J.Null, "success", J.Bool(success)), "errMsg", J.Str(J.Chars(message)))
  }

  /** The JSON of `Task::buildResponse`. */
  function Report(t: Task): J.Value {
    if t.prepareError then Heading(false, ErrorMessage(t.preErrorCode))
    else AddResults(Heading(true, ""), t.pings, |t.pings|)
  }

  datatype Response = HttpError(code: int) | Body(report: J.Value)

  /** `fillHttpResponse`. */
  function Respond(t: Task): Response {
    if 0 < t.preErrorCode < 1000 then HttpError(t.preErrorCode) else Body(Report(t))
  }

  /** The task `handlePingReq` builds; `body` is None when the payload is not JSON. */
  function FromRequest(post: bool, body: Option<J.Value>): Built {
    if !post then Built(Refused(405))
    else match body
         case None => Built(Refused(415))
         case Some(v) => ReadTask(v)
  }

  // ---- What a report says ------------------------------------------------------------------------------

  /** Keys of an array's map, in order. */
  predicate Ascending(m: J.Entries, low: int) {
    m.Entry? ==> m.key.Index? && low <= m.key.i && Ascending(m.rest, m.key.i + 1)
  }

  lemma {:induction false} StoreSize(m: J.Entries, low: int, i: int, x: J.Value)
    requires Ascending(m, low) && 0 <= low <= i
    ensures Ascending(J.Store(m, J.Index(i), x), low)
    ensures J.ArraySize(J.Store(m, J.Index(i), x)) == if J.ArraySize(m) > i then J.ArraySize(m) else i + 1
    ensures m.Entry? ==> J.ArraySize(m) > low
    decreases m
  {
    if m.Entry? {
      if m.key.i < i {
        StoreSize(m.rest, m.key.i + 1, i, x);
      }
      if m.rest.Entry? {
        StoreSize(m.rest, m.key.i + 1, m.key.i + 1, x);
      }
    }
  }

  /** Entry `i` of the results tells what became of ping `p`. */
  predicate Tells(results: J.Value, i: int, p: Ping) {
    && results.Arr? && Item(results, i).Obj?
    && Member(Item(results, i), "ip") == Some(J.Str(J.Chars(p.ip)))
    && Member(Item(results, i), "lossRate") == Some(J.Real(LossRate(p)))
    && Member(Item(results, i), "avgRtt") == if p.status == Success then Some(J.Real(Cost(p))) else None
  }

  lemma MemberSet(v: J.Value, name: string, x: J.Value, other: string)
    ensures Member(SetMember(v, name, x), name) == Some(x)
    ensures other != name ==> Member(SetMember(v, name, x), other) == Member(v, other)
  {
    J.StoreThenLookup(if v.Obj? then v.m else J.End, J.Name(name), x, J.Name(other));
  }

  lemma ItemSet(v: J.Value, i: int, x: J.Value, j: int)
    ensures Item(SetItem(v, i, x), i) == x
    ensures j != i ==> Item(SetItem(v, i, x), j) == Item(v, j)
  {
    J.StoreThenLookup(if v.Arr? then v.m else J.End, J.Index(i), x, J.Index(j));
  }

  /** The results array so far. */
  predicate Dense(results: J.Value, n: nat) {
    if n == 0 then results == J.Null
    else results.Arr? && Ascending(results.m, 0) && J.ArraySize(results.m) == n
  }

  /** One field of one result set: that field of that entry, and nothing else. */
  lemma ResultSet(body: J.Value, i: nat, n: nat, name: string, x: J.Value, other: string, j: nat)
    requires Dense(Get(body, "results"), n) && i <= n
    ensures var results := Get(SetResult(body, i, name, x), "results");
      && Dense(results, if i == n then n + 1 else n)
      && Item(results, i).Obj? && Member(Item(results, i), name) == Some(x)
      && (other != name ==> Member(Item(results, i), other) == Member(Item(Get(body, "results"), i), other))
      && (j != i ==> Item(results, j) == Item(Get(body, "results"), j))
    ensures other != "results" ==> Member(SetResult(body, i, name, x), other) == Member(body, other)
  {
    var results := Get(body, "results");
    var item := SetMember(Item(results, i), name, x);
    MemberSet(body, "results", SetItem(results, i, item), other);
    ItemSet(results, i, item, j);
    MemberSet(Item(results, i), name, x, other);
    StoreSize(if results.Arr? then results.m else J.End, 0, i, item);
  }

  lemma {:induction false} PastTheEnd(m: J.Entries, low: int, i: int)
    requires Ascending(m, low) && 0 <= low && J.ArraySize(m) <= i
    ensures J.Lookup(m, J.Index(i)).None?
    decreases m
  {
    if m.Entry? {
      StoreSize(m, low, low, J.Null);
      if m.rest.Entry? {
        StoreSize(m.rest, m.key.i + 1, m.key.i + 1, J.Null);
        PastTheEnd(m.rest, m.key.i + 1, i);
      }
    }
  }

  lemma ResultAdded(body: J.Value, n: nat, p: Ping, other: string, j: nat)
    requires Dense(Get(body, "results"), n)
    ensures var results := Get(AddResult(body, n, p), "results");
      && Dense(results, n + 1) && Tells(results, n, p)
      && (j < n ==> Item(results, j) == Item(Get(body, "results"), j))
    ensures other != "results" ==> Member(AddResult(body, n, p), other) == Member(body, other)
  {
    var body1 := SetResult(body, n, "ip", J.Str(J.Chars(p.ip)));
    var body2 := SetResult(body1, n, "lossRate", J.Real(LossRate(p)));
    if n > 0 {
      PastTheEnd(Get(body, "results").m, 0, n);
    }
    assert Item(Get(body, "results"), n) == J.Null;
    ResultSet(body, n, n, "ip", J.Str(J.Chars(p.ip)), other, j);
    ResultSet(body, n, n, "ip", J.Str(J.Chars(p.ip)), "avgRtt", j);
    ResultSet(body1, n, n + 1, "lossRate", J.Real(LossRate(p)), other, j);
    ResultSet(body1, n, n + 1, "lossRate", J.Real(LossRate(p)), "avgRtt", j);
    ResultSet(body1, n, n + 1, "lossRate", J.Real(LossRate(p)), "ip", j);
    ResultSet(body2, n, n + 1, "avgRtt", J.Real(Cost(p)), other, j);
    ResultSet(body2, n, n + 1, "avgRtt", J.Real(Cost(p)), "ip", j);
    ResultSet(body2, n, n + 1, "avgRtt", J.Real(Cost(p)), "lossRate", j);
  }

  predicate Listed(body: J.Value, pings: seq<Ping>, n: nat)
    requires n <= |pings|
  {
    Dense(Get(body, "results"), n) && forall k :: 0 <= k < n ==> Tells(Get(body, "results"), k, pings[k])
  }

  lemma ListedNext(body: J.Value, pings: seq<Ping>, n: nat, after: J.Value)
    requires n < |pings| && Listed(body, pings, n) && after == AddResult(body, n, pings[n])
    ensures Listed(after, pings, n + 1)
  {
    ResultAdded(body, n, pings[n], "results", 0);
    forall k | 0 <= k < n ensures Tells(Get(AddResult(body, n, pings[n]), "results"), k, pings[k]) {
      ResultKept(body, n, pings[n], k, pings[k]);
    }
  }

  lemma ResultKept(body: J.Value, n: nat, p: Ping, k: nat, q: Ping)
    requires Dense(Get(body, "results"), n) && k < n && Tells(Get(body, "results"), k, q)
    ensures Tells(Get(AddResult(body, n, p), "results"), k, q)
  {
    ResultAdded(body, n, p, "results", k);
  }

  lemma {:induction false} ResultsListed(body: J.Value, pings: seq<Ping>, n: nat, report: J.Value)
    requires n <= |pings| && Listed(body, pings, 0) && report == AddResults(body, pings, n)
    ensures Listed(report, pings, n)
  {
    if n > 0 {
      var before := ListedBefore(body, pings, n, report);
      ResultsListed(body, pings, n - 1, before);
    }
  }

  lemma ListedBefore(body: J.Value, pings: seq<Ping>, n: nat, report: J.Value) returns (before: J.Value)
    requires 0 < n <= |pings| && report == AddResults(body, pings, n)
    ensures before == AddResults(body, pings, n - 1)
    ensures Listed(before, pings, n - 1) ==> Listed(report, pings, n)
  {
    before := AddResults(body, pings, n - 1);
    if Listed(before, pings, n - 1) {
      ListedNext(before, pings, n - 1, report);
    }
  }

  lemma {:induction false} OthersKept(body: J.Value, pings: seq<Ping>, n: nat, other: string)
    requires n <= |pings| && other != "results"
    ensures Member(AddResults(body, pings, n), other) == Member(body, other)
  {
    if n > 0 {
      OthersKept(body, pings, n - 1, other);
      OtherKept(AddResults(body, pings, n - 1), n - 1, pings[n - 1], other);
    }
  }

  lemma OtherKept(body: J.Value, n: nat, p: Ping, other: string)
    requires other != "results"
    ensures Member(AddResult(body, n, p), other) == Member(body, other)
  {
    var body1 := SetResult(body, n, "ip", J.Str(J.Chars(p.ip)));
    var body2 := SetResult(body1, n, "lossRate", J.Real(LossRate(p)));
    SetElse(body, n, "ip", J.Str(J.Chars(p.ip)), other);
    SetElse(body1, n, "lossRate", J.Real(LossRate(p)), other);
    SetElse(body2, n, "avgRtt", J.Real(Cost(p)), other);
  }

  lemma SetElse(body: J.Value, i: int, name: string, x: J.Value, other: string)
    requires other != "results"
    ensures Member(SetResult(body, i, name, x), other) == Member(body, other)
  {
    var results := Get(body, "results");
    MemberSet(body, "results", SetItem(results, i, SetMember(Item(results, i), name, x)), other);
  }

  /** Entry `k` of the results by the history of its ping: the address, and a loss rate of 0 and a
      round-trip time exactly when a reply ended it, rather than a timeout or a failed send. */
  predicate Records(results: J.Value, k: int, p: Ping) {
    var replied := p.log == [Reply];
    && (replied || p.log == [Timeout] || p.log == [Failure])
    && Member(Item(results, k), "ip") == Some(J.Str(J.Chars(p.ip)))
    && Member(Item(results, k), "lossRate") == Some(J.Real(if replied then 0.0 else 1.0))
    && Member(Item(results, k), "avgRtt")
       == (if replied then Some(J.Real((p.recvtime - p.sendtime) as real / 1000.0)) else None)
  }

  lemma TellsRecords(results: J.Value, k: int, p: Ping)
    requires Tells(results, k, p) && PingOk(p) && Terminal(p)
    ensures Records(results, k, p)
  {
  }

  /** The final report: of a refused task, the error; of a completed one, success and exactly one
      entry per ping, in order, each recording what ended its ping. */
  lemma FinalReport(t: Task)
    requires t.prepareError || Complete(t)
    ensures Member(Report(t), "success") == Some(J.Bool(!t.prepareError))
    ensures Member(Report(t), "errMsg")
         == Some(J.Str(J.Chars(if t.prepareError then ErrorMessage(t.preErrorCode) else "")))
    ensures t.prepareError ==> Member(Report(t), "results") == None
    ensures !t.prepareError ==>
      var results := Get(Report(t), "results");
      && results.Arr? && J.ArraySize(results.m) == t.totalCount == |t.pings|
      && forall k :: 0 <= k < t.totalCount ==> Records(results, k, t.pings[k])
  {
    if t.prepareError {
      HeadingSays(false, ErrorMessage(t.preErrorCode));
    } else {
      HeadingSays(true, "");
      OthersKept(Heading(true, ""), t.pings, |t.pings|, "success");
      OthersKept(Heading(true, ""), t.pings, |t.pings|, "errMsg");
      ResultsSay(t);
    }
  }

  lemma HeadingSays(success: bool, message: string)
    ensures Member(Heading(success, message), "success") == Some(J.Bool(success))
    ensures Member(Heading(success, message), "errMsg") == Some(J.Str(J.Chars(message)))
    ensures Member(Heading(success, message), "results") == None
  {
    var start := SetMember(J.Null, "success", J.Bool(success));
    MemberSet(J.Null, "success", J.Bool(success), "results");
    MemberSet(start, "errMsg", J.Str(J.Chars(message)), "results");
    MemberSet(start, "errMsg", J.Str(J.Chars(message)), "success");
  }

  lemma ResultsSay(t: Task)
    requires !t.prepareError && Complete(t)
    ensures var results := Get(Report(t), "results");
      && results.Arr? && J.ArraySize(results.m) == |t.pings|
      && forall k :: 0 <= k < |t.pings| ==> Records(results, k, t.pings[k])
  {
    HeadingSays(true, "");
    ResultsListed(Heading(true, ""), t.pings, |t.pings|, AddResults(Heading(true, ""), t.pings, |t.pings|));
    var report := Report(t);
    assert Listed(report, t.pings, |t.pings|);
    forall k | 0 <= k < |t.pings| ensures Records(Get(report, "results"), k, t.pings[k]) {
      TellsRecords(Get(report, "results"), k, t.pings[k]);
    }
  }
}
