/** What a request body asks for, in terms of the values it holds: which address each ping of the task
    built for it is sent to, under which timeout, and which error another body gets. */
module RequestMeaning {
  import opened Basics
  import J = JsonValues
  import opened PingTask
  import opened TaskReport

  // ---- What a body asks for --------------------------------------------------------------------------

  /** `v` counts as the number `n`; reals are cut off toward zero. */
  predicate Counts(v: J.Value, n: int) {
    match v
    case Null => n == 0
    case Int(i) => n == i
    case UInt(u) => n == u && u < 0x7FFF_FFFF
    case Real(r) =>
      && -2147483648.0 <= r <= 2147483647.0
      && if r >= 0.0 then n as real <= r < (n + 1) as real else (n - 1) as real < r <= n as real
    case Bool(b) => n == if b then 1 else 0
    case _ => false
  }

  /** `v` stands for the string `s`. */
  predicate Says(v: J.Value, s: string) {
    match v
    case Null => s == ""
    case Str(NullPtr) => s == ""
    case Str(Chars(t)) => s == t
    case Bool(true) => s == "true"
    case Bool(false) => s == "false"
    case _ => false
  }

  /** Slot `k` of an array stands for `s`; a slot that is not there stands for nothing. */
  predicate SlotSays(m: J.Entries, k: int, s: string) {
    match J.Lookup(m, J.Index(k))
    case None => s == ""
    case Some(v) => Says(v, s)
  }

  /** Slot `k` stands for some string. */
  ghost predicate SlotIsString(m: J.Entries, k: int) {
    exists s :: SlotSays(m, k, s)
  }

  ghost predicate AllSay(m: J.Entries) {
    forall k :: 0 <= k < J.ArraySize(m) ==> SlotIsString(m, k)
  }

  /** The timeout and the servers a body asks for: 5 and nothing, when it does not say. */
  predicate Asks(body: J.Value, timeout: J.Value, servers: J.Value) {
    || (body.Null? && timeout == J.Int(5) && servers == J.Null)
    || (body.Obj?
        && (match J.Lookup(body.m, J.Name("timeout")) case None => timeout == J.Int(5) case Some(v) => timeout == v)
        && (match J.Lookup(body.m, J.Name("servers")) case None => servers == J.Null case Some(v) => servers == v))
  }

  predicate RefusedWith(b: Built, code: int) {
    b.Built? && b.task.prepareError && b.task.preErrorCode == code && b.task.pings == []
  }

  lemma CutOff(r: real, n: int)
    ensures r >= 0.0 ==> (r.Floor == n <==> n as real <= r < (n + 1) as real)
    ensures r < 0.0 ==> (-(-r).Floor == n <==> (n - 1) as real < r <= n as real)
  {
  }

  lemma AsIntMeans(v: J.Value, n: int)
    ensures AsInt(v) == Some(n) <==> Counts(v, n)
  {
    if v.Real? {
      CutOff(v.r, n);
    }
  }

  lemma AsIntFails(v: J.Value)
    ensures AsInt(v).None? <==> forall n :: !Counts(v, n)
  {
    if AsInt(v).Some? {
      AsIntMeans(v, AsInt(v).value);
    } else {
      forall n ensures !Counts(v, n) {
        AsIntMeans(v, n);
      }
    }
  }

  lemma AsStringMeans(v: J.Value, s: string)
    requires J.WF(v)
    ensures AsString(v) == Some(s) <==> Says(v, s)
  {
  }

  lemma SlotMeans(m: J.Entries, k: int, s: string)
    requires J.WFItems(m, 0)
    ensures AsString(J.At(m, k)) == Some(s) <==> SlotSays(m, k, s)
  {
    if J.Lookup(m, J.Index(k)).Some? {
      ItemWellFormed(m, 0, J.Index(k));
      AsStringMeans(J.At(m, k), s);
    }
  }

  lemma {:induction false} ItemWellFormed(m: J.Entries, low: int, k: J.Key)
    requires J.WFItems(m, low) && J.Lookup(m, k).Some?
    ensures J.WF(J.Lookup(m, k).value)
    decreases m
  {
    if m.key != k {
      ItemWellFormed(m.rest, m.key.i + 1, k);
    }
  }

  lemma AllConvertMeans(m: J.Entries)
    requires J.WFItems(m, 0)
    ensures AllConvert(m, J.ArraySize(m)) <==> AllSay(m)
  {
    forall k | 0 <= k < J.ArraySize(m) ensures AsString(J.At(m, k)).Some? <==> SlotIsString(m, k) {
      if AsString(J.At(m, k)).Some? {
        SlotMeans(m, k, AsString(J.At(m, k)).value);
      } else {
        forall s ensures !SlotSays(m, k, s) {
          SlotMeans(m, k, s);
        }
      }
    }
  }

  /** What the constructor makes of a body, case by case: a body that is no object, a timeout that is no
      number or not positive, servers that are no array or too many, a server that stands for no string,
      65536 of them; and otherwise one ping per slot, in order, with the string that stands there. */
  lemma BodyRead(body: J.Value, timeout: J.Value, servers: J.Value, n: int)
    requires J.WF(body)
    ensures !body.Null? && !body.Obj? ==> RefusedWith(ReadTask(body), 1001)
    ensures Asks(body, timeout, servers) && (forall i :: !Counts(timeout, i)) ==> ReadTask(body) == Thrown
    ensures Asks(body, timeout, servers) && Counts(timeout, n) ==>
      if n <= 0 then RefusedWith(ReadTask(body), 1002)
      else if !servers.Arr? then RefusedWith(ReadTask(body), 1003)
      else if J.ArraySize(servers.m) > 65536 then RefusedWith(ReadTask(body), 1004)
      else if !AllSay(servers.m) then ReadTask(body) == Thrown
      else if J.ArraySize(servers.m) == 65536 then ReadTask(body) == Endless
      else
        && ReadTask(body).Built? && !ReadTask(body).task.prepareError
        && var pings := ReadTask(body).task.pings;
           && |pings| == J.ArraySize(servers.m)
           && forall k :: 0 <= k < |pings| ==> SlotSays(servers.m, k, pings[k].ip) && pings[k].timeout == n
  {
    if Asks(body, timeout, servers) {
      AsIntFails(timeout);
      AsIntMeans(timeout, n);
      if Counts(timeout, n) && n > 0 && servers.Arr? && J.ArraySize(servers.m) <= 65536 {
        MemberWellFormed(body.m, J.Name("servers"));
        ServersAsked(body, servers.m, n);
      }
    }
  }

  lemma ServersAsked(body: J.Value, m: J.Entries, n: int)
    requires J.WFItems(m, 0) && n > 0 && J.ArraySize(m) <= 65536
    requires body.Obj? && Member(body, "servers") == Some(J.Arr(m))
    requires AsInt(Member(body, "timeout").GetOr(J.Int(5))) == Some(n)
    ensures if !AllSay(m) then ReadTask(body) == Thrown
            else if J.ArraySize(m) == 65536 then ReadTask(body) == Endless
            else
              && ReadTask(body).Built? && !ReadTask(body).task.prepareError
              && var pings := ReadTask(body).task.pings;
                 && |pings| == J.ArraySize(m)
                 && forall k :: 0 <= k < |pings| ==> SlotSays(m, k, pings[k].ip) && pings[k].timeout == n
  {
    AllConvertMeans(m);
    SizeNonNegative(m, 0);
    ServersRead(m, 0, J.ArraySize(m), n);
    if AllSay(m) {
      ServersFresh(m, J.ArraySize(m), n);
      var pings := ReadServers(m, 0, J.ArraySize(m), n).value;
      forall k | 0 <= k < |pings| ensures SlotSays(m, k, pings[k].ip) {
        SlotMeans(m, k, pings[k].ip);
      }
    }
  }

  // ---- What an answer says ----------------------------------------------------------------------------

  predicate Has(v: J.Value, name: string, x: J.Value) {
    v.Obj? && J.Lookup(v.m, J.Name(name)) == Some(x)
  }

  /** Entry `k` of the results of a report. */
  predicate EntryIs(report: J.Value, k: int, entry: J.Value) {
    && report.Obj?
    && match J.Lookup(report.m, J.Name("results"))
       case Some(Arr(results)) => J.Lookup(results, J.Index(k)) == Some(entry)
       case _ => false
  }

  /** An error, without results, in the words that go with its code. */
  predicate SaysError(report: J.Value, code: int) {
    && Has(report, "success", J.Bool(false)) && J.Lookup(report.m, J.Name("results")) == None
    && Has(report, "errMsg", J.Str(J.Chars(
         match code
         case 1001 => "payload invalid, " + "json body is not an object"
         case 1002 => "payload invalid, " + "timeout invalid"
         case 1003 => "payload invalid, " + "servers invalid, null or not array"
         case 1004 => "payload invalid, " + "servers overflow, too much servers " + "in one request (capacity: 65536)"
         case 1005 => "too many tasks working, drop this task"
         case 1006 => "init task error, casuse varies, " + "please check log"
         case _ => "unknown error")))
  }

  lemma RefusalSaysError(t: Task)
    requires t.prepareError
    ensures SaysError(Report(t), t.preErrorCode)
  {
    FinalReport(t);
  }

  /** What an entry records of a ping that has ended. */
  predicate EntryOf(entry: J.Value, p: Ping) {
    && entry.Obj? && (p.log == [Reply] || p.log == [Timeout] || p.log == [Failure])
    && Has(entry, "ip", J.Str(J.Chars(p.ip)))
    && Has(entry, "lossRate", J.Real(if p.log == [Reply] then 0.0 else 1.0))
    && if p.log == [Reply] then Has(entry, "avgRtt", J.Real((p.recvtime - p.sendtime) as real / 1000.0))
       else J.Lookup(entry.m, J.Name("avgRtt")) == None
  }

  /** The entry a report holds for ping `k`. */
  lemma EntryFound(t: Task, k: nat) returns (entry: J.Value)
    requires !t.prepareError && Complete(t) && k < |t.pings|
    ensures EntryIs(Report(t), k, entry) && EntryOf(entry, t.pings[k])
  {
    FinalReport(t);
    entry := Item(Get(Report(t), "results"), k);
    assert Records(Get(Report(t), "results"), k, t.pings[k]);
    assert Member(entry, "ip").Some?;
  }
}
