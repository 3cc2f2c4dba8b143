/** The text of a report: what the writers may be given, and what a client reads back. */
module ReportText {
  import opened Basics
  import opened JsonValues
  import opened JsonText
  import opened JsonLexer
  import opened JsonGrammar
  import opened JsonRoundTrip
  import P = PingTask
  import R = TaskReport

  /** The addresses come from `asString`, so they hold no NUL. */
  predicate CleanIps(pings: seq<P.Ping>) {
    forall k :: 0 <= k < |pings| ==> '\0' !in pings[k].ip
  }

  lemma {:induction false} StoreWritable(m: Entries, k: Key, v: Value)
    requires WritableMap(m) && Writable(v)
    ensures WritableMap(Store(m, k, v))
    decreases m
  {
    if m.Entry? {
      StoreWritable(m.rest, k, v);
    }
  }

  lemma {:induction false} LookupWritable(m: Entries, k: Key)
    requires WritableMap(m) && Lookup(m, k).Some?
    ensures Writable(Lookup(m, k).value)
    decreases m
  {
    if m.key != k {
      LookupWritable(m.rest, k);
    }
  }

  lemma MemberWritable(v: Value, name: string, x: Value)
    requires Writable(v) && (v.Null? || v.Obj?) && '\0' !in name && Writable(x)
    ensures Writable(R.SetMember(v, name, x))
  {
    StoreKeepsMembers(if v.Obj? then v.m else End, name, x);
    StoreWritable(if v.Obj? then v.m else End, Name(name), x);
  }

  lemma ItemWritable(v: Value, i: nat, x: Value)
    requires Writable(v) && (v.Null? || v.Arr?) && Writable(x)
    ensures Writable(R.SetItem(v, i, x))
  {
    StoreKeepsItems(if v.Arr? then v.m else End, 0, i, x);
    StoreWritable(if v.Arr? then v.m else End, Index(i), x);
  }

  /** A report under construction: an object whose results, if any, are an array of objects. */
  predicate InShape(body: Value) {
    && Writable(body) && body.Obj?
    && (R.Get(body, "results").Null? || R.Get(body, "results").Arr?)
  }

  lemma SetResultWritable(body: Value, i: nat, name: string, x: Value)
    requires InShape(body) && '\0' !in name && Writable(x)
    requires R.Item(R.Get(body, "results"), i).Null? || R.Item(R.Get(body, "results"), i).Obj?
    ensures InShape(R.SetResult(body, i, name, x))
    ensures R.Item(R.Get(R.SetResult(body, i, name, x), "results"), i).Obj?
  {
    var results := R.Get(body, "results");
    if Lookup(body.m, Name("results")).Some? {
      LookupWritable(body.m, Name("results"));
    }
    var item := R.Item(results, i);
    if results.Arr? && Lookup(results.m, Index(i)).Some? {
      LookupWritable(results.m, Index(i));
    }
    MemberWritable(item, name, x);
    ItemWritable(results, i, R.SetMember(item, name, x));
    R.ItemSet(results, i, R.SetMember(item, name, x), i);
    R.MemberSet(body, "results", R.SetItem(results, i, R.SetMember(item, name, x)), "results");
    MemberWritable(body, "results", R.SetItem(results, i, R.SetMember(item, name, x)));
  }

  lemma NextWritable(body: Value, n: nat, p: P.Ping)
    requires InShape(body) && R.Item(R.Get(body, "results"), n) == Null && '\0' !in p.ip
    ensures InShape(R.AddResult(body, n, p))
  {
    var body1 := R.SetResult(body, n, "ip", Str(Chars(p.ip)));
    var body2 := R.SetResult(body1, n, "lossRate", Real(R.LossRate(p)));
    SetResultWritable(body, n, "ip", Str(Chars(p.ip)));
    SetResultWritable(body1, n, "lossRate", Real(R.LossRate(p)));
    SetResultWritable(body2, n, "avgRtt", Real(R.Cost(p)));
  }

  lemma NextFits(before: Value, pings: seq<P.Ping>, n: nat)
    requires n < |pings| && InShape(before) && R.Listed(before, pings, n) && CleanIps(pings)
    ensures InShape(R.AddResult(before, n, pings[n]))
  {
    if n > 0 {
      R.PastTheEnd(R.Get(before, "results").m, 0, n);
    }
    NextWritable(before, n, pings[n]);
  }

  lemma {:induction false} ResultsWritable(body: Value, pings: seq<P.Ping>, n: nat)
    requires InShape(body) && R.Get(body, "results") == Null && n <= |pings| && CleanIps(pings)
    ensures InShape(R.AddResults(body, pings, n))
  {
    if n > 0 {
      var before := R.AddResults(body, pings, n - 1);
      ResultsWritable(body, pings, n - 1);
      R.ResultsListed(body, pings, n - 1, before);
      NextFits(before, pings, n - 1);
    }
  }

  lemma PlainLongest()
    ensures '\0' !in R.ErrorMessage(1004)
  {
    assert '\0' !in "servers overflow, too much servers ";
    assert '\0' !in "in one request (capacity: 65536)";
  }

  lemma PlainPayload(code: int)
    requires code == 1001 || code == 1002 || code == 1003
    ensures '\0' !in R.ErrorMessage(code)
  {
    assert '\0' !in "json body is not an object";
    assert '\0' !in "timeout invalid";
    assert '\0' !in "servers invalid, null or not array";
  }

  lemma PlainInit()
    ensures '\0' !in R.ErrorMessage(1006)
  {
    assert '\0' !in "init task error, casuse varies, ";
    assert '\0' !in "please check log";
  }

  lemma PlainCapacity()
    ensures '\0' !in R.ErrorMessage(1005)
  {
  }

  lemma PlainMessage(code: int)
    ensures '\0' !in R.ErrorMessage(code)
  {
    if code == 1004 {
      PlainLongest();
    } else if 1001 <= code <= 1003 {
      PlainPayload(code);
    } else if code == 1005 {
      PlainCapacity();
    } else if code == 1006 {
      PlainInit();
    }
  }

  lemma HeadingWritable(success: bool, message: string)
    requires '\0' !in message
    ensures InShape(R.Heading(success, message)) && R.Get(R.Heading(success, message), "results") == Null
  {
    var first := R.SetMember(Null, "success", Bool(success));
    MemberWritable(Null, "success", Bool(success));
    MemberWritable(first, "errMsg", Str(Chars(message)));
    R.MemberSet(Null, "success", Bool(success), "results");
    R.MemberSet(first, "errMsg", Str(Chars(message)), "results");
  }

  /** Every report can be handed to the writers. */
  lemma ReportWritable(t: P.Task)
    requires CleanIps(t.pings)
    ensures Writable(R.Report(t))
  {
    PlainMessage(t.preErrorCode);
    if t.prepareError {
      HeadingWritable(false, R.ErrorMessage(t.preErrorCode));
    } else {
      HeadingWritable(true, "");
      ResultsWritable(R.Heading(true, ""), t.pings, |t.pings|);
    }
  }

  lemma RefusalShape(message: string)
    ensures R.Heading(false, message)
         == Obj(Entry(Name("errMsg"), Str(Chars(message)), Entry(Name("success"), Bool(false), End)))
    ensures RealFree(R.Heading(false, message)) && Canonical(R.Heading(false, message))
  {
    var m := Entry(Name("success"), Bool(false), End);
    assert R.SetMember(Null, "success", Bool(false)) == Obj(m);
    assert Strcmp("errMsg", "success") < 0;
  }

  /** The error report of a refused task, written in any layout, reads back as exactly itself. */
  lemma RefusalReadsBack(scan: string -> Option<real>, show: real -> string, t: P.Task, document: string, root: Value)
    requires t.prepareError && Writable(R.Report(t)) && LexesTo(document, Tokens(show, R.Report(t)))
    ensures ParseText(scan, document, root) == Parsed(true, R.Report(t), [], [])
  {
    RefusalShape(R.ErrorMessage(t.preErrorCode));
    RoundTrip(scan, show, R.Report(t), document, root);
  }
}
