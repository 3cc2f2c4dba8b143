/** The wake-up protocol beside every queue: a producer pushes and then writes one byte to a pipe;
    the consumer, called while the pipe is readable, reads one byte and then pops one item. Used
    between master and worker, worker and master, and every thread and the logger. Pushing and
    notifying are separate steps of a producer, reading and popping separate steps of the consumer,
    and all of them interleave; reads, writes and locks may fail. */
module Wakeup {
  import opened Basics

  type Producer = int

  datatype Consumer = Idle | Called(gotByte: bool)

  /** `queue` holds the oldest item first. `pushed` and `popped` are histories, and the last four
      fields count mishaps: bytes that were not written, pushes without the lock, pops on a failed
      read, and pops that came back empty-handed after a good read. */
  datatype Sys<T> = Sys(
    queue: seq<T>, pipe: nat, between: set<Producer>, consumer: Consumer,
    pushed: seq<T>, popped: seq<T>,
    unwritten: nat, unlocked: nat, unread: nat, empty: nat)

  datatype Event<T> =
    | Push(p: Producer, x: T, locked: bool)
    | Notify(p: Producer, written: bool)
    | Read(ok: bool)
    | Pop(locked: bool)

  function Init<T>(): Sys<T> {
    Sys([], 0, {}, Idle, [], [], 0, 0, 0, 0)
  }

  predicate Enabled<T>(s: Sys<T>, e: Event<T>) {
    match e
    case Push(p, _, _) => p !in s.between
    case Notify(p, _) => p in s.between
    case Read(_) => s.consumer.Idle? && s.pipe > 0
    case Pop(_) => s.consumer.Called?
  }

  function Next<T>(s: Sys<T>, e: Event<T>): Sys<T>
    requires Enabled(s, e)
  {
    match e
    case Push(p, x, locked) =>
      var s' := s.(between := s.between + {p});
      if locked then s'.(queue := s.queue + [x], pushed := s.pushed + [x])
      else s'.(unlocked := s.unlocked + 1)
    case Notify(p, written) =>
      var s' := s.(between := s.between - {p});
      if written then s'.(pipe := s.pipe + 1) else s'.(unwritten := s.unwritten + 1)
    case Read(ok) =>
      s.(consumer := Called(ok), pipe := if ok then s.pipe - 1 else s.pipe)
    case Pop(locked) =>
      var s' := s.(consumer := Idle);
      if locked && s.queue != [] then
        s'.(queue := s.queue[1..], popped := s.popped + [s.queue[0]],
            unread := if s.consumer.gotByte then s.unread else s.unread + 1)
      else s'.(empty := if s.consumer.gotByte then s.empty + 1 else s.empty)
  }

  predicate Possible<T>(s: Sys<T>, es: seq<Event<T>>)
    decreases |es|
  {
    es == [] || (Enabled(s, es[0]) && Possible(Next(s, es[0]), es[1..]))
  }

  function Run<T>(s: Sys<T>, es: seq<Event<T>>): Sys<T>
    requires Possible(s, es)
    decreases |es|
  {
    if es == [] then s else Run(Next(s, es[0]), es[1..])
  }

  /** A byte in the consumer's hand. */
  function InHand<T>(s: Sys<T>): nat {
    if s.consumer == Called(true) then 1 else 0
  }

  /** Every item in the queue is matched by a byte: in the pipe, still to be written by a producer,
      or in the consumer's hand; the mishaps on both sides account for the rest. And what was
      popped, followed by what is queued, is what was pushed. */
  predicate Balanced<T(==)>(s: Sys<T>) {
    && |s.queue| + s.unlocked + s.unread == s.pipe + |s.between| + InHand(s) + s.unwritten + s.empty
    && s.popped + s.queue == s.pushed
  }

  lemma StepBalanced<T>(s: Sys<T>, e: Event<T>)
    requires Balanced(s) && Enabled(s, e)
    ensures Balanced(Next(s, e))
  {
    match e
    case Push(p, x, locked) =>
      assert s.popped + (s.queue + [x]) == s.popped + s.queue + [x];
    case Notify(p, written) =>
    case Read(ok) =>
    case Pop(locked) =>
      if s.queue != [] {
        assert s.popped + s.queue == s.popped + [s.queue[0]] + s.queue[1..];
      }
  }

  lemma {:induction false} RunBalanced<T>(s: Sys<T>, es: seq<Event<T>>)
    requires Balanced(s) && Possible(s, es)
    ensures Balanced(Run(s, es))
    decreases |es|
  {
    if es != [] {
      StepBalanced(s, es[0]);
      RunBalanced(Next(s, es[0]), es[1..]);
    }
  }

  /** On every run: the balance, items out in the order they went in, none lost and none twice; and
      a system at rest, no producer between its steps and the consumer not called, has a byte for
      its queue unless more bytes failed to be written, or were spent on nothing, than items were
      taken without one. */
  lemma EveryRun<T>(es: seq<Event<T>>)
    requires Possible(Init<T>(), es)
    ensures var s := Run(Init<T>(), es);
      && Balanced(s)
      && s.popped <= s.pushed
      && (s.between == {} && s.consumer.Idle? && s.queue != [] ==>
            (s.pipe > 0 <==> |s.queue| + s.unlocked + s.unread > s.unwritten + s.empty))
  {
    RunBalanced(Init<T>(), es);
  }

  // ---- Without mishaps ---------------------------------------------------------------------------------

  predicate Goes<T>(e: Event<T>) {
    match e
    case Push(_, _, locked) => locked
    case Notify(_, written) => written
    case Read(ok) => ok
    case Pop(locked) => locked
  }

  /** While reads, writes and locks succeed, no pop finds the queue empty. */
  predicate Smooth<T(==)>(s: Sys<T>) {
    && Balanced(s) && s.unwritten == s.unlocked == s.unread == s.empty == 0
    && s.consumer != Called(false)
  }

  lemma {:induction false} RunSmooth<T>(s: Sys<T>, es: seq<Event<T>>)
    requires Smooth(s) && Possible(s, es) && forall k :: 0 <= k < |es| ==> Goes(es[k])
    ensures Smooth(Run(s, es))
    decreases |es|
  {
    if es != [] {
      StepBalanced(s, es[0]);
      RunSmooth(Next(s, es[0]), es[1..]);
    }
  }

  /** No lost wake-up, for any interleaving of any number of producers with the consumer: the length
      of the queue is the bytes in the pipe, the producers between push and notify, and the consumer
      between read and pop. So a pop after a read finds an item, and at rest a queue that is not
      empty has a readable pipe. */
  lemma NoLostWakeup<T>(es: seq<Event<T>>)
    requires Possible(Init<T>(), es) && forall k :: 0 <= k < |es| ==> Goes(es[k])
    ensures var s := Run(Init<T>(), es);
      && |s.queue| == s.pipe + |s.between| + InHand(s)
      && s.empty == 0
      && (s.consumer.Called? ==> s.queue != [])
      && (s.between == {} && s.consumer.Idle? && s.queue != [] ==> s.pipe > 0)
  {
    RunSmooth(Init<T>(), es);
  }

  function Drain<T>(n: nat): seq<Event<T>> {
    if n == 0 then [] else [Read(true), Pop(true)] + Drain(n - 1)
  }

  /** Progress: from rest, the consumer's callbacks alone bring everything out that went in. */
  lemma {:induction false} DrainsAll<T>(s: Sys<T>)
    requires Smooth(s) && s.between == {} && s.consumer.Idle?
    ensures Possible(s, Drain(|s.queue|))
    ensures var s' := Run(s, Drain(|s.queue|));
      s'.queue == [] && s'.pipe == 0 && s'.popped == s.pushed
    decreases |s.queue|
  {
    if s.queue != [] {
      var es := Drain<T>(|s.queue|);
      var s1 := Next(s, Read(true));
      var s2 := Next(s1, Pop(true));
      StepBalanced(s, Read(true));
      StepBalanced(s1, Pop(true));
      DrainsAll(s2);
      assert es[1..][1..] == Drain<T>(|s2.queue|);
      assert es[1..][0] == Pop(true);
    }
  }

  // ---- After a lost write -------------------------------------------------------------------------------

  lemma {:induction false} GoesKeepsCounts<T>(s: Sys<T>, es: seq<Event<T>>)
    requires s.consumer != Called(false) && Possible(s, es) && forall k :: 0 <= k < |es| ==> Goes(es[k])
    ensures var s' := Run(s, es);
      s'.unwritten == s.unwritten && s'.unlocked == s.unlocked && s'.unread == s.unread
    decreases |es|
  {
    if es != [] {
      GoesKeepsCounts(Next(s, es[0]), es[1..]);
    }
  }

  /** A byte that was not written, on balance, leaves the queue one item behind for ever: whatever is
      pushed, notified, read and popped afterwards, as long as nothing else fails, the queue is never
      empty again. */
  lemma LostWrite<T>(s: Sys<T>, es: seq<Event<T>>)
    requires Balanced(s) && s.consumer != Called(false) && s.unwritten > s.unlocked + s.unread
    requires Possible(s, es) && forall k :: 0 <= k < |es| ==> Goes(es[k])
    ensures |Run(s, es).queue| >= s.unwritten - s.unlocked - s.unread > 0
    ensures Run(s, es).popped < Run(s, es).pushed
  {
    RunBalanced(s, es);
    GoesKeepsCounts(s, es);
  }

  /** And without a push nothing happens at all: at rest with an empty pipe no other step is
      possible, so the only run without a push is the empty one, and what is queued stays. */
  lemma Stranded<T>(s: Sys<T>, e: Event<T>, es: seq<Event<T>>)
    requires s.between == {} && s.consumer.Idle? && s.pipe == 0
    ensures Enabled(s, e) <==> e.Push?
    ensures Possible(s, es) ==> es == [] || es[0].Push?
  {
  }

  /** Such a state is reached by one push whose byte is not written. */
  lemma LostWriteReached<T>(x: T, p: Producer)
    ensures var es := [Push(p, x, true)] + [Notify(p, false)];
      && Possible(Init<T>(), es)
      && var s := Run(Init<T>(), es);
         && Balanced(s) && s.queue == [x] && s.between == {} && s.consumer.Idle? && s.pipe == 0
         && s.unwritten > s.unlocked + s.unread
  {
    var last: seq<Event<T>> := [Notify(p, false)];
    var es := [Push(p, x, true)] + last;
    var s1 := Next(Init<T>(), es[0]);
    var s2 := Next(s1, last[0]);
    assert es[1..] == last;
    assert Possible(s2, last[1..]);
    assert s2.between == {} && s2.queue == [x];
    assert Run(s1, last) == s2;
  }
}
