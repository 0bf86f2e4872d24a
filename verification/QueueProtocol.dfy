/**
 * `LockFreeQueue` (core/lockfree_queue.cpp:18-58) as a protocol of one producer and one consumer
 * thread.  Every load of an index, every slot access and every index store is a step of its own;
 * the threads interleave freely.
 */
module QueueProtocol {
  import opened Options
  import opened Powers
  import opened Words

  /** The indices as counters that never wrap, or as the `size_t` words of the code. */
  datatype Arithmetic = Exact | Wrapped

  function Next(a: Arithmetic, i: nat): nat {
    if a.Exact? then i + 1 else ToWord(i + 1)
  }

  function Distance(a: Arithmetic, w: nat, r: nat): int {
    if a.Exact? then w - r else ToWord(w - r)
  }

  function Slot(a: Arithmetic, i: nat, cap: nat): nat
    requires cap > 0
  {
    if a.Exact? then Residue(i, cap) else BitAnd(i, cap - 1)
  }

  /** Where the producer thread is; indices are the values it has loaded. */
  datatype Producer<T> =
    | ProducerIdle
    | PushLoadedWrite(packet: T, w: nat)
    | PushAdmitted(packet: T, w: nat)
    | PushFilled(packet: T, w: nat)
    | PushReturned(ok: bool)
    | ProducerSizing(w: nat)
    | ProducerSized(n: int, full: bool)

  /** Where the consumer thread is. */
  datatype Consumer<T> =
    | ConsumerIdle
    | PopLoadedRead(r: nat)
    | PopAdmitted(r: nat)
    | PopTaken(r: nat, packet: T)
    | PopReturned(result: Option<T>)
    | ConsumerSizing(w: nat)
    | ConsumerSized(n: int, full: bool)

  /**
   * The shared fields, both threads, and the packets whose `push` or `pop` has taken effect so
   * far, in order.
   */
  datatype State<T> = State(
    cap: nat, buffer: seq<T>, write: nat, read: nat,
    producer: Producer<T>, consumer: Consumer<T>,
    pushed: seq<T>, popped: seq<T>)

  /** A call started by a thread between calls, or the next atomic step of a running call. */
  datatype Action<T> =
    | BeginPush(packet: T) | BeginProducerSize | ProducerStep
    | BeginPop | BeginConsumerSize | ConsumerStep

  predicate ProducerFree<T>(p: Producer<T>) {
    p.ProducerIdle? || p.PushReturned? || p.ProducerSized?
  }

  predicate ConsumerFree<T>(c: Consumer<T>) {
    c.ConsumerIdle? || c.PopReturned? || c.ConsumerSized?
  }

  predicate Sound<T>(s: State<T>) {
    0 < s.cap == |s.buffer|
  }

  function StepProducer<T>(a: Arithmetic, s: State<T>): State<T>
    requires Sound(s)
  {
    match s.producer
    case PushLoadedWrite(packet, w) =>
      if Distance(a, w, s.read) >= s.cap then s.(producer := PushReturned(false))
      else s.(producer := PushAdmitted(packet, w))
    case PushAdmitted(packet, w) =>
      var slot := Slot(a, w, s.cap);
      if slot < s.cap then s.(buffer := s.buffer[slot := packet], producer := PushFilled(packet, w))
      else s
    case PushFilled(packet, w) =>
      s.(write := Next(a, w), pushed := s.pushed + [packet], producer := PushReturned(true))
    case ProducerSizing(w) =>
      var n := Distance(a, w, s.read);
      s.(producer := ProducerSized(n, n >= s.cap))
    case _ => s
  }

  function StepConsumer<T>(a: Arithmetic, s: State<T>): State<T>
    requires Sound(s)
  {
    match s.consumer
    case PopLoadedRead(r) =>
      if r == s.write then s.(consumer := PopReturned(None))
      else s.(consumer := PopAdmitted(r))
    case PopAdmitted(r) =>
      var slot := Slot(a, r, s.cap);
      if slot < s.cap then s.(consumer := PopTaken(r, s.buffer[slot])) else s
    case PopTaken(r, packet) =>
      s.(read := Next(a, r), popped := s.popped + [packet], consumer := PopReturned(Some(packet)))
    case ConsumerSizing(w) =>
      var n := Distance(a, w, s.read);
      s.(consumer := ConsumerSized(n, n >= s.cap))
    case _ => s
  }

  function Do<T>(a: Arithmetic, s: State<T>, action: Action<T>): (s': State<T>)
    requires Sound(s)
    ensures Sound(s') && s'.cap == s.cap
  {
    match action
    case BeginPush(packet) =>
      if ProducerFree(s.producer) then s.(producer := PushLoadedWrite(packet, s.write)) else s
    case BeginProducerSize =>
      if ProducerFree(s.producer) then s.(producer := ProducerSizing(s.write)) else s
    case BeginPop =>
      if ConsumerFree(s.consumer) then s.(consumer := PopLoadedRead(s.read)) else s
    case BeginConsumerSize =>
      if ConsumerFree(s.consumer) then s.(consumer := ConsumerSizing(s.write)) else s
    case ProducerStep => StepProducer(a, s)
    case ConsumerStep => StepConsumer(a, s)
  }

  function Run<T>(a: Arithmetic, s: State<T>, actions: seq<Action<T>>): (s': State<T>)
    requires Sound(s)
    ensures Sound(s') && s'.cap == s.cap
    decreases |actions|
  {
    if actions == [] then s
    else Do(a, Run(a, s, actions[..|actions| - 1]), actions[|actions| - 1])
  }

  function Initial<T>(cap: nat, zero: T): State<T> {
    State(cap, seq(cap, _ => zero), 0, 0, ProducerIdle, ConsumerIdle, [], [])
  }

  // ---------------------------------------------------------------- the unbounded machine

  ghost predicate ProducerInv<T>(s: State<T>)
    requires Sound(s)
  {
    match s.producer
    case PushLoadedWrite(_, w) => w == s.write
    case PushAdmitted(_, w) => w == s.write && s.write - s.read < s.cap
    case PushFilled(packet, w) =>
      w == s.write && s.write - s.read < s.cap && s.buffer[Residue(w, s.cap)] == packet
    case ProducerSizing(w) => w == s.write
    case ProducerSized(n, full) => 0 <= n <= s.cap && (full <==> n == s.cap)
    case _ => true
  }

  ghost predicate ConsumerInv<T>(s: State<T>)
    requires Sound(s)
  {
    match s.consumer
    case PopLoadedRead(r) => r == s.read
    case PopAdmitted(r) => r == s.read < s.write
    case PopTaken(r, packet) => r == s.read < s.write && s.buffer[Residue(r, s.cap)] == packet
    case ConsumerSizing(w) => s.read <= w <= s.write
    case ConsumerSized(n, full) => 0 <= n <= s.cap && (full <==> n == s.cap)
    case _ => true
  }

  /** What every step of the unbounded machine keeps. */
  ghost predicate Inv<T>(s: State<T>) {
    && Sound(s)
    && s.write == |s.pushed| && s.read == |s.popped|
    && s.read <= s.write <= s.read + s.cap
    && s.popped <= s.pushed
    && (forall i :: s.read <= i < s.write ==> s.buffer[Residue(i, s.cap)] == s.pushed[i])
    && ProducerInv(s)
    && ConsumerInv(s)
  }

  /** No step of the producer disturbs what the consumer relies on, and conversely. */
  lemma {:induction false} ConsumerUndisturbed<T>(s: State<T>)
    requires Inv(s)
    ensures ConsumerInv(StepProducer(Exact, s))
  {
    hide Residue;
    if s.producer.PushAdmitted? && s.consumer.PopTaken? {
      DistinctRemainders(s.read, s.write, s.cap);
    }
  }

  lemma {:induction false} ProducerUndisturbed<T>(s: State<T>)
    requires Inv(s)
    ensures ProducerInv(StepConsumer(Exact, s))
  {
    hide Residue;
  }

  lemma {:induction false} ProducerKeepsInv<T>(s: State<T>)
    requires Inv(s)
    ensures Inv(StepProducer(Exact, s))
  {
    hide Residue, ConsumerInv;
    ConsumerUndisturbed(s);
    if s.producer.PushAdmitted? {
      var w, cap := s.producer.w, s.cap;
      forall i | s.read <= i < s.write
        ensures Residue(i, cap) != Residue(w, cap)
      {
        DistinctRemainders(i, w, cap);
      }
    }
  }

  lemma {:induction false} ConsumerKeepsInv<T>(s: State<T>)
    requires Inv(s)
    ensures Inv(StepConsumer(Exact, s))
  {
    hide Residue, ProducerInv;
    ProducerUndisturbed(s);
  }

  lemma {:induction false} DoKeepsInv<T>(s: State<T>, action: Action<T>)
    requires Inv(s)
    ensures Inv(Do(Exact, s, action))
  {
    if action.ProducerStep? {
      ProducerKeepsInv(s);
    } else if action.ConsumerStep? {
      ConsumerKeepsInv(s);
    }
  }

  // ---------------------------------------------------------------- wrapping

  function WrapProducer<T>(p: Producer<T>): Producer<T> {
    match p
    case PushLoadedWrite(packet, w) => PushLoadedWrite(packet, ToWord(w))
    case PushAdmitted(packet, w) => PushAdmitted(packet, ToWord(w))
    case PushFilled(packet, w) => PushFilled(packet, ToWord(w))
    case ProducerSizing(w) => ProducerSizing(ToWord(w))
    case _ => p
  }

  function WrapConsumer<T>(c: Consumer<T>): Consumer<T> {
    match c
    case PopLoadedRead(r) => PopLoadedRead(ToWord(r))
    case PopAdmitted(r) => PopAdmitted(ToWord(r))
    case PopTaken(r, packet) => PopTaken(ToWord(r), packet)
    case ConsumerSizing(w) => ConsumerSizing(ToWord(w))
    case _ => c
  }

  /** The same state with every index, shared or loaded, reduced to a machine word. */
  function Wrap<T>(s: State<T>): State<T> {
    s.(write := ToWord(s.write), read := ToWord(s.read),
       producer := WrapProducer(s.producer), consumer := WrapConsumer(s.consumer))
  }

  lemma {:induction false} WrappedProducer<T>(s: State<T>, k: nat)
    requires Inv(s) && s.cap == Pow2(k) && k < 64
    ensures StepProducer(Wrapped, Wrap(s)) == Wrap(StepProducer(Exact, s))
  {
    hide Pow2, BitAnd, ToWord, Residue, ConsumerInv, WrapConsumer;
    PowerBelowWord(k);
    match s.producer {
      case PushLoadedWrite(_, w) => WordDistance(w, s.read);
      case PushAdmitted(_, w) => WordSlot(w, k);
      case PushFilled(_, w) => WordNext(w);
      case ProducerSizing(w) => WordDistance(w, s.read);
      case _ =>
    }
  }

  lemma {:induction false} WrappedConsumer<T>(s: State<T>, k: nat)
    requires Inv(s) && s.cap == Pow2(k) && k < 64
    ensures StepConsumer(Wrapped, Wrap(s)) == Wrap(StepConsumer(Exact, s))
  {
    hide Pow2, BitAnd, ToWord, Residue, ProducerInv, WrapProducer;
    PowerBelowWord(k);
    match s.consumer {
      case PopLoadedRead(r) => WordDistance(s.write, r);
      case PopAdmitted(r) => WordSlot(r, k);
      case PopTaken(r, _) => WordNext(r);
      case ConsumerSizing(w) => WordDistance(w, s.read);
      case _ =>
    }
  }

  /** One step of the wrapping machine is the same step of the unbounded one, wrapped. */
  lemma {:induction false} WrappedStep<T>(s: State<T>, action: Action<T>, k: nat)
    requires Inv(s) && s.cap == Pow2(k) && k < 64
    ensures Do(Wrapped, Wrap(s), action) == Wrap(Do(Exact, s, action))
  {
    hide Pow2, StepProducer, StepConsumer;
    if action.ProducerStep? {
      WrappedProducer(s, k);
    } else if action.ConsumerStep? {
      WrappedConsumer(s, k);
    }
  }

  // ---------------------------------------------------------------- whole runs

  lemma {:induction false} RunOfWords<T>(k: nat, zero: T, actions: seq<Action<T>>)
    requires k < 64
    ensures var start := Initial(Pow2(k), zero);
            && Inv(Run(Exact, start, actions))
            && Run(Wrapped, start, actions) == Wrap(Run(Exact, start, actions))
    decreases |actions|
  {
    hide Pow2, Do, Inv, Wrap;
    var start := Initial(Pow2(k), zero);
    if actions == [] {
      InitialInv(k, zero);
    } else {
      var front, last := actions[..|actions| - 1], actions[|actions| - 1];
      RunOfWords(k, zero, front);
      var s := Run(Exact, start, front);
      DoKeepsInv(s, last);
      WrappedStep(s, last, k);
    }
  }

  lemma {:induction false} InitialInv<T>(k: nat, zero: T)
    requires k < 64
    ensures var start := Initial(Pow2(k), zero); Inv(start) && Wrap(start) == start
  {
    PowerBelowWord(k);
  }

  /** The packets stored but not yet taken. */
  function Contents<T>(s: State<T>): seq<T>
    requires |s.popped| <= |s.pushed|
  {
    s.pushed[|s.popped|..]
  }

  /** What the code, with its wrapping indices, guarantees in every state. */
  ghost predicate Safe<T>(s: State<T>) {
    // first in, first out, nothing lost or made up
    && s.popped <= s.pushed
    // the index words measure the contents, within the capacity
    && 0 < s.cap && |Contents(s)| == Distance(Wrapped, s.write, s.read) <= s.cap
    // the two threads are never about to touch the same slot
    && (s.producer.PushAdmitted? && s.consumer.PopAdmitted? ==>
          BitAnd(s.producer.w, s.cap - 1) != BitAnd(s.consumer.r, s.cap - 1))
    // `size` and `full` agree with each other and with the capacity
    && (s.producer.ProducerSized? ==>
          0 <= s.producer.n <= s.cap && (s.producer.full <==> s.producer.n == s.cap))
    && (s.consumer.ConsumerSized? ==>
          0 <= s.consumer.n <= s.cap && (s.consumer.full <==> s.consumer.n == s.cap))
  }

  /** Main theorem: every interleaving of the wrapping machine stays safe. */
  lemma {:induction false} EveryRunIsSafe<T>(k: nat, zero: T, actions: seq<Action<T>>)
    requires k < 64
    ensures Safe(Run(Wrapped, Initial(Pow2(k), zero), actions))
  {
    hide Pow2, Run, BitAnd, Residue, ToWord;
    RunOfWords(k, zero, actions);
    PowerBelowWord(k);
    var s := Run(Exact, Initial(Pow2(k), zero), actions);
    WordDistance(s.write, s.read);
    if s.producer.PushAdmitted? && s.consumer.PopAdmitted? {
      WordSlot(s.write, k);
      WordSlot(s.read, k);
      DistinctRemainders(s.read, s.write, s.cap);
    }
  }

  /** One action, seen as an operation of a bounded first-in-first-out queue that happens at once. */
  ghost predicate AtomicQueue<T>(s: State<T>, action: Action<T>, s': State<T>)
    requires |s.popped| <= |s.pushed| && |s'.popped| <= |s'.pushed|
  {
    var q, q' := Contents(s), Contents(s');
    && (if action.ProducerStep? && s.producer.PushFilled? then
          |q| < s.cap && q' == q + [s.producer.packet] && s'.producer == PushReturned(true)
        else if action.ConsumerStep? && s.consumer.PopTaken? then
          q == [s.consumer.packet] + q' && s'.consumer == PopReturned(Some(s.consumer.packet))
        else q' == q)
    && (action.ProducerStep? && s.producer.PushLoadedWrite? ==>
          (s'.producer == PushReturned(false) <==> |q| == s.cap))
    && (action.ConsumerStep? && s.consumer.PopLoadedRead? ==>
          (s'.consumer == PopReturned(None) <==> q == []))
    && (action.ProducerStep? && s.producer.ProducerSizing? ==>
          s'.producer == ProducerSized(|q|, |q| == s.cap))
    && (action.ConsumerStep? && s.consumer.ConsumerSizing? ==>
          s'.consumer.ConsumerSized? && 0 <= s'.consumer.n <= |q|)
  }

  /** Every `push` and `pop` takes effect in one of its own steps; refusals are exact. */
  lemma {:induction false} EveryStepIsAtomic<T>(k: nat, zero: T, actions: seq<Action<T>>, action: Action<T>)
    requires k < 64
    ensures var s := Run(Wrapped, Initial(Pow2(k), zero), actions);
            var s' := Do(Wrapped, s, action);
            && |s.popped| <= |s.pushed| && |s'.popped| <= |s'.pushed|
            && AtomicQueue(s, action, s')
  {
    hide Pow2, Run, BitAnd, Residue, ToWord, Do;
    RunOfWords(k, zero, actions);
    var e := Run(Exact, Initial(Pow2(k), zero), actions);
    WrappedStep(e, action, k);
    DoKeepsInv(e, action);
    AtomicExact(e, action);
  }

  lemma {:induction false} AtomicExact<T>(s: State<T>, action: Action<T>)
    requires Inv(s) && Inv(Do(Exact, s, action))
    ensures AtomicQueue(s, action, Do(Exact, s, action))
  {
    hide Residue, ToWord;
    if action.ProducerStep? {
      ProducerAtomic(s);
    } else if action.ConsumerStep? {
      ConsumerAtomic(s);
    }
  }

  lemma {:induction false} ProducerAtomic<T>(s: State<T>)
    requires Inv(s)
    ensures var s' := StepProducer(Exact, s);
            |s'.popped| <= |s'.pushed| && AtomicQueue(s, ProducerStep, s')
  {
    hide Residue, ToWord, ConsumerInv;
  }

  lemma {:induction false} ConsumerAtomic<T>(s: State<T>)
    requires Inv(s) && Inv(StepConsumer(Exact, s))
    ensures AtomicQueue(s, ConsumerStep, StepConsumer(Exact, s))
  {
    hide Residue, ToWord, ProducerInv;
    if s.consumer.PopTaken? {
      assert s.consumer.packet == s.pushed[s.read];
    }
  }

  // ---------------------------------------------------------------- the consumer's size

  lemma {:induction false} RunConcat<T>(a: Arithmetic, s: State<T>, xs: seq<Action<T>>, ys: seq<Action<T>>)
    requires Sound(s)
    ensures Run(a, s, xs + ys) == Run(a, Run(a, s, xs), ys)
    decreases |ys|
  {
    hide Do;
    if ys == [] {
      assert xs + ys == xs;
    } else {
      var n := |ys| - 1;
      RunConcat(a, s, xs, ys[..n]);
      assert (xs + ys)[..|xs| + n] == xs + ys[..n];
    }
  }

  ghost predicate NoConsumerStep<T>(actions: seq<Action<T>>) {
    forall i :: 0 <= i < |actions| ==> !actions[i].ConsumerStep?
  }

  /** Between its two loads the consumer keeps the first one, and nobody moves the other index. */
  lemma {:induction false} SizingHeld<T>(s: State<T>, middle: seq<Action<T>>)
    requires Inv(s) && s.consumer.ConsumerSizing? && NoConsumerStep(middle)
    ensures var t := Run(Exact, s, middle);
            t.consumer == s.consumer && t.read == s.read && t.cap == s.cap
    decreases |middle|
  {
    hide Inv, Residue;
    if middle != [] {
      SizingHeld(s, middle[..|middle| - 1]);
    }
  }

  /**
   * Whatever the producer does in between, the consumer's `size` and `full` answer for the
   * contents at the consumer's first load.
   */
  lemma {:induction false} ConsumerSizeIsSnapshot<T>(
    k: nat, zero: T, actions: seq<Action<T>>, middle: seq<Action<T>>)
    requires k < 64 && NoConsumerStep(middle)
    requires ConsumerFree(Run(Wrapped, Initial(Pow2(k), zero), actions).consumer)
    ensures var start := Initial(Pow2(k), zero);
            var s := Run(Wrapped, start, actions);
            var t := Run(Wrapped, start, actions + [BeginConsumerSize] + middle + [ConsumerStep]);
            && |s.popped| <= |s.pushed|
            && t.consumer == ConsumerSized(|Contents(s)|, |Contents(s)| == s.cap)
  {
    hide Pow2, Run, BitAnd, Residue, ToWord;
    var start, begun := Initial(Pow2(k), zero), actions + [BeginConsumerSize];
    var all := begun + middle + [ConsumerStep];
    RunOfWords(k, zero, actions);
    RunOfWords(k, zero, begun);
    RunOfWords(k, zero, all);
    var e, b := Run(Exact, start, actions), Run(Exact, start, begun);
    LastAction(Exact, start, actions, BeginConsumerSize);
    LastAction(Exact, start, begun + middle, ConsumerStep);
    RunConcat(Exact, start, begun, middle);
    SizingHeld(b, middle);
    assert b.consumer == ConsumerSizing(e.write) && b.read == e.read;
  }

  lemma {:induction false} LastAction<T>(a: Arithmetic, s: State<T>, actions: seq<Action<T>>, last: Action<T>)
    requires Sound(s)
    ensures Run(a, s, actions + [last]) == Do(a, Run(a, s, actions), last)
  {
    hide Do;
    assert (actions + [last])[..|actions|] == actions;
  }
}
