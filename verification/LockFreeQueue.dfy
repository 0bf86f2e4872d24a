/**
 * `LockFreeQueue` itself (core/lockfree_queue.cpp): its fields, updated by whole calls that run
 * without interruption, each tied to the protocol's steps.
 */
module LockFreeQueue {
  import opened Options
  import opened Powers
  import opened Words
  import opened QueueProtocol

  /** The `i`-th value of `m_capacity` in the constructor's doubling loop. */
  function Doubled(i: nat): nat {
    if i == 0 then 1 else ToWord(2 * Doubled(i - 1))
  }

  lemma {:induction false} DoubledIs(i: nat)
    ensures Doubled(i) == if i < 64 then Pow2(i) else 0
  {
    hide Pow2, ToWord;
    Pow2Doubles();
    if i > 0 {
      DoubledIs(i - 1);
      WordIsPow2();
      WordOf(2 * Doubled(i - 1));
      if i < 64 {
        PowerBelowWord(i);
      }
    }
  }

  lemma {:induction false} Pow2Doubles()
    ensures Pow2(0) == 1 && forall i: nat :: i > 0 ==> Pow2(i) == 2 * Pow2(i - 1)
  {
  }

  /** The doubling loop can end exactly for requests up to 2^63: past that it wraps to 0 for good. */
  lemma {:induction false} DoublingReaches(request: nat)
    ensures (exists i :: Doubled(i) >= request) <==> request <= Pow2(63)
  {
    hide Pow2, Doubled;
    if request <= Pow2(63) {
      DoubledIs(63);
    }
    forall i: nat
      ensures Doubled(i) <= Pow2(63)
    {
      DoubledIs(i);
      if i < 63 {
        Pow2Monotone(i, 63);
      }
    }
  }

  /** The constructor's loop: the least power of two not below the request. */
  method CapacityFor(request: nat) returns (cap: nat, ghost k: nat)
    requires request <= Pow2(63)
    ensures k < 64 && cap == Pow2(k) >= request
    ensures forall j: nat :: Pow2(j) >= request ==> Pow2(j) >= cap
  {
    hide Pow2, ToWord;
    Pow2Doubles();
    cap, k := 1, 0;
    while cap < request
      invariant k < 64 && cap == Doubled(k) == Pow2(k)
      invariant forall j: nat :: j < k ==> Pow2(j) < request
      decreases 63 - k
    {
      if k == 63 {
        assert false;
      }
      DoubledIs(k + 1);
      cap, k := ToWord(2 * cap), k + 1;
    }
    forall j: nat | Pow2(j) >= request
      ensures Pow2(j) >= cap
    {
      if k < j {
        Pow2Monotone(k, j);
      }
    }
  }

  /** A call that runs without interruption: its first load and its three further steps. */
  function Call<T>(a: Arithmetic, s: State<T>, begin: Action<T>, step: Action<T>): State<T>
    requires Sound(s)
  {
    Do(a, Do(a, Do(a, Do(a, s, begin), step), step), step)
  }

  lemma {:induction false} CallOfWords<T>(s: State<T>, begin: Action<T>, step: Action<T>, k: nat)
    requires Inv(s) && s.cap == Pow2(k) && k < 64
    ensures Inv(Call(Exact, s, begin, step))
    ensures Call(Wrapped, Wrap(s), begin, step) == Wrap(Call(Exact, s, begin, step))
  {
    hide Do, Pow2, Wrap;
    DoKeepsInv(s, begin);
    WrappedStep(s, begin, k);
    var s1 := Do(Exact, s, begin);
    DoKeepsInv(s1, step);
    WrappedStep(s1, step, k);
    var s2 := Do(Exact, s1, step);
    DoKeepsInv(s2, step);
    WrappedStep(s2, step, k);
    var s3 := Do(Exact, s2, step);
    DoKeepsInv(s3, step);
    WrappedStep(s3, step, k);
  }

  lemma {:induction false} PushOutcome<T>(s: State<T>, packet: T)
    requires Inv(s) && s.producer.ProducerIdle?
    ensures Call(Exact, s, BeginPush(packet), ProducerStep)
            == if s.write - s.read >= s.cap then s.(producer := PushReturned(false))
               else s.(buffer := s.buffer[Residue(s.write, s.cap) := packet], write := s.write + 1,
                       pushed := s.pushed + [packet], producer := PushReturned(true))
  {
    hide Residue, ToWord;
  }

  lemma {:induction false} PopOutcome<T>(s: State<T>)
    requires Inv(s) && s.consumer.ConsumerIdle?
    ensures var packet := s.buffer[Residue(s.read, s.cap)];
            Call(Exact, s, BeginPop, ConsumerStep)
            == if s.read == s.write then s.(consumer := PopReturned(None))
               else s.(read := s.read + 1, popped := s.popped + [packet],
                       consumer := PopReturned(Some(packet)))
  {
    hide Residue, ToWord;
  }

  class Queue<T> {
    const capacity: nat
    const buffer: array<T>
    var writeIndex: nat
    var readIndex: nat
    ghost const exponent: nat
    ghost var pushed: seq<T>
    ghost var popped: seq<T>

    /** The protocol state these fields stand for, with both threads between calls. */
    ghost function View(): State<T>
      reads this, buffer
    {
      State(capacity, buffer[..], writeIndex, readIndex, ProducerIdle, ConsumerIdle, pushed, popped)
    }

    /** The same with indices that count instead of wrapping. */
    ghost function Counted(): State<T>
      reads this, buffer
    {
      View().(write := |pushed|, read := |popped|)
    }

    ghost predicate Valid()
      reads this, buffer
    {
      exponent < 64 && capacity == Pow2(exponent) && Inv(Counted()) && View() == Wrap(Counted())
    }

    ghost function Packets(): seq<T>
      reads this, buffer
      requires Valid()
    {
      Contents(View())
    }

    constructor (request: nat, zero: T)
      requires request <= Pow2(63)
      ensures Valid() && fresh(buffer)
      ensures View() == Initial(capacity, zero) && Packets() == []
      ensures capacity >= request && forall j: nat :: Pow2(j) >= request ==> Pow2(j) >= capacity
    {
      var cap, k := CapacityFor(request);
      capacity := cap;
      exponent := k;
      buffer := new T[cap](_ => zero);
      writeIndex, readIndex := 0, 0;
      pushed, popped := [], [];
      new;
      assert buffer[..] == seq(cap, _ => zero);
      InitialInv(k, zero);
    }

    method Push(packet: T) returns (ok: bool)
      requires Valid()
      modifies this`writeIndex, this`pushed, buffer
      ensures Valid()
      ensures View().(producer := PushReturned(ok)) ==
                Call(Wrapped, old(View()), BeginPush(packet), ProducerStep)
      ensures ok <==> |old(Packets())| < capacity
      ensures Packets() == if ok then old(Packets()) + [packet] else old(Packets())
    {
      hide Pow2, BitAnd, ToWord, Residue, Call;
      ghost var s := Counted();
      PowerBelowWord(exponent);
      WordDistance(s.write, s.read);
      WordSlot(s.write, exponent);
      WordNext(s.write);
      CallOfWords(s, BeginPush(packet), ProducerStep, exponent);
      PushOutcome(s, packet);

      var w := writeIndex;
      var r := readIndex;
      if Distance(Wrapped, w, r) >= capacity {
        return false;
      }
      buffer[BitAnd(w, capacity - 1)] := packet;
      writeIndex := ToWord(w + 1);
      pushed := pushed + [packet];
      return true;
    }

    method Pop() returns (result: Option<T>)
      requires Valid()
      modifies this`readIndex, this`popped
      ensures Valid()
      ensures View().(consumer := PopReturned(result)) ==
                Call(Wrapped, old(View()), BeginPop, ConsumerStep)
      ensures old(Packets()) == [] ==> result == None && Packets() == []
      ensures old(Packets()) != [] ==>
                result == Some(old(Packets())[0]) && Packets() == old(Packets())[1..]
    {
      hide Pow2, BitAnd, ToWord, Residue, Call;
      ghost var s := Counted();
      PowerBelowWord(exponent);
      WordDistance(s.write, s.read);
      WordSlot(s.read, exponent);
      WordNext(s.read);
      CallOfWords(s, BeginPop, ConsumerStep, exponent);
      PopOutcome(s);

      var r := readIndex;
      var w := writeIndex;
      if r == w {
        return None;
      }
      var packet := buffer[BitAnd(r, capacity - 1)];
      readIndex := ToWord(r + 1);
      popped := popped + [packet];
      return Some(packet);
    }

    method Size() returns (n: nat)
      requires Valid()
      ensures n == |Packets()| <= capacity
    {
      hide Pow2, ToWord;
      PowerBelowWord(exponent);
      WordDistance(|pushed|, |popped|);
      n := ToWord(writeIndex - readIndex);
    }

    method Full() returns (full: bool)
      requires Valid()
      ensures full <==> |Packets()| == capacity
    {
      var n := Size();
      full := n >= capacity;
    }
  }

}
