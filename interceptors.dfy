/**
 * `InterceptorManager` of packages/core/src/interceptors.ts, a registry of
 * nullable handler slots, and the `promise.then(fulfilled, rejected)` chain
 * that packages/core/src/client.ts builds from the registered handlers.
 *
 * A handler either settles with a value (`Ok`) or throws (`Err`); a rejection
 * handler that returns a value recovers the chain.
 */
module Interceptors {
  import opened Outcomes
  import Seqs

  datatype Handler<!V, !E> = Handler(
    fulfilled: Option<V -> Outcome<V, E>>,
    rejected: Option<E -> Outcome<V, E>>)

  type Slot<!V, !E> = Option<Handler<V, E>>

  /** The handlers in the slots that are not null, in slot order. */
  ghost function Active<V, E>(slots: seq<Slot<V, E>>): seq<Handler<V, E>>
  {
    if slots == [] then []
    else Active(slots[..|slots| - 1]) + (if slots[|slots| - 1].Some? then [slots[|slots| - 1].value] else [])
  }

  /** `eject(id)`: the slot `id` becomes null if it holds a handler; any other id changes nothing. */
  ghost function EjectSlot<V, E>(slots: seq<Slot<V, E>>, id: int): seq<Slot<V, E>>
  {
    if 0 <= id < |slots| && slots[id].Some? then slots[id := None] else slots
  }

  class InterceptorManager<V, E> {
    var handlers: seq<Slot<V, E>>

    constructor ()
      ensures handlers == []
    {
      handlers := [];
    }

    /** Registers a handler in a new last slot; its id is the slot's index. */
    method Use(fulfilled: Option<V -> Outcome<V, E>>, rejected: Option<E -> Outcome<V, E>>) returns (id: nat)
      modifies this
      ensures handlers == old(handlers) + [Some(Handler(fulfilled, rejected))]
      ensures id == |old(handlers)| && id < |handlers|
    {
      handlers := handlers + [Some(Handler(fulfilled, rejected))];
      id := |handlers| - 1;
    }

    method Eject(id: int)
      modifies this
      ensures handlers == EjectSlot(old(handlers), id)
    {
      if 0 <= id < |handlers| && handlers[id].Some? {
        handlers := handlers[id := None];
      }
    }

    method Clear()
      modifies this
      ensures handlers == []
    {
      handlers := [];
    }

    /** The handlers `forEach` passes to its callback, in the order it passes them. */
    method ForEach() returns (visited: seq<Handler<V, E>>)
      ensures visited == Active(handlers)
      ensures forall h :: h in visited <==> Some(h) in handlers
    {
      visited := [];
      for i := 0 to |handlers|
        invariant visited == Active(handlers[..i])
      {
        assert handlers[..i + 1][..i] == handlers[..i];
        var h := handlers[i];
        if h.Some? {
          visited := visited + [h.value];
        }
      }
      assert handlers[..|handlers|] == handlers;
      ActiveMembers(handlers);
    }
  }

  /** `promise.then(fulfilled, rejected)` on a settled promise. */
  function Then<V, E>(o: Outcome<V, E>, h: Handler<V, E>): Outcome<V, E>
  {
    match o
    case Ok(v) => if h.fulfilled.Some? then h.fulfilled.value(v) else o
    case Err(e) => if h.rejected.Some? then h.rejected.value(e) else o
  }

  /** The promise chain built over `hs`, starting from a settled promise. */
  function Chain<V, E>(start: Outcome<V, E>, hs: seq<Handler<V, E>>): Outcome<V, E>
  {
    if hs == [] then start else Then(Chain(start, hs[..|hs| - 1]), hs[|hs| - 1])
  }

  /** The loop `forEach(h => promise = promise.then(h.fulfilled, h.rejected))` followed by `await`. */
  method RunChain<V, E>(start: Outcome<V, E>, hs: seq<Handler<V, E>>) returns (settled: Outcome<V, E>)
    ensures settled == Chain(start, hs)
  {
    settled := start;
    for i := 0 to |hs|
      invariant settled == Chain(start, hs[..i])
    {
      assert hs[..i + 1][..i] == hs[..i];
      settled := Then(settled, hs[i]);
    }
    assert hs[..|hs|] == hs;
  }

  // ---------------------------------------------------------------- properties

  lemma {:induction false} ActiveConcat<V, E>(a: seq<Slot<V, E>>, b: seq<Slot<V, E>>)
    ensures Active(a + b) == Active(a) + Active(b)
    decreases |b|
  {
    if b == [] {
      assert a + b == a;
    } else {
      assert (a + b)[..|a + b| - 1] == a + b[..|b| - 1];
      ActiveConcat(a, b[..|b| - 1]);
    }
  }

  /** `forEach` visits exactly the handlers in non-null slots. */
  lemma {:induction false} ActiveMembers<V, E>(slots: seq<Slot<V, E>>)
    ensures forall h :: h in Active(slots) <==> Some(h) in slots
    ensures |Active(slots)| <= |slots|
  {
    if slots != [] {
      var init := slots[..|slots| - 1];
      ActiveMembers(init);
      assert slots == init + [slots[|slots| - 1]];
    }
  }

  /** A new registration adds exactly its handler at the end of the visit order. */
  lemma UseExtendsActive<V, E>(slots: seq<Slot<V, E>>, h: Handler<V, E>)
    ensures Active(slots + [Some(h)]) == Active(slots) + [h]
  {
    assert (slots + [Some(h)])[..|slots|] == slots;
  }

  /** `eject` keeps the length and every other slot, nulls its own slot, and is idempotent. */
  lemma EjectSlotFacts<V, E>(slots: seq<Slot<V, E>>, id: int)
    ensures |EjectSlot(slots, id)| == |slots|
    ensures forall i :: 0 <= i < |slots| && i != id ==> EjectSlot(slots, id)[i] == slots[i]
    ensures 0 <= id < |slots| ==> EjectSlot(slots, id)[id].None?
    ensures !(0 <= id < |slots|) ==> EjectSlot(slots, id) == slots
    ensures EjectSlot(EjectSlot(slots, id), id) == EjectSlot(slots, id)
  {
  }

  lemma ActiveSplit<V, E>(slots: seq<Slot<V, E>>, id: nat)
    requires id < |slots|
    ensures Active(slots) == Active(slots[..id]) + Active([slots[id]]) + Active(slots[id + 1..])
  {
    Seqs.SplitAt(slots, id);
    ActiveConcat3(slots[..id], [slots[id]], slots[id + 1..]);
  }

  lemma ActiveConcat3<V, E>(a: seq<Slot<V, E>>, b: seq<Slot<V, E>>, c: seq<Slot<V, E>>)
    ensures Active(a + b + c) == Active(a) + Active(b) + Active(c)
  {
    ActiveConcat(a + b, c);
    ActiveConcat(a, b);
  }

  lemma ActiveSingle<V, E>(slot: Slot<V, E>)
    ensures Active([slot]) == if slot.Some? then [slot.value] else []
  {
    assert [slot][..0] == [];
  }

  /** Ejecting a registered handler removes it from the visit order and leaves the others in
      their order. */
  lemma EjectRemovesFromActive<V, E>(slots: seq<Slot<V, E>>, id: nat)
    requires id < |slots| && slots[id].Some?
    ensures Active(slots) == Active(slots[..id]) + [slots[id].value] + Active(slots[id + 1..])
    ensures Active(EjectSlot(slots, id)) == Active(slots[..id]) + Active(slots[id + 1..])
  {
    ActiveSplit(slots, id);
    ActiveSingle(slots[id]);
    ActiveAfterEject(slots, id);
  }

  lemma ActiveAfterEject<V, E>(slots: seq<Slot<V, E>>, id: nat)
    requires id < |slots|
    ensures Active(slots[id := None]) == Active(slots[..id]) + Active(slots[id + 1..])
  {
    var after := slots[id := None];
    ActiveSplit(after, id);
    assert after[..id] == slots[..id];
    assert after[id + 1..] == slots[id + 1..];
    ActiveSingle(after[id]);
  }

  /** After `clear`, the next registration gets id 0 again. */
  method ClearRestartsIds<V, E>(m: InterceptorManager<V, E>, h: Handler<V, E>) returns (id: nat)
    modifies m
    ensures id == 0 && m.handlers == [Some(h)]
  {
    m.Clear();
    id := m.Use(h.fulfilled, h.rejected);
  }

  /** Handlers registered one after another get the ids 0, 1, 2, … in registration order. */
  method UseInOrder<V, E>(m: InterceptorManager<V, E>, a: Handler<V, E>, b: Handler<V, E>) returns (i: nat, j: nat)
    modifies m
    ensures i == |old(m.handlers)| && j == i + 1
    ensures m.handlers == old(m.handlers) + [Some(a), Some(b)]
  {
    i := m.Use(a.fulfilled, a.rejected);
    j := m.Use(b.fulfilled, b.rejected);
  }

  lemma {:induction false} ChainConcat<V, E>(start: Outcome<V, E>, a: seq<Handler<V, E>>, b: seq<Handler<V, E>>)
    ensures Chain(start, a + b) == Chain(Chain(start, a), b)
    decreases |b|
  {
    if b == [] {
      assert a + b == a;
    } else {
      assert (a + b)[..|a + b| - 1] == a + b[..|b| - 1];
      ChainConcat(start, a, b[..|b| - 1]);
    }
  }

  /** A rejection that meets no rejection handler reaches the end unchanged. */
  lemma {:induction false} ErrorPassesThrough<V, E>(e: E, hs: seq<Handler<V, E>>)
    requires forall i :: 0 <= i < |hs| ==> hs[i].rejected.None?
    ensures Chain(Err(e), hs) == Err(e)
  {
    if hs != [] {
      ErrorPassesThrough(e, hs[..|hs| - 1]);
    }
  }

  /** A value that meets no fulfilment handler reaches the end unchanged. */
  lemma {:induction false} ValuePassesThrough<V, E>(v: V, hs: seq<Handler<V, E>>)
    requires forall i :: 0 <= i < |hs| ==> hs[i].fulfilled.None?
    ensures Chain(Ok(v), hs) == Ok(v)
  {
    if hs != [] {
      ValuePassesThrough(v, hs[..|hs| - 1]);
    }
  }

  /** A rejection handler that returns a value recovers the chain: the following handlers see
      a fulfilled promise. */
  lemma Recovery<V, E>(start: Outcome<V, E>, before: seq<Handler<V, E>>, h: Handler<V, E>, after: seq<Handler<V, E>>, e: E, v: V)
    requires Chain(start, before) == Err(e) && h.rejected.Some? && h.rejected.value(e) == Ok(v)
    ensures Chain(start, before + [h] + after) == Chain(Ok(v), after)
  {
    ChainConcat(start, before + [h], after);
    ChainConcat(start, before, [h]);
    assert Chain(Chain(start, before), [h]) == Then(Chain(Chain(start, before), []), h);
  }
}
