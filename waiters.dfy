/**
 * `receive()`: each call of the thunk it returns adds a one-shot "message"
 * listener (`once`) on that handler, resolved by the next "message" the
 * handler emits and then removed. A node event emitter calls every listener
 * registered for an event, so one message resolves all listeners pending on
 * that handler at once.
 */
module Waiters {
  import opened Handlers
  import opened Framing

  /** A pending promise: `ticket` names it, `serial` is the handler it listens on. */
  datatype Waiter = Waiter(ticket: nat, serial: nat)

  /** The listeners still waiting, in registration order, and the promises already resolved. */
  datatype Pending = Pending(waiting: seq<Waiter>, resolved: map<nat, MessageValue>)

  /** No two pending listeners share a ticket. */
  predicate UniqueTickets(ws: seq<Waiter>)
  {
    forall w1, w2 :: w1 in ws && w2 in ws && w1.ticket == w2.ticket ==> w1 == w2
  }

  /**
   * Every ticket handed out so far is below `n`, pending tickets are distinct,
   * and no pending listener's promise is already resolved.
   */
  predicate TicketsBelow(p: Pending, n: nat)
  {
    && UniqueTickets(p.waiting)
    && (forall w :: w in p.waiting ==> w.ticket < n && w.ticket !in p.resolved)
    && (forall t :: t in p.resolved ==> t < n)
  }

  /** Some listener of `ws` on handler `serial` holds ticket `t`. */
  predicate Wakes(ws: seq<Waiter>, serial: nat, t: nat)
  {
    exists w :: w in ws && w.serial == serial && w.ticket == t
  }

  /** Handler `serial` emits "message" with `value`: its listeners resolve and leave, the others stay pending. */
  function Wake(ws: seq<Waiter>, serial: nat, value: MessageValue, resolved: map<nat, MessageValue>): (r: Pending)
    ensures forall w :: w in r.waiting <==> w in ws && w.serial != serial
    ensures forall w :: w in ws && w.serial == serial ==> w.ticket in r.resolved && r.resolved[w.ticket] == value
    ensures forall t :: t in resolved && !Wakes(ws, serial, t) ==> t in r.resolved && r.resolved[t] == resolved[t]
    ensures forall t :: t in r.resolved ==> t in resolved || Wakes(ws, serial, t)
    decreases |ws|
  {
    if ws == [] then Pending([], resolved)
    else
      var r := Wake(ws[1..], serial, value, resolved);
      assert forall w :: w in ws <==> w == ws[0] || w in ws[1..];
      if ws[0].serial == serial then Pending(r.waiting, r.resolved[ws[0].ticket := value])
      else Pending([ws[0]] + r.waiting, r.resolved)
  }

  /** Delivery of one trace entry to the listeners: only "message" events resolve anything. */
  function Notify(p: Pending, e: Event): Pending
  {
    if e.Message? then Wake(p.waiting, e.handler.serial, e.value, p.resolved) else p
  }

  function NotifyAll(p: Pending, events: seq<Event>): Pending
    decreases |events|
  {
    if events == [] then p else NotifyAll(Notify(p, events[0]), events[1..])
  }

  /** A message event for handler `serial`. */
  predicate MessageFor(e: Event, serial: nat)
  {
    e.Message? && e.handler.serial == serial
  }

  /** Delivering the one event of an identifier turn of the parser. */
  lemma NotifyOne(p: Pending, e: Event)
    ensures NotifyAll(p, [e]) == Notify(p, e)
  {
    assert [e][1..] == [];
  }

  /** Delivering the two events of a payload turn of the parser. */
  lemma NotifyPair(p: Pending, e1: Event, e2: Event)
    ensures NotifyAll(p, [e1, e2]) == Notify(Notify(p, e1), e2)
  {
    assert [e1, e2][1..] == [e2];
    assert NotifyAll(p, [e1, e2]) == NotifyAll(Notify(p, e1), [e2]);
    NotifyOne(Notify(p, e1), e2);
  }

  lemma {:induction false} NotifyAllAppend(p: Pending, a: seq<Event>, b: seq<Event>)
    ensures NotifyAll(p, a + b) == NotifyAll(NotifyAll(p, a), b)
    decreases |a|
  {
    if a == [] {
      assert a + b == b;
    } else {
      assert (a + b)[0] == a[0] && (a + b)[1..] == a[1..] + b;
      NotifyAllAppend(Notify(p, a[0]), a[1..], b);
    }
  }

  /** Delivery never adds listeners and resolves only tickets that were pending. */
  lemma {:induction false} NotifyAllShrinks(p: Pending, events: seq<Event>)
    ensures var q := NotifyAll(p, events);
            (forall w :: w in q.waiting ==> w in p.waiting) &&
            (forall t :: t in q.resolved ==> t in p.resolved || exists w :: w in p.waiting && w.ticket == t)
    decreases |events|
  {
    if events != [] {
      var p1 := Notify(p, events[0]);
      NotifyAllShrinks(p1, events[1..]);
    }
  }

  /** Delivery keeps the ticket discipline: no listener still pending has a resolved promise. */
  lemma {:induction false} NotifyAllKeepsTickets(p: Pending, events: seq<Event>, n: nat)
    requires TicketsBelow(p, n)
    ensures TicketsBelow(NotifyAll(p, events), n)
    decreases |events|
  {
    if events != [] {
      NotifyAllKeepsTickets(Notify(p, events[0]), events[1..], n);
    }
  }

  /** A ticket nobody waits on any more keeps the value it was resolved with. */
  lemma {:induction false} ResolvedStays(p: Pending, events: seq<Event>, t: nat)
    requires t in p.resolved && forall w :: w in p.waiting ==> w.ticket != t
    ensures var q := NotifyAll(p, events);
            t in q.resolved && q.resolved[t] == p.resolved[t] && forall w :: w in q.waiting ==> w.ticket != t
    decreases |events|
  {
    if events != [] {
      ResolvedStays(Notify(p, events[0]), events[1..], t);
    }
  }

  /**
   * One-shot consumption: a pending listener on handler `w.serial` resolves with
   * the first "message" that handler emits, is removed, and keeps that value
   * whatever comes later.
   */
  lemma {:induction false} ResolvedByNextMessage(p: Pending, events: seq<Event>, w: Waiter, i: nat)
    requires w in p.waiting && UniqueTickets(p.waiting)
    requires i < |events| && MessageFor(events[i], w.serial)
    requires forall j :: 0 <= j < i ==> !MessageFor(events[j], w.serial)
    ensures var q := NotifyAll(p, events);
            w !in q.waiting && w.ticket in q.resolved && q.resolved[w.ticket] == events[i].value
    decreases i
  {
    var p1 := Notify(p, events[0]);
    if i == 0 {
      assert forall x :: x in p1.waiting ==> x.ticket != w.ticket;
      ResolvedStays(p1, events[1..], w.ticket);
    } else {
      assert !MessageFor(events[0], w.serial);
      assert w in p1.waiting;
      assert forall j :: 0 <= j < i - 1 ==> events[1..][j] == events[j + 1];
      ResolvedByNextMessage(p1, events[1..], w, i - 1);
    }
  }

  /** Without a "message" from its handler, a listener stays pending and its promise unresolved. */
  lemma {:induction false} PendingWithoutMessage(p: Pending, events: seq<Event>, w: Waiter)
    requires w in p.waiting && UniqueTickets(p.waiting) && w.ticket !in p.resolved
    requires forall j :: 0 <= j < |events| ==> !MessageFor(events[j], w.serial)
    ensures var q := NotifyAll(p, events); w in q.waiting && w.ticket !in q.resolved
    decreases |events|
  {
    if events != [] {
      var p1 := Notify(p, events[0]);
      assert !MessageFor(events[0], w.serial);
      assert w in p1.waiting && w.ticket !in p1.resolved;
      PendingWithoutMessage(p1, events[1..], w);
    }
  }
}
