/**
 * What the module's factory function sets up for one serial port: the
 * handler array, the parser's closure state and the handlers' one-shot
 * "message" listeners. `addHandler`, the parser callback and `receive` are
 * the methods that change it; `getHandler` is `Registry.GetHandler` on
 * `handlers`.
 */
module SerialMessages {
  import opened Wrappers
  import opened Handlers
  import opened Registry
  import opened Framing
  import opened Waiters

  class Session {
    /** Which of the two parsers this session runs. */
    const variant: Variant
    /** `message_handlers`. */
    var handlers: Registry
    /** Number of handlers constructed so far; the next handler's identity. */
    var registered: nat
    /** The parser's closure variables `data`, `length` and `messageHandler`. */
    var data: seq<byte>
    var length: int
    var active: Option<Handler>
    /** The one-shot listeners added through `receive()`, and the promises they resolved. */
    var pending: Pending
    var tickets: nat
    /** Every event emitted on a handler so far, in order, with the dropped identifier bytes. */
    ghost var trace: seq<Event>
    /** The handler objects `addHandler` has returned, indexed by their serial. */
    ghost var issued: seq<Handler>

    function State(): FramerState
      reads this
    {
      FramerState(data, length, active)
    }

    ghost predicate Valid()
      reads this
    {
      && Settled(State())
      && KeyedById(handlers)
      && TicketsBelow(pending, tickets)
      && |issued| == registered
      && (forall i :: 0 <= i < |issued| ==> issued[i].serial == i)
    }

    /** The factory's initial state: no handlers, empty buffer, awaiting an identifier byte. */
    constructor (variant: Variant)
      ensures Valid() && this.variant == variant
      ensures handlers == map[] && registered == 0 && State() == Idle()
      ensures pending == Pending([], map[]) && tickets == 0 && trace == [] && issued == []
    {
      this.variant := variant;
      handlers := map[];
      registered := 0;
      data := [];
      length := IdBytes;
      active := None;
      pending := Pending([], map[]);
      tickets := 0;
      trace := [];
      issued := [];
    }

    /** `addHandler`: construct the handler (or fail as the constructor throws) and store it under its identifier. */
    method AddHandler(info: Info) returns (r: Result<Handler, RangeError>)
      requires Valid()
      modifies this
      ensures Valid()
      ensures r == MakeHandler(info, old(registered))
      ensures r.Success? ==> handlers == Register(old(handlers), r.value) && registered == old(registered) + 1
      ensures r.Success? ==> issued == old(issued) + [r.value]
      ensures r.Failure? ==> handlers == old(handlers) && registered == old(registered) && issued == old(issued)
      ensures LengthsPositive(old(handlers)) && (info.length.None? || info.length.value >= 0) ==> LengthsPositive(handlers)
      ensures State() == old(State()) && pending == old(pending) && tickets == old(tickets) && trace == old(trace)
    {
      r := MakeHandler(info, registered);
      if r.Success? {
        handlers := handlers[r.value.id := r.value];
        registered := registered + 1;
        issued := issued + [r.value];
      }
    }

    /**
     * The parser callback for one chunk: append it, then slice off `length`
     * bytes at a time while enough are buffered. The result is the parser
     * specification `Frame`; the emitted "message" events resolve the pending
     * listeners of their handlers.
     */
    method Feed(chunk: seq<byte>)
      requires Valid() && LengthsPositive(handlers)
      modifies this
      ensures Valid()
      ensures handlers == old(handlers) && registered == old(registered) && tickets == old(tickets)
      ensures issued == old(issued)
      ensures var r := Frame(variant, handlers, old(State()), chunk);
              State() == r.state && trace == old(trace) + r.events && pending == NotifyAll(old(pending), r.events)
    {
      ghost var goal := Frame(variant, handlers, State(), chunk);
      ghost var emitted: seq<Event> := [];
      data := data + chunk;
      while |data| >= length
        invariant Inv(State())
        invariant handlers == old(handlers) && registered == old(registered) && tickets == old(tickets)
        invariant issued == old(issued)
        invariant var r := Drain(variant, handlers, State()); Run(r.state, emitted + r.events) == goal
        invariant trace == old(trace) + emitted
        invariant pending == NotifyAll(old(pending), emitted)
        decreases |data|
      {
        ghost var before := State();
        ghost var step := Step(variant, handlers, before).events;
        NotifyAllAppend(old(pending), emitted, step);
        DrainProgress(variant, handlers, before, emitted, goal);
        Advance();
        emitted := emitted + step;
      }
      assert Drain(variant, handlers, State()) == Run(State(), []);
      assert emitted == goal.events;
      NotifyAllKeepsTickets(old(pending), emitted, tickets);
    }

    /** One turn of the parser's loop: slice off `length` bytes, then look up an identifier or emit a payload. */
    method Advance()
      requires Inv(State()) && LengthsPositive(handlers) && |data| >= length
      modifies this
      ensures handlers == old(handlers) && registered == old(registered) && tickets == old(tickets)
      ensures issued == old(issued)
      ensures var s := Step(variant, handlers, old(State()));
              State() == s.state && trace == old(trace) + s.events && pending == NotifyAll(old(pending), s.events)
    {
      var out := data[..length];
      data := data[length..];
      if active.None? {
        active := GetHandler(handlers, out[0] as int);
        if active.Some? {
          length := active.value.length;
          trace := trace + [Data(active.value, out)];
          NotifyOne(pending, Data(active.value, out));
        } else {
          trace := trace + [Dropped(out[0])];
          NotifyOne(pending, Dropped(out[0]));
        }
      } else {
        var h := active.value;
        var message := Message(h, MessageValueOf(variant, out, h));
        NotifyPair(pending, message, Data(h, out));
        pending := Notify(pending, message);
        trace := trace + [message, Data(h, out)];
        length := IdBytes;
        active := None;
      }
    }

    /**
     * Calling the thunk that `h.receive()` returns: one more one-shot "message"
     * listener on `h`. The listener is keyed by `h.serial`, which names `h`
     * only among the handlers this session issued.
     */
    method Receive(h: Handler) returns (ticket: nat)
      requires Valid() && h in issued
      modifies this
      ensures Valid()
      ensures ticket == old(tickets) && tickets == old(tickets) + 1
      ensures pending == Pending(old(pending.waiting) + [Waiter(ticket, h.serial)], old(pending.resolved))
      ensures handlers == old(handlers) && registered == old(registered) && issued == old(issued)
      ensures State() == old(State()) && trace == old(trace)
    {
      ticket := tickets;
      pending := Pending(pending.waiting + [Waiter(ticket, h.serial)], pending.resolved);
      tickets := tickets + 1;
    }
  }

  /** The example driver's setup: handlers 'a'/4 and 'b'/5, then one `receive()` on each. */
  method ExampleSetup() returns (s: Session, a: Handler, b: Handler, ta: nat, tb: nat)
    ensures fresh(s) && s.Valid() && s.variant == Current && s.State() == Idle()
    ensures LengthsPositive(s.handlers)
    ensures GetHandler(s.handlers, 0x61) == Some(a) && GetHandler(s.handlers, 0x62) == Some(b)
    ensures a.length == 4 && b.length == 5 && a.serial == 0 && b.serial == 1
    ensures s.pending == Pending([Waiter(ta, a.serial), Waiter(tb, b.serial)], map[])
  {
    s := new Session(Current);
    var ra := s.AddHandler(Info(Some(0x61), Some("'a' handler"), Some(4)));
    var rb := s.AddHandler(Info(Some(0x62), Some("'b' handler"), Some(5)));
    a, b := ra.value, rb.value;
    assert s.issued == [a, b];
    ta := s.Receive(a);
    tb := s.Receive(b);
  }

  /**
   * The handlers of the example driver through one session: a `receive()` on
   * 'a' and one on 'b', then "atestbh" and "ello" in two chunks. The first
   * chunk resolves 'a' with "test" and leaves 'b' pending on a partial
   * payload; the second completes "hello" and resolves 'b'. Unlike the
   * driver, which calls the 'b' thunk only after 'a' has resolved, both
   * listeners are added here before any byte arrives.
   */
  method ExampleSession()
  {
    var s, a, b, ta, tb := ExampleSetup();
    ghost var p0 := s.pending;
    var test: seq<byte> := [0x74, 0x65, 0x73, 0x74];
    var hello: seq<byte> := [0x68, 0x65, 0x6C, 0x6C, 0x6F];
    SplitExampleStream(Current, s.handlers, a, b);
    ghost var first := Frame(Current, s.handlers, Idle(), [0x61, 0x74, 0x65, 0x73, 0x74, 0x62, 0x68]).events;

    s.Feed([0x61, 0x74, 0x65, 0x73, 0x74, 0x62, 0x68]);
    ResolvedByNextMessage(p0, first, Waiter(ta, a.serial), 1);
    PendingWithoutMessage(p0, first, Waiter(tb, b.serial));
    assert s.pending.resolved[ta] == Record(test, a);
    assert tb !in s.pending.resolved;

    ghost var p1 := s.pending;
    ghost var second := Frame(Current, s.handlers, s.State(), [0x65, 0x6C, 0x6C, 0x6F]).events;
    NotifyAllShrinks(p0, first);
    ResolvedStays(p1, second, ta);
    s.Feed([0x65, 0x6C, 0x6C, 0x6F]);
    ResolvedByNextMessage(p1, second, Waiter(tb, b.serial), 0);
    assert s.pending.resolved[tb] == Record(hello, b);
    assert s.pending.resolved[ta] == Record(test, a);
  }
}
