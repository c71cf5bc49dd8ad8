/**
 * The variable-length message parser as a specification: the closure state
 * (`data`, `length`, `messageHandler`), one turn of its `while` loop (`Step`),
 * the loop run to exhaustion (`Drain`) and one parser call (`Frame`).
 */
module Framing {
  import opened Wrappers
  import opened Handlers
  import opened Registry

  /** Which of the two parsers: `Current` emits `{data, messageHandler}` as the "message", `Legacy` the raw slice. */
  datatype Variant = Current | Legacy

  /** What a "message" listener receives. */
  datatype MessageValue = Record(data: seq<byte>, handler: Handler) | Raw(data: seq<byte>)

  /**
   * One entry of the ordered emission trace. `Data` and `Message` are events
   * emitted on `handler`; `Dropped` is a model-only record of an identifier byte
   * that matched no handler and was consumed without any emission.
   */
  datatype Event =
    | Data(handler: Handler, slice: seq<byte>)
    | Message(handler: Handler, value: MessageValue)
    | Dropped(id: byte)

  /** The closure variables: accumulation buffer, expected length and active handler. */
  datatype FramerState = FramerState(data: seq<byte>, length: int, active: Option<Handler>)

  /** A final state together with the events emitted on the way there. */
  datatype Run = Run(state: FramerState, events: seq<Event>)

  /** The state the closure starts in: empty buffer, awaiting one identifier byte. */
  function Idle(): FramerState
  {
    FramerState([], IdBytes, None)
  }

  /** The state right after the identifier of `h` was read: awaiting its payload. */
  function Awaiting(h: Handler): FramerState
  {
    FramerState([], h.length, Some(h))
  }

  /**
   * The framer's state invariant: awaiting an identifier means expecting
   * `IdBytes` bytes, awaiting a payload means expecting the length of the
   * handler that was captured when its identifier was read.
   */
  predicate Inv(st: FramerState)
  {
    && st.length >= 1
    && (st.active.None? ==> st.length == IdBytes)
    && (st.active.Some? ==> st.length == st.active.value.length)
  }

  /** The invariant at the end of a parser call: fewer than `length` bytes remain. */
  predicate Settled(st: FramerState)
  {
    Inv(st) && |st.data| < st.length
  }

  /** The "message" value each variant emits for payload `out` on handler `h`. */
  function MessageValueOf(v: Variant, out: seq<byte>, h: Handler): (m: MessageValue)
    ensures m.data == out
    ensures m.Record? <==> v == Current
    ensures m.Record? ==> m.handler == h
  {
    match v
    case Current => Record(out, h)
    case Legacy => Raw(out)
  }

  /** One iteration of the parser's loop: slice off `length` bytes and act on them. */
  function Step(v: Variant, reg: Registry, st: FramerState): (r: Run)
    requires Inv(st) && LengthsPositive(reg) && |st.data| >= st.length
    ensures Inv(r.state)
    ensures r.state.data == st.data[st.length..]
  {
    var out := st.data[..st.length];
    var rest := st.data[st.length..];
    match st.active
    case None =>
      (match GetHandler(reg, out[0] as int)
       case None => Run(FramerState(rest, st.length, None), [Dropped(out[0])])
       case Some(h) => Run(FramerState(rest, h.length, Some(h)), [Data(h, out)]))
    case Some(h) =>
      Run(FramerState(rest, IdBytes, None), [Message(h, MessageValueOf(v, out, h)), Data(h, out)])
  }

  /** The parser's loop: step while at least `length` bytes are buffered. */
  function Drain(v: Variant, reg: Registry, st: FramerState): (r: Run)
    requires Inv(st) && LengthsPositive(reg)
    ensures Settled(r.state)
    ensures |r.state.data| <= |st.data|
    decreases |st.data|
  {
    if |st.data| < st.length then Run(st, [])
    else
      var s := Step(v, reg, st);
      var r := Drain(v, reg, s.state);
      Run(r.state, s.events + r.events)
  }

  /** One parser call: append the chunk, then run the loop. */
  function Frame(v: Variant, reg: Registry, st: FramerState, chunk: seq<byte>): (r: Run)
    requires Inv(st) && LengthsPositive(reg)
    ensures Settled(r.state)
    ensures |r.state.data| <= |st.data| + |chunk|
  {
    Drain(v, reg, st.(data := st.data + chunk))
  }

  /** Parser calls on the chunks in order, each starting where the previous one stopped. */
  function FrameAll(v: Variant, reg: Registry, st: FramerState, chunks: seq<seq<byte>>): (r: Run)
    requires Inv(st) && LengthsPositive(reg)
    ensures Settled(r.state) || (chunks == [] && r.state == st)
    decreases |chunks|
  {
    if chunks == [] then Run(st, [])
    else
      var r1 := Frame(v, reg, st, chunks[0]);
      var r2 := FrameAll(v, reg, r1.state, chunks[1..]);
      Run(r2.state, r1.events + r2.events)
  }

  function Concat(chunks: seq<seq<byte>>): seq<byte>
  {
    if chunks == [] then [] else chunks[0] + Concat(chunks[1..])
  }

  /** The bytes an event accounts for: `Data` slices and dropped identifiers ("message" repeats the following "data"). */
  function Consumed(events: seq<Event>): seq<byte>
  {
    if events == [] then []
    else
      (match events[0]
       case Data(_, s) => s
       case Dropped(b) => [b]
       case Message(_, _) => []) + Consumed(events[1..])
  }

  lemma {:induction false} ConsumedAppend(a: seq<Event>, b: seq<Event>)
    ensures Consumed(a + b) == Consumed(a) + Consumed(b)
    decreases |a|
  {
    if a == [] {
      assert a + b == b;
    } else {
      assert (a + b)[1..] == a[1..] + b;
      ConsumedAppend(a[1..], b);
    }
  }

  /** One turn of the loop, when enough bytes are buffered. */
  lemma DrainUnfold(v: Variant, reg: Registry, st: FramerState)
    requires Inv(st) && LengthsPositive(reg) && |st.data| >= st.length
    ensures var s := Step(v, reg, st);
            var r := Drain(v, reg, s.state);
            Drain(v, reg, st) == Run(r.state, s.events + r.events)
  {
  }

  /** What a loop that has emitted `emitted` so far still owes stays the same after one more turn. */
  lemma DrainProgress(v: Variant, reg: Registry, st: FramerState, emitted: seq<Event>, goal: Run)
    requires Inv(st) && LengthsPositive(reg) && |st.data| >= st.length
    requires var r := Drain(v, reg, st); Run(r.state, emitted + r.events) == goal
    ensures var s := Step(v, reg, st);
            var r := Drain(v, reg, s.state);
            Run(r.state, (emitted + s.events) + r.events) == goal
  {
    var s := Step(v, reg, st);
    var r := Drain(v, reg, s.state);
    DrainUnfold(v, reg, st);
    assert (emitted + s.events) + r.events == emitted + (s.events + r.events);
  }

  /** Two accounts of consecutive stretches of the buffer make one account of the whole. */
  lemma ConsumedCompose(e1: seq<Event>, rest1: seq<byte>, e2: seq<Event>, rest2: seq<byte>, whole: seq<byte>)
    requires Consumed(e1) + rest1 == whole && Consumed(e2) + rest2 == rest1
    ensures Consumed(e1 + e2) + rest2 == whole
  {
    ConsumedAppend(e1, e2);
    assert Consumed(e1 + e2) + rest2 == Consumed(e1) + (Consumed(e2) + rest2);
  }

  /** A step looks only at the first `length` bytes, so bytes appended behind them ride along. */
  lemma StepAppend(v: Variant, reg: Registry, st: FramerState, b: seq<byte>)
    requires Inv(st) && LengthsPositive(reg) && |st.data| >= st.length
    ensures var s := Step(v, reg, st);
            Step(v, reg, st.(data := st.data + b)) == Run(s.state.(data := s.state.data + b), s.events)
  {
    var st' := st.(data := st.data + b);
    assert st'.data[..st.length] == st.data[..st.length];
    assert st'.data[st.length..] == st.data[st.length..] + b;
  }

  /** Appending bytes to the buffer only appends them to the residue of the loop. */
  lemma {:induction false} DrainAppend(v: Variant, reg: Registry, st: FramerState, b: seq<byte>)
    requires Inv(st) && LengthsPositive(reg)
    ensures var r := Drain(v, reg, st);
            var r2 := Drain(v, reg, r.state.(data := r.state.data + b));
            Drain(v, reg, st.(data := st.data + b)) == Run(r2.state, r.events + r2.events)
    decreases |st.data|
  {
    var st' := st.(data := st.data + b);
    if |st.data| < st.length {
      assert Drain(v, reg, st) == Run(st, []);
      assert [] + Drain(v, reg, st').events == Drain(v, reg, st').events;
    } else {
      var s := Step(v, reg, st);
      var s' := s.state.(data := s.state.data + b);
      var r1 := Drain(v, reg, s.state);
      var r2 := Drain(v, reg, r1.state.(data := r1.state.data + b));
      assert Drain(v, reg, st') == Run(Drain(v, reg, s').state, s.events + Drain(v, reg, s').events) by {
        StepAppend(v, reg, st, b);
        DrainUnfold(v, reg, st');
      }
      assert Drain(v, reg, st) == Run(r1.state, s.events + r1.events) by {
        DrainUnfold(v, reg, st);
      }
      assert Drain(v, reg, s') == Run(r2.state, r1.events + r2.events) by {
        DrainAppend(v, reg, s.state, b);
      }
      assert s.events + (r1.events + r2.events) == (s.events + r1.events) + r2.events;
    }
  }

  /** Splitting one chunk in two changes neither the final state nor the emitted events. */
  lemma ChunkSplit(v: Variant, reg: Registry, st: FramerState, a: seq<byte>, b: seq<byte>)
    requires Inv(st) && LengthsPositive(reg)
    ensures var r1 := Frame(v, reg, st, a);
            var r2 := Frame(v, reg, r1.state, b);
            Frame(v, reg, st, a + b) == Run(r2.state, r1.events + r2.events)
  {
    var sa := st.(data := st.data + a);
    assert st.data + (a + b) == sa.data + b;
    DrainAppend(v, reg, sa, b);
  }

  /** Chunking invariance: any split of a stream into chunks frames exactly as the whole stream. */
  lemma {:induction false} ChunkingInvariance(v: Variant, reg: Registry, st: FramerState, chunks: seq<seq<byte>>)
    requires Settled(st) && LengthsPositive(reg)
    ensures FrameAll(v, reg, st, chunks) == Frame(v, reg, st, Concat(chunks))
    decreases |chunks|
  {
    if chunks == [] {
      assert st.(data := st.data + []) == st;
    } else {
      ChunkSplit(v, reg, st, chunks[0], Concat(chunks[1..]));
      ChunkingInvariance(v, reg, Frame(v, reg, st, chunks[0]).state, chunks[1..]);
    }
  }

  /** One step accounts for exactly the bytes it slices off. */
  lemma StepConserves(v: Variant, reg: Registry, st: FramerState)
    requires Inv(st) && LengthsPositive(reg) && |st.data| >= st.length
    ensures var s := Step(v, reg, st); Consumed(s.events) + s.state.data == st.data
  {
    var s := Step(v, reg, st);
    var out := st.data[..st.length];
    match st.active
    case None =>
      assert out == [out[0]];
      assert Consumed(s.events) == out + Consumed([]);
    case Some(h) =>
      assert s.events[1..] == [Data(h, out)];
      assert Consumed(s.events[1..]) == out + Consumed([]);
    assert st.data == out + s.state.data;
  }

  /** Every buffered byte is dropped, emitted in exactly one "data" slice, or left over, in stream order. */
  lemma {:induction false} DrainConserves(v: Variant, reg: Registry, st: FramerState)
    requires Inv(st) && LengthsPositive(reg)
    ensures var r := Drain(v, reg, st); Consumed(r.events) + r.state.data == st.data
    decreases |st.data|
  {
    if |st.data| >= st.length {
      var s := Step(v, reg, st);
      var r := Drain(v, reg, s.state);
      StepConserves(v, reg, st);
      DrainConserves(v, reg, s.state);
      DrainUnfold(v, reg, st);
      ConsumedCompose(s.events, s.state.data, r.events, r.state.data, st.data);
    }
  }

  /** Byte conservation for one parser call. */
  lemma ByteConservation(v: Variant, reg: Registry, st: FramerState, chunk: seq<byte>)
    requires Inv(st) && LengthsPositive(reg)
    ensures var r := Frame(v, reg, st, chunk); Consumed(r.events) + r.state.data == st.data + chunk
  {
    DrainConserves(v, reg, st.(data := st.data + chunk));
  }

  /** An identifier byte with no handler is consumed silently and the framer stays awaiting an identifier. */
  lemma UnknownIdDropped(v: Variant, reg: Registry, b: byte, rest: seq<byte>)
    requires LengthsPositive(reg) && GetHandler(reg, b as int) == None
    ensures var r := Frame(v, reg, Idle(), rest);
            Frame(v, reg, Idle(), [b] + rest) == Run(r.state, [Dropped(b)] + r.events)
  {
    var s0 := FramerState([b] + rest, IdBytes, None);
    assert Idle().(data := Idle().data + ([b] + rest)) == s0;
    assert s0.data[..1] == [b] && s0.data[1..] == rest;
    assert Step(v, reg, s0) == Run(FramerState(rest, IdBytes, None), [Dropped(b)]);
    assert Idle().(data := Idle().data + rest) == FramerState(rest, IdBytes, None);
  }

  /** An identifier byte of a handler makes it the active one and emits "data" with that byte. */
  lemma IdentifierCaptures(v: Variant, reg: Registry, h: Handler, b: byte, rest: seq<byte>)
    requires LengthsPositive(reg) && GetHandler(reg, b as int) == Some(h)
    ensures var r := Frame(v, reg, Awaiting(h), rest);
            Frame(v, reg, Idle(), [b] + rest) == Run(r.state, [Data(h, [b])] + r.events)
  {
    var s0 := FramerState([b] + rest, IdBytes, None);
    assert Idle().(data := Idle().data + ([b] + rest)) == s0;
    assert s0.data[..1] == [b] && s0.data[1..] == rest;
    assert Step(v, reg, s0) == Run(FramerState(rest, h.length, Some(h)), [Data(h, [b])]);
    assert Awaiting(h).(data := Awaiting(h).data + rest) == FramerState(rest, h.length, Some(h));
  }

  /**
   * A complete payload goes to the handler captured when its identifier was
   * read, whatever the registry says now: "message", then "data", then the
   * framer is back to awaiting an identifier.
   */
  lemma PayloadDelivered(v: Variant, reg: Registry, h: Handler, p: seq<byte>, rest: seq<byte>)
    requires LengthsPositive(reg) && h.length >= 1 && |p| == h.length
    ensures var r := Frame(v, reg, Idle(), rest);
            Frame(v, reg, Awaiting(h), p + rest) == Run(r.state, [Message(h, MessageValueOf(v, p, h)), Data(h, p)] + r.events)
  {
    var s1 := FramerState(p + rest, h.length, Some(h));
    assert Awaiting(h).(data := Awaiting(h).data + (p + rest)) == s1;
    assert s1.data[..h.length] == p && s1.data[h.length..] == rest;
    assert Step(v, reg, s1) == Run(FramerState(rest, IdBytes, None), [Message(h, MessageValueOf(v, p, h)), Data(h, p)]);
    assert Idle().(data := Idle().data + rest) == FramerState(rest, IdBytes, None);
  }

  /** The whole message `id p1..pn`: "data" with the id, "message" with the payload, "data" with the payload. */
  lemma CompleteMessage(v: Variant, reg: Registry, h: Handler, b: byte, p: seq<byte>, rest: seq<byte>)
    requires LengthsPositive(reg) && GetHandler(reg, b as int) == Some(h) && |p| == h.length
    ensures var r := Frame(v, reg, Idle(), rest);
            Frame(v, reg, Idle(), [b] + p + rest)
              == Run(r.state, [Data(h, [b]), Message(h, MessageValueOf(v, p, h)), Data(h, p)] + r.events)
  {
    assert [b] + p + rest == [b] + (p + rest);
    IdentifierCaptures(v, reg, h, b, p + rest);
    PayloadDelivered(v, reg, h, p, rest);
  }

  /** Fewer payload bytes than declared: nothing beyond the identifier's "data" until more bytes arrive. */
  lemma PartialMessageStalls(v: Variant, reg: Registry, h: Handler, b: byte, p: seq<byte>)
    requires LengthsPositive(reg) && GetHandler(reg, b as int) == Some(h) && |p| < h.length
    ensures Frame(v, reg, Idle(), [b] + p) == Run(FramerState(p, h.length, Some(h)), [Data(h, [b])])
  {
    IdentifierCaptures(v, reg, h, b, p);
    assert Awaiting(h).(data := Awaiting(h).data + p) == FramerState(p, h.length, Some(h));
  }

  /** After a re-registration, messages with that identifier go to the new handler only. */
  lemma ReplacementRoutesToNewest(v: Variant, reg: Registry, h: Handler, p: seq<byte>, rest: seq<byte>)
    requires LengthsPositive(reg) && h.length >= 1 && 0 <= h.id < IdLimit && |p| == h.length
    ensures var reg' := Register(reg, h);
            var r := Frame(v, reg', Idle(), [h.id as byte] + p + rest);
            |r.events| >= 3 && r.events[..3] == [Data(h, [h.id as byte]), Message(h, MessageValueOf(v, p, h)), Data(h, p)]
  {
    CompleteMessage(v, Register(reg, h), h, h.id as byte, p, rest);
  }

  /** A handler registered under 256, which the unfixed range check admits, never receives anything. */
  lemma {:induction false} UnaddressableHandlerNeverFires(v: Variant, input: seq<byte>)
    ensures var h := MakeHandlerAsWritten(Info(Some(IdLimit), None, None), 0);
            h.Success? &&
            forall e :: e in Frame(v, Register(map[], h.value), Idle(), input).events ==> e.Dropped?
    decreases |input|
  {
    var h := MakeHandlerAsWritten(Info(Some(IdLimit), None, None), 0).value;
    var reg := Register(map[], h);
    if input == [] {
      assert Idle().(data := Idle().data + []) == Idle();
    } else {
      assert GetHandler(reg, input[0] as int) == None;
      assert input == [input[0]] + input[1..];
      UnknownIdDropped(v, reg, input[0], input[1..]);
      UnaddressableHandlerNeverFires(v, input[1..]);
    }
  }

  /** An event emitted on handler `h`, as opposed to a dropped identifier. */
  predicate EmittedOn(e: Event, h: Handler)
  {
    !e.Dropped? && e.handler == h
  }

  /**
   * In a registry keyed by identifier, a handler whose id is not a byte value
   * is never selected: the loop emits nothing on it, whatever else is registered.
   */
  lemma {:induction false} DrainNeverSelects(v: Variant, reg: Registry, st: FramerState, h: Handler)
    requires Inv(st) && LengthsPositive(reg) && KeyedById(reg)
    requires !(0 <= h.id < IdLimit) && st.active != Some(h)
    ensures forall e :: e in Drain(v, reg, st).events ==> !EmittedOn(e, h)
    decreases |st.data|
  {
    if |st.data| >= st.length {
      var s := Step(v, reg, st);
      assert s.state.active != Some(h) && forall e :: e in s.events ==> !EmittedOn(e, h) by {
        if st.active.None? {
          var found := GetHandler(reg, st.data[..st.length][0] as int);
          assert found.Some? ==> found.value.id == st.data[..st.length][0] as int;
        }
      }
      DrainUnfold(v, reg, st);
      DrainNeverSelects(v, reg, s.state, h);
    }
  }

  /**
   * The finding in general: with the unfixed range check admitting a handler
   * under 256, no input ever makes the parser emit anything on it, in any
   * registry keyed by identifier.
   */
  lemma UnaddressableHandlerSilent(v: Variant, reg: Registry, h: Handler, st: FramerState, input: seq<byte>)
    requires Inv(st) && LengthsPositive(reg) && KeyedById(reg)
    requires h.id == IdLimit && st.active != Some(h)
    ensures MakeHandlerAsWritten(Info(Some(h.id), None, None), h.serial).Success?
    ensures forall e :: e in Frame(v, reg, st, input).events ==> !EmittedOn(e, h)
  {
    DrainNeverSelects(v, reg, st.(data := st.data + input), h);
  }

  /** The two-handler scenario: "atestbhello" yields "test" to 'a' and then "hello" to 'b'. */
  lemma ExampleStream(v: Variant)
    ensures var a := MakeHandler(Info(Some(0x61), Some("'a' handler"), Some(4)), 0).value;
            var b := MakeHandler(Info(Some(0x62), Some("'b' handler"), Some(5)), 1).value;
            var reg := Register(Register(map[], a), b);
            var test: seq<byte> := [0x74, 0x65, 0x73, 0x74];
            var hello: seq<byte> := [0x68, 0x65, 0x6C, 0x6C, 0x6F];
            Frame(v, reg, Idle(), [0x61] + test + [0x62] + hello)
              == Run(Idle(), [Data(a, [0x61]), Message(a, MessageValueOf(v, test, a)), Data(a, test),
                              Data(b, [0x62]), Message(b, MessageValueOf(v, hello, b)), Data(b, hello)])
  {
    var a := MakeHandler(Info(Some(0x61), Some("'a' handler"), Some(4)), 0).value;
    var b := MakeHandler(Info(Some(0x62), Some("'b' handler"), Some(5)), 1).value;
    var reg := Register(Register(map[], a), b);
    var test: seq<byte> := [0x74, 0x65, 0x73, 0x74];
    var hello: seq<byte> := [0x68, 0x65, 0x6C, 0x6C, 0x6F];
    assert GetHandler(reg, 0x61) == Some(a);
    assert GetHandler(reg, 0x62) == Some(b);
    assert Idle().(data := Idle().data + []) == Idle();
    assert Frame(v, reg, Idle(), []) == Run(Idle(), []);
    CompleteMessage(v, reg, b, 0x62, hello, []);
    assert [0x62] + hello + [] == [0x62] + hello;
    CompleteMessage(v, reg, a, 0x61, test, [0x62] + hello);
    assert [0x61] + test + [0x62] + hello == [0x61] + test + ([0x62] + hello);
  }

  /**
   * The same stream cut inside the second payload, "atestbh" then "ello":
   * the first call delivers "test" and stalls with 'b' active and one byte
   * buffered, the second completes "hello".
   */
  lemma SplitExampleStream(v: Variant, reg: Registry, a: Handler, b: Handler)
    requires LengthsPositive(reg) && GetHandler(reg, 0x61) == Some(a) && GetHandler(reg, 0x62) == Some(b)
    requires a.length == 4 && b.length == 5
    ensures var r := Frame(v, reg, Idle(), [0x61, 0x74, 0x65, 0x73, 0x74, 0x62, 0x68]);
            r.state == FramerState([0x68], 5, Some(b)) &&
            r.events == [Data(a, [0x61]), Message(a, MessageValueOf(v, [0x74, 0x65, 0x73, 0x74], a)),
                         Data(a, [0x74, 0x65, 0x73, 0x74]), Data(b, [0x62])]
    ensures var hello: seq<byte> := [0x68, 0x65, 0x6C, 0x6C, 0x6F];
            Frame(v, reg, FramerState([0x68], 5, Some(b)), [0x65, 0x6C, 0x6C, 0x6F])
              == Run(Idle(), [Message(b, MessageValueOf(v, hello, b)), Data(b, hello)])
  {
    var test: seq<byte> := [0x74, 0x65, 0x73, 0x74];
    var hello: seq<byte> := [0x68, 0x65, 0x6C, 0x6C, 0x6F];
    PartialMessageStalls(v, reg, b, 0x62, [0x68]);
    CompleteMessage(v, reg, a, 0x61, test, [0x62, 0x68]);
    assert [0x61] + test + [0x62, 0x68] == [0x61, 0x74, 0x65, 0x73, 0x74, 0x62, 0x68];
    assert [0x62] + [0x68] == [0x62, 0x68];
    PayloadDelivered(v, reg, b, hello, []);
    assert Idle().(data := Idle().data + []) == Idle();
    assert Frame(v, reg, Idle(), []) == Run(Idle(), []);
    assert hello + [] == [0x68] + [0x65, 0x6C, 0x6C, 0x6F];
    assert Awaiting(b).(data := Awaiting(b).data + hello) == FramerState([0x68], 5, Some(b)).(data := [0x68] + [0x65, 0x6C, 0x6C, 0x6F]);
  }
}
