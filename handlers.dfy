/**
 * The `MessageHandler` constructor: falsy descriptor fields take defaults,
 * and the identifier is checked against the one-byte identifier space.
 */
module Handlers {
  import opened Wrappers

  /** An unsigned 8-bit value, the element type of a node `Buffer`. */
  newtype byte = x: int | 0 <= x < 256

  /** Number of bytes that carry a message identifier on the wire (`MESSAGE_ID_BYTES`). */
  const IdBytes: int := 1

  /** `Math.pow(2, 8 * MESSAGE_ID_BYTES)`, the bound the constructor compares identifiers with. */
  const IdLimit: int := 256

  const DefaultName: string := "Unnamed Message"

  /** The descriptor `{id, name, length}` handed to `addHandler`; `None` is an absent field. */
  datatype Info = Info(id: Option<int>, name: Option<string>, length: Option<int>)

  /**
   * A constructed handler. `serial` numbers the registrations of a session and
   * stands for the object's identity: two handlers built from equal descriptors
   * are still two different event emitters.
   */
  datatype Handler = Handler(serial: nat, id: int, name: string, length: int)

  /** The error thrown when an identifier does not fit in `IdBytes` bytes. */
  datatype RangeError = OutOfRange(id: int, name: string)

  /** `info.id || 0`: an absent identifier and the falsy identifier 0 both give 0. */
  function IdOf(info: Info): int
  {
    if info.id.Some? then info.id.value else 0
  }

  /** `info.name || "Unnamed Message"`: the empty string is falsy too. */
  function NameOf(info: Info): string
  {
    if info.name.Some? && info.name.value != "" then info.name.value else DefaultName
  }

  /** `info.length || 1`: a length of 0 is falsy and becomes 1; negative lengths pass. */
  function LengthOf(info: Info): int
  {
    if info.length.Some? && info.length.value != 0 then info.length.value else 1
  }

  function Build(info: Info, serial: nat): Handler
  {
    Handler(serial, IdOf(info), NameOf(info), LengthOf(info))
  }

  /**
   * The constructor as the source writes it: it throws only when
   * `id < 0 || id > 2^8`, so the identifier 256 is accepted.
   */
  function MakeHandlerAsWritten(info: Info, serial: nat): (r: Result<Handler, RangeError>)
    ensures r.Success? <==> 0 <= IdOf(info) <= IdLimit
    ensures r.Success? ==> r.value == Build(info, serial)
  {
    var id := IdOf(info);
    if id < 0 || id > IdLimit then Failure(OutOfRange(id, NameOf(info)))
    else Success(Build(info, serial))
  }

  /**
   * The constructor with the intended range check: exactly the identifiers
   * that a single byte can carry are accepted, so every accepted handler is
   * reachable from the wire.
   */
  function MakeHandler(info: Info, serial: nat): (r: Result<Handler, RangeError>)
    ensures r.Success? <==> 0 <= IdOf(info) < IdLimit
    ensures r.Failure? ==> r.error == OutOfRange(IdOf(info), NameOf(info))
    ensures r.Success? ==> r.value.serial == serial && r.value.id == IdOf(info)
    ensures r.Success? ==> r.value.name != [] && r.value.length != 0
    ensures r.Success? ==> (r.value.length >= 1 <==> info.length.None? || info.length.value >= 0)
    ensures r.Success? && info.length.Some? && info.length.value != 0 ==> r.value.length == info.length.value
    ensures r.Success? && info.name.Some? && info.name.value != [] ==> r.value.name == info.name.value
    ensures r.Success? && (info.length.None? || info.length.value == 0) ==> r.value.length == 1
    ensures r.Success? && (info.name.None? || info.name.value == []) ==> r.value.name == DefaultName
    ensures r.Success? && (info.id.None? || info.id.value == 0) ==> r.value.id == 0
  {
    var id := IdOf(info);
    if id < 0 || id >= IdLimit then Failure(OutOfRange(id, NameOf(info)))
    else Success(Build(info, serial))
  }

  /** The guard as written lets through an identifier that no byte can carry. */
  lemma AsWrittenAcceptsOutOfByteId()
    ensures var r := MakeHandlerAsWritten(Info(Some(IdLimit), None, None), 0);
            r.Success? && r.value.id == IdLimit && MakeHandler(Info(Some(IdLimit), None, None), 0).Failure?
  {
  }
}
