/**
 * The handler registry: the `message_handlers` array indexed by identifier,
 * written by `addHandler` and read by `getHandler`.
 */
module Registry {
  import opened Wrappers
  import opened Handlers

  /** Sparse array from identifier to the handler last registered under it. */
  type Registry = map<int, Handler>

  /** Every entry sits at the index of its own identifier. */
  predicate KeyedById(reg: Registry)
  {
    forall id :: id in reg ==> reg[id].id == id
  }

  /** Every registered payload length lets the framer make progress. */
  predicate LengthsPositive(reg: Registry)
  {
    forall id :: id in reg ==> reg[id].length >= 1
  }

  /** `getHandler`: the handler at `id`, or `undefined` (`None`); it never throws. */
  function GetHandler(reg: Registry, id: int): (r: Option<Handler>)
    ensures r.Some? <==> id in reg
    ensures r.Some? ==> r.value == reg[id]
    ensures r.Some? && KeyedById(reg) ==> r.value.id == id
  {
    if id in reg then Some(reg[id]) else None
  }

  /** `message_handlers[handler.id] = handler`: last write wins, other slots untouched. */
  function Register(reg: Registry, h: Handler): (r: Registry)
    ensures GetHandler(r, h.id) == Some(h)
    ensures forall id :: id != h.id ==> GetHandler(r, id) == GetHandler(reg, id)
    ensures r.Keys == reg.Keys + {h.id}
    ensures KeyedById(reg) ==> KeyedById(r)
    ensures LengthsPositive(reg) && h.length >= 1 ==> LengthsPositive(r)
  {
    reg[h.id := h]
  }

  /** Two registrations under one identifier: only the later one is found. */
  lemma ReplacementWins(reg: Registry, h1: Handler, h2: Handler)
    requires h1.id == h2.id
    ensures GetHandler(Register(Register(reg, h1), h2), h1.id) == Some(h2)
  {
  }

  /**
   * With the corrected range check, every accepted handler can be selected
   * by some identifier byte once it is registered.
   */
  lemma AcceptedHandlerIsAddressable(reg: Registry, info: Info, serial: nat)
    requires MakeHandler(info, serial).Success?
    ensures var h := MakeHandler(info, serial).value;
            0 <= h.id < IdLimit && GetHandler(Register(reg, h), (h.id as byte) as int) == Some(h)
  {
  }
}
