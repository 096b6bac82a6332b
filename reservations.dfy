/** The reservation listing of the gateway: one fixed statement bound to
    `[guest_id, limit]`. */
module Reservations {
  import opened Values
  import opened Statements

  /** `SELECT * FROM reservations JOIN properties ON properties.id = property_id
      WHERE guest_id = $1 LIMIT $2 ;` */
  const ReservationsText: seq<Piece> :=
    [ Sql("SELECT * FROM reservations JOIN properties ON properties.id = property_id"),
      Sql(" WHERE guest_id = "), Slot(1),
      Sql(" LIMIT "), Slot(2),
      Sql(" ;") ]

  /** `[guest_id, limit]`, with `limit` defaulting to 10 when not supplied.
      The text cites exactly the values bound, the guest comparison is bound
      to the guest id and the row cap to the effective limit. */
  function ReservationsParams(guestId: Param, limit: Option<int>): (r: seq<Param>)
    ensures TextAligned(ReservationsText, r)
    ensures Cites(r, SlotAfter(ReservationsText, " WHERE guest_id = "), guestId)
    ensures Cites(r, SlotAfter(ReservationsText, " LIMIT "), PNum(EffectiveLimit(limit)))
    ensures limit.None? ==> Cites(r, SlotAfter(ReservationsText, " LIMIT "), PNum(DefaultLimit))
  {
    var t := ReservationsText;
    assert t[1..][1..][1..][1..][1..][1..] == [];
    assert Slots(t) == [1, 2] == Positions(2);
    assert t[0] != Sql(" WHERE guest_id = ") && t[1..][0] != Sql(" LIMIT ");
    assert SlotAfter(t, " WHERE guest_id = ") == 1;
    assert SlotAfter(t, " LIMIT ") == 2;
    [guestId, PNum(EffectiveLimit(limit))]
  }
}
