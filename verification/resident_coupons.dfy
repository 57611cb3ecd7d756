/** The resident's coupon page (`/associado/cupons`): the coupons still on offer,
    the resident's own reservations, and the reserve and remove actions. */
module ResidentCoupons {
  import opened Wrappers
  import opened Seqs
  import opened Text
  import opened Dates
  import opened Backend

  // ---------------------------------------------------------------------------
  // Queries
  // ---------------------------------------------------------------------------

  /** `cupom` rows with `.gte("dta_termino_cupom", today)`: the coupons whose
      last day is not before today. The database makes that comparison; the
      model compares the date strings, which agrees with the calendar on
      well-formed dates (`AvailableMeansNotExpired`). */
  function AvailableCoupons(coupons: seq<Coupon>, today: string): (r: seq<Coupon>)
    ensures |r| <= |coupons|
    ensures forall c :: c in r <==> c in coupons && LexLessEq(today, c.endsOn)
  {
    Filter(coupons, (c: Coupon) => LexLessEq(today, c.endsOn))
  }

  /** For well-formed dates the string filter keeps exactly the coupons whose
      last day has not passed on the calendar. */
  lemma AvailableMeansNotExpired(coupons: seq<Coupon>, today: string, c: Coupon)
    requires WellFormedDate(today) && WellFormedDate(c.endsOn)
    ensures c in AvailableCoupons(coupons, today) <==> c in coupons && !CalendarBefore(c.endsOn, today)
  {
    LexAtMostIsCalendarAtMost(today, c.endsOn);
  }

  /** A coupon on offer on a later day was on offer on every earlier day: as
      time passes the list only shrinks. */
  lemma AvailableShrinks(coupons: seq<Coupon>, earlier: string, later: string)
    requires LexLessEq(earlier, later)
    ensures forall c :: c in AvailableCoupons(coupons, later) ==> c in AvailableCoupons(coupons, earlier)
  {
    forall c | c in AvailableCoupons(coupons, later)
      ensures c in AvailableCoupons(coupons, earlier)
    {
      if LexLess(earlier, later) && LexLess(later, c.endsOn) {
        LexLessTransitive(earlier, later, c.endsOn);
      }
    }
  }

  /** A user is logged in and the resident lookup answered with one row. */
  predicate Known(user: Option<UserId>, residents: seq<Resident>, down: set<Step>)
  {
    user.Some? && LookupResident(residents, user.value, down).Some?
  }

  /** `cupom_associado` rows with `.eq("cpf_associado", cpf)` and their coupon,
      keeping those whose coupon came back (`filter(r => r.cupom)`). */
  function MyReservations(reservations: seq<Reservation>, coupons: seq<Coupon>, cpf: int)
    : (r: seq<ReservationView>)
    ensures forall v :: v in r ==> v.reservation in reservations && v.reservation.residentCpf == cpf
    ensures forall v :: v in r ==>
      v.coupon.Some? && v.coupon.value in coupons && v.coupon.value.code == v.reservation.code
  {
    WithCoupons(Filter(reservations, (x: Reservation) => x.residentCpf == cpf), coupons)
  }

  /** Every reservation of the resident whose coupon exists is listed. */
  lemma MyReservationsComplete(reservations: seq<Reservation>, coupons: seq<Coupon>, cpf: int,
                               x: Reservation, c: Coupon)
    requires x in reservations && x.residentCpf == cpf
    requires c in coupons && c.code == x.code
    ensures exists v :: v in MyReservations(reservations, coupons, cpf) && v.reservation == x
  {
    var own := Filter(reservations, (y: Reservation) => y.residentCpf == cpf);
    assert x in own;
    WithCouponsKeeps(own, coupons, x, c);
  }

  // ---------------------------------------------------------------------------
  // What a reserved card offers
  // ---------------------------------------------------------------------------

  /** A reserved card shows either the remove button or a "used on" badge. */
  datatype CardAction = Removable | UsedOn(date: string)

  /** The card tests `dta_uso_cupom_associado` for truthiness: null and the
      empty string both leave the reservation removable. */
  function ActionFor(r: Reservation): (a: CardAction)
    ensures a.Removable? <==> r.usedOn.None? || r.usedOn == Some("")
    ensures a.UsedOn? ==> r.usedOn == Some(a.date) && a.date != ""
  {
    match r.usedOn
    case None => Removable
    case Some(d) => if d == "" then Removable else UsedOn(d)
  }

  /** A reservation just made is listed on the resident's page, with its remove
      button, as long as its coupon exists; and removing it by the id it got
      restores the table. */
  lemma FreshReservationIsRemovable(reservations: seq<Reservation>, coupons: seq<Coupon>,
                                    next: int, code: string, cpf: int, today: string, c: Coupon)
    requires forall x :: x in reservations ==> x.id < next
    requires c in coupons && c.code == code
    ensures var after := reservations + [Reservation(next, code, cpf, today, None)];
      && (exists v :: v in MyReservations(after, coupons, cpf) && v.reservation.id == next
                      && ActionFor(v.reservation).Removable?)
      && DeleteById(after, next) == reservations
  {
    var row := Reservation(next, code, cpf, today, None);
    var after := reservations + [row];
    MyReservationsComplete(after, coupons, cpf, row, c);
    var v :| v in MyReservations(after, coupons, cpf) && v.reservation == row;
    assert ActionFor(v.reservation).Removable?;
    ReserveThenRemove(reservations, row);
  }

  // ---------------------------------------------------------------------------
  // The component
  // ---------------------------------------------------------------------------

  class ResidentDashboard {
    var loading: bool
    var available: seq<Coupon>
    var mine: seq<ReservationView>
    var residentName: string

    /** The state the page mounts with. */
    constructor ()
      ensures loading && available == [] && mine == [] && residentName == ""
    {
      loading, available, mine, residentName := true, [], [], "";
    }

    /** `loadCupons`: the resident row, then the coupons on offer, then the
        resident's reservations. The name is shown once the lookup answers; the
        two lists are replaced only when both queries succeed. `calls` lists
        the remote calls issued, in order. */
    method LoadCoupons(user: Option<UserId>, today: string, store: Store, down: set<Step>)
      returns (calls: seq<Step>)
      modifies this`loading, this`available, this`mine, this`residentName
      ensures !loading
      ensures user.None? ==>
        && calls == [] && residentName == old(residentName)
        && available == old(available) && mine == old(mine)
      ensures user.Some? && LookupResident(store.residents, user.value, down).None? ==>
        && calls == [ResidentLookup] && residentName == old(residentName)
        && available == old(available) && mine == old(mine)
      ensures Known(user, store.residents, down) ==>
        residentName == LookupResident(store.residents, user.value, down).value.name
      ensures Known(user, store.residents, down) && CouponQuery in down ==>
        && calls == [ResidentLookup, CouponQuery]
        && available == old(available) && mine == old(mine)
      ensures Known(user, store.residents, down) && CouponQuery !in down && ReservationQuery in down ==>
        && calls == [ResidentLookup, CouponQuery, ReservationQuery]
        && available == old(available) && mine == old(mine)
      ensures Known(user, store.residents, down) && CouponQuery !in down && ReservationQuery !in down ==>
        && calls == [ResidentLookup, CouponQuery, ReservationQuery]
        && available == AvailableCoupons(store.coupons, today)
        && mine == MyReservations(store.reservations, store.coupons,
                                  LookupResident(store.residents, user.value, down).value.cpf)
    {
      calls := [];
      if user.None? {
        loading := false;
        return;
      }
      var resident := LookupResident(store.residents, user.value, down);
      if resident.None? {
        calls := [ResidentLookup];
        loading := false;
        return;
      }
      residentName := resident.value.name;
      if CouponQuery in down {
        calls := [ResidentLookup, CouponQuery];
        loading := false;
        return;
      }
      var offered := AvailableCoupons(store.coupons, today);
      calls := [ResidentLookup, CouponQuery, ReservationQuery];
      if ReservationQuery in down {
        loading := false;
        return;
      }
      available := offered;
      mine := MyReservations(store.reservations, store.coupons, resident.value.cpf);
      loading := false;
    }

    /** `reservarCupom`: look up the resident's CPF, then insert a reservation of
        `code` dated today. `reload` asks for the `loadCupons` the source starts
        without awaiting it. */
    method Reserve(code: string, today: string, user: Option<UserId>, store: Store, down: set<Step>)
      returns (calls: seq<Step>, reload: bool)
      requires store.Valid()
      modifies store`reservations, store`nextReservationId
      ensures store.Valid()
      ensures !Known(user, store.residents, down) ==>
        && !reload && calls == (if user.None? then [] else [ResidentLookup])
        && store.reservations == old(store.reservations)
        && store.nextReservationId == old(store.nextReservationId)
      ensures Known(user, store.residents, down) ==>
        && calls == [ResidentLookup, ReservationInsert]
        && (reload <==> ReservationInsert !in down)
      ensures Known(user, store.residents, down) && reload ==>
        && store.reservations == old(store.reservations) + [Reservation(old(store.nextReservationId),
             code, LookupResident(store.residents, user.value, down).value.cpf, today, None)]
        && store.nextReservationId == old(store.nextReservationId) + 1
      ensures Known(user, store.residents, down) && !reload ==>
        && store.reservations == old(store.reservations)
        && store.nextReservationId == old(store.nextReservationId)
    {
      calls, reload := [], false;
      if user.None? {
        return;
      }
      var resident := LookupResident(store.residents, user.value, down);
      calls := [ResidentLookup];
      if resident.None? {
        return;
      }
      reload := store.InsertReservation(code, resident.value.cpf, today, down);
      calls := [ResidentLookup, ReservationInsert];
    }

    /** `removerCupom`: delete the reservation with id `id`. */
    method Remove(id: int, store: Store, down: set<Step>) returns (calls: seq<Step>, reload: bool)
      requires store.Valid()
      modifies store`reservations
      ensures store.Valid()
      ensures calls == [ReservationDelete]
      ensures reload <==> ReservationDelete !in down
      ensures store.reservations == if reload then DeleteById(old(store.reservations), id)
                                    else old(store.reservations)
    {
      reload := store.DeleteReservation(id, down);
      calls := [ReservationDelete];
    }
  }
}
