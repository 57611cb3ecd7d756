/** The merchant dashboard (`src/pages/comerciante/Cupons.tsx`): the merchant's
    coupons, the reservations made against them with the residents' names, and
    the dialog that creates a coupon. */
module MerchantCoupons {
  import opened Wrappers
  import opened Seqs
  import opened Text
  import opened Dates
  import opened Backend

  // ---------------------------------------------------------------------------
  // Coupon creation: date window and code
  // ---------------------------------------------------------------------------

  datatype DateCheck = DatesOk | StartBeforeToday | EndNotAfterStart

  /** The two date checks of `criarCupom`, in their order: the start may not lie
      before today, and the end must lie after the start. */
  function CheckDates(today: string, start: string, end: string): (r: DateCheck)
    ensures r == StartBeforeToday <==> LexLess(start, today)
    ensures r == EndNotAfterStart <==> LexLessEq(today, start) && LexLessEq(end, start)
    ensures r == DatesOk <==> LexLessEq(today, start) && LexLess(start, end)
  {
    if LexLess(start, today) then StartBeforeToday
    else if LexLessEq(end, start) then EndNotAfterStart
    else DatesOk
  }

  /** An accepted window runs from today or later to a strictly later end,
      so it also ends after today. */
  lemma AcceptedWindow(today: string, start: string, end: string)
    requires CheckDates(today, start, end) == DatesOk
    ensures LexLess(today, start) || today == start
    ensures LexLess(start, end) && LexLess(today, end)
  {
    if today != start {
      LexLessTransitive(today, start, end);
    }
  }

  /** On well-formed dates the checks compare calendar days. */
  lemma CheckDatesCalendar(today: string, start: string, end: string)
    requires WellFormedDate(today) && WellFormedDate(start) && WellFormedDate(end)
    ensures CheckDates(today, start, end) == StartBeforeToday <==> CalendarBefore(start, today)
    ensures CheckDates(today, start, end) == DatesOk
        <==> !CalendarBefore(start, today) && CalendarBefore(start, end)
  {
    LexOrderIsCalendarOrder(start, today);
    LexOrderIsCalendarOrder(start, end);
  }

  /** A character `Number.prototype.toString(36)` writes after the point. */
  predicate IsBase36(c: char)
  {
    '0' <= c <= '9' || 'a' <= c <= 'z'
  }

  predicate IsUpperBase36(c: char)
  {
    '0' <= c <= '9' || 'A' <= c <= 'Z'
  }

  /** `Math.random().toString(36).substring(2, 8).toUpperCase()`, given the
      base-36 rendering of the random number. */
  function RandomSuffix(random36: string): (s: string)
    ensures |s| <= 6
    ensures |random36| >= 8 ==> |s| == 6
  {
    Upper(Substring(random36, 2, 8))
  }

  /** `(timestamp + random).substring(0, 12)`, where `clock36` is
      `Date.now().toString(36)` and `random36` is `Math.random().toString(36)`. */
  function CouponCode(clock36: string, random36: string): (code: string)
    ensures |code| <= 12
  {
    Substring(Upper(clock36) + RandomSuffix(random36), 0, 12)
  }

  /** The code is a prefix of the upper-cased timestamp followed by the suffix. */
  lemma CouponCodePrefix(clock36: string, random36: string)
    ensures var whole := Upper(clock36) + RandomSuffix(random36);
      && |CouponCode(clock36, random36)| == (if |whole| < 12 then |whole| else 12)
      && CouponCode(clock36, random36) == whole[..|CouponCode(clock36, random36)|]
  {
    var whole := Upper(clock36) + RandomSuffix(random36);
    if |whole| < 12 {
      assert whole[..|whole|] == whole;
    }
  }

  /** The code is the first twelve characters of the upper-cased timestamp
      followed by the random suffix; shorter only when those two are shorter. */
  lemma CouponCodeShape(clock36: string, random36: string)
    ensures var code := CouponCode(clock36, random36);
      && |code| == (if |clock36| + |RandomSuffix(random36)| < 12
                    then |clock36| + |RandomSuffix(random36)| else 12)
      && (|clock36| <= 12 ==> code == Upper(clock36) + RandomSuffix(random36)[..|code| - |clock36|])
      && (|clock36| >= 12 ==> code == Upper(clock36[..12]))
  {
    var whole := Upper(clock36) + RandomSuffix(random36);
    var code := CouponCode(clock36, random36);
    CouponCodePrefix(clock36, random36);
    if |clock36| >= 12 {
      assert forall i :: 0 <= i < 12 ==> code[i] == Upper(clock36[..12])[i];
    }
  }

  /** Base-36 inputs give a code of digits and upper-case letters only. */
  lemma CouponCodeAlphabet(clock36: string, random36: string)
    requires forall i :: 0 <= i < |clock36| ==> IsBase36(clock36[i])
    requires forall i :: 2 <= i < |random36| ==> IsBase36(random36[i])
    ensures forall i :: 0 <= i < |CouponCode(clock36, random36)| ==>
      IsUpperBase36(CouponCode(clock36, random36)[i])
  {
    var code := CouponCode(clock36, random36);
    var raw := Substring(random36, 2, 8);
    var whole := Upper(clock36) + Upper(raw);
    CouponCodePrefix(clock36, random36);
    assert forall i :: 0 <= i < |raw| ==> raw[i] == random36[2 + i] by {
      if |random36| <= 2 {
        assert raw == [];
      } else if |random36| < 8 {
        assert raw == random36[2..];
      } else {
        assert raw == random36[2..8];
      }
    }
    forall i | 0 <= i < |whole| ensures IsUpperBase36(whole[i]) {
      if i < |clock36| {
        assert whole[i] == UpperChar(clock36[i]);
      } else {
        assert whole[i] == UpperChar(raw[i - |clock36|]);
      }
    }
  }

  // ---------------------------------------------------------------------------
  // Loading the dashboard
  // ---------------------------------------------------------------------------

  /** A user is logged in and the merchant lookup answered with one row. */
  predicate Found(user: Option<UserId>, merchants: seq<Merchant>, down: set<Step>)
  {
    user.Some? && LookupMerchant(merchants, user.value, down).Some?
  }

  /** `cupom` rows with `.eq("cnpj_comercio", cnpj)`. */
  function CouponsOf(coupons: seq<Coupon>, cnpj: int): (r: seq<Coupon>)
    ensures forall c :: c in r <==> c in coupons && c.merchantCnpj == cnpj
  {
    Filter(coupons, (c: Coupon) => c.merchantCnpj == cnpj)
  }

  function Codes(cs: seq<Coupon>): (r: seq<string>)
    ensures |r| == |cs| && forall i :: 0 <= i < |cs| ==> r[i] == cs[i].code
  {
    seq(|cs|, i requires 0 <= i < |cs| => cs[i].code)
  }

  /** `cupom_associado` rows with `.in("num_cupom", codes)` and `cupom!inner(*)`:
      the reservations of those codes, each with its coupon, dropping any whose
      coupon is missing. */
  function BookingsFor(reservations: seq<Reservation>, coupons: seq<Coupon>, codes: seq<string>)
    : (r: seq<ReservationView>)
    ensures forall v :: v in r ==> v.reservation in reservations && v.reservation.code in codes
    ensures forall v :: v in r ==>
      v.coupon.Some? && v.coupon.value in coupons && v.coupon.value.code == v.reservation.code
  {
    WithCoupons(Filter(reservations, (x: Reservation) => x.code in codes), coupons)
  }

  /** For the merchant's own codes the inner join drops nothing: every
      reservation of one of its coupons is listed. */
  lemma BookingsKeepEveryReservation(reservations: seq<Reservation>, coupons: seq<Coupon>, cnpj: int)
    ensures var mine := CouponsOf(coupons, cnpj);
      forall x :: x in reservations && x.code in Codes(mine) ==>
        exists v :: v in BookingsFor(reservations, coupons, Codes(mine)) && v.reservation == x
  {
    var mine := CouponsOf(coupons, cnpj);
    var codes := Codes(mine);
    var wanted := Filter(reservations, (y: Reservation) => y.code in codes);
    forall x | x in reservations && x.code in codes
      ensures exists v :: v in BookingsFor(reservations, coupons, codes) && v.reservation == x
    {
      var k :| 0 <= k < |codes| && codes[k] == x.code;
      assert x in wanted;
      WithCouponsKeeps(wanted, coupons, x, mine[k]);
    }
  }

  /** A resident as the name query selects it: `cpf_associado, nom_associado`. */
  datatype ResidentName = ResidentName(cpf: int, name: string)

  /** A listed reservation with the resident found for it, if any. */
  datatype NamedBooking = NamedBooking(booking: ReservationView, resident: Option<ResidentName>)

  /** `reservados.map(r => r.cpf_associado)`: the CPFs the name query asks for. */
  function CpfsOf(bookings: seq<ReservationView>): (r: seq<int>)
    ensures |r| == |bookings|
    ensures forall i :: 0 <= i < |bookings| ==> r[i] == bookings[i].reservation.residentCpf
  {
    seq(|bookings|, i requires 0 <= i < |bookings| => bookings[i].reservation.residentCpf)
  }

  /** `associado` rows with `.in("cpf_associado", cpfs)`, cut to CPF and name. */
  function NamesFor(residents: seq<Resident>, cpfs: seq<int>): (r: seq<ResidentName>)
    ensures forall n :: n in r ==> n.cpf in cpfs
    ensures forall n :: n in r ==> exists a :: a in residents && n == ResidentName(a.cpf, a.name)
    ensures forall a :: a in residents && a.cpf in cpfs ==> ResidentName(a.cpf, a.name) in r
  {
    var rows := Filter(residents, (a: Resident) => a.cpf in cpfs);
    var r := seq(|rows|, i requires 0 <= i < |rows| => ResidentName(rows[i].cpf, rows[i].name));
    assert forall n :: n in r ==> exists a :: a in residents && n == ResidentName(a.cpf, a.name) by {
      forall n | n in r ensures exists a :: a in residents && n == ResidentName(a.cpf, a.name) {
        var i :| 0 <= i < |r| && r[i] == n;
        assert rows[i] in residents;
      }
    }
    assert forall a :: a in rows ==> ResidentName(a.cpf, a.name) in r by {
      forall a | a in rows ensures ResidentName(a.cpf, a.name) in r {
        var i :| 0 <= i < |rows| && rows[i] == a;
        assert r[i] == ResidentName(a.cpf, a.name);
      }
    }
    r
  }

  /** `associados.find(a => a.cpf_associado === cpf)`: the first name row with that CPF. */
  function FindResident(names: seq<ResidentName>, cpf: int): (r: Option<ResidentName>)
    ensures r.None? <==> forall k :: 0 <= k < |names| ==> names[k].cpf != cpf
    ensures r.Some? ==> exists k :: 0 <= k < |names| && names[k] == r.value && r.value.cpf == cpf
                               && forall j :: 0 <= j < k ==> names[j].cpf != cpf
  {
    if names == [] then None
    else if names[0].cpf == cpf then Some(names[0])
    else
      var r := FindResident(names[1..], cpf);
      assert r.Some? ==> exists k :: 0 <= k < |names| && names[k] == r.value
                               && forall j :: 0 <= j < k ==> names[j].cpf != cpf by {
        if r.Some? {
          var k :| 0 <= k < |names| - 1 && names[1..][k] == r.value
                 && forall j :: 0 <= j < k ==> names[1..][j].cpf != cpf;
          assert names[k + 1] == r.value;
          assert forall j :: 1 <= j < k + 1 ==> names[j].cpf == names[1..][j - 1].cpf;
        }
      }
      r
  }

  /** `reservados.map(r => ({...r, associado: associados?.find(...)}))`: the
      reservations in their order, each with the first resident of its CPF; none
      at all when the name query gave no data. */
  function JoinNames(bookings: seq<ReservationView>, names: Option<seq<ResidentName>>)
    : (r: seq<NamedBooking>)
    ensures |r| == |bookings|
    ensures forall i :: 0 <= i < |r| ==> r[i].booking == bookings[i]
    ensures forall i :: 0 <= i < |r| ==>
      (r[i].resident.None? <==>
        (names.None? || forall k :: 0 <= k < |names.value| ==> names.value[k].cpf != bookings[i].reservation.residentCpf))
    ensures forall i :: 0 <= i < |r| && r[i].resident.Some? ==>
      names.Some? && r[i].resident.value in names.value
      && r[i].resident.value.cpf == bookings[i].reservation.residentCpf
    ensures forall i :: 0 <= i < |r| && r[i].resident.Some? ==>
      exists k :: 0 <= k < |names.value| && names.value[k] == r[i].resident.value
        && forall j :: 0 <= j < k ==> names.value[j].cpf != bookings[i].reservation.residentCpf
  {
    seq(|bookings|, i requires 0 <= i < |bookings| =>
      NamedBooking(bookings[i],
        if names.None? then None else FindResident(names.value, bookings[i].reservation.residentCpf)))
  }

  /** `reserva.associado?.nom_associado || "N/A"`: an absent resident or an empty
      name both read "N/A". */
  function ClientLabel(b: NamedBooking): (shown: string)
    ensures b.resident.Some? && b.resident.value.name != "" ==> shown == b.resident.value.name
    ensures b.resident.None? || b.resident.value.name == "" ==> shown == "N/A"
  {
    if b.resident.Some? && b.resident.value.name != "" then b.resident.value.name else "N/A"
  }

  /** What `loadData` stores as the reserved list once the reservation query
      answered: nothing for no reservations, else the name join over the name
      query's data (whose error is ignored). */
  function ReservedList(bookings: seq<ReservationView>, residents: seq<Resident>, down: set<Step>)
    : (r: seq<NamedBooking>)
    ensures |r| == |bookings|
  {
    if bookings == [] then []
    else JoinNames(bookings,
      if ResidentNameQuery in down then None else Some(NamesFor(residents, CpfsOf(bookings))))
  }

  /** The merchant sees the name of the resident who made a reservation, the
      CPF being the key of `associado`; when the name query fails every card
      reads "N/A". */
  lemma ReservedListShowsName(bookings: seq<ReservationView>, residents: seq<Resident>, down: set<Step>,
                              i: nat, a: Resident)
    requires i < |bookings|
    requires a in residents && a.cpf == bookings[i].reservation.residentCpf
    requires forall b :: b in residents && b.cpf == a.cpf ==> b == a
    ensures ResidentNameQuery !in down && a.name != "" ==>
      ClientLabel(ReservedList(bookings, residents, down)[i]) == a.name
    ensures ResidentNameQuery in down ==>
      ClientLabel(ReservedList(bookings, residents, down)[i]) == "N/A"
  {
    var cpfs := CpfsOf(bookings);
    assert cpfs[i] == a.cpf;
    if ResidentNameQuery !in down {
      var names := NamesFor(residents, cpfs);
      assert ResidentName(a.cpf, a.name) in names;
      var shown := ReservedList(bookings, residents, down)[i];
      assert shown.resident.Some?;
      var b :| b in residents && shown.resident.value == ResidentName(b.cpf, b.name);
    }
  }

  // ---------------------------------------------------------------------------
  // The component
  // ---------------------------------------------------------------------------

  class MerchantDashboard {
    var loading: bool
    var merchant: Option<Merchant>
    var coupons: seq<Coupon>
    var reserved: seq<NamedBooking>
    var dialogOpen: bool
    var title: string
    var percent: string
    var startDate: string
    var endDate: string

    /** The initial component state. */
    constructor ()
      ensures loading && merchant.None? && coupons == [] && reserved == []
      ensures !dialogOpen && title == "" && percent == "" && startDate == "" && endDate == ""
    {
      loading, merchant, coupons, reserved := true, None, [], [];
      dialogOpen, title, percent, startDate, endDate := false, "", "", "", "";
    }

    /** `loadData`: the merchant row, its coupons, the reservations against
        them and the residents' names, each step skipped once one fails.
        `calls` lists the remote calls issued, in order. */
    method LoadData(user: Option<UserId>, store: Store, down: set<Step>) returns (calls: seq<Step>)
      modifies this`loading, this`merchant, this`coupons, this`reserved
      ensures !loading
      ensures user.None? ==>
        merchant == old(merchant) && coupons == old(coupons) && reserved == old(reserved) && calls == []
      ensures user.Some? && LookupMerchant(store.merchants, user.value, down).None? ==>
        merchant == old(merchant) && coupons == old(coupons) && reserved == old(reserved)
        && calls == [MerchantLookup]
      ensures Found(user, store.merchants, down) ==>
        merchant == LookupMerchant(store.merchants, user.value, down)
      ensures Found(user, store.merchants, down) && CouponQuery in down ==>
        coupons == old(coupons) && reserved == old(reserved) && calls == [MerchantLookup, CouponQuery]
      ensures Found(user, store.merchants, down) && CouponQuery !in down ==>
        coupons == CouponsOf(store.coupons, merchant.value.cnpj)
      ensures Found(user, store.merchants, down) && CouponQuery !in down && ReservationQuery in down ==>
        reserved == old(reserved) && calls == [MerchantLookup, CouponQuery, ReservationQuery]
      ensures Found(user, store.merchants, down) && CouponQuery !in down && ReservationQuery !in down ==>
        reserved == ReservedList(BookingsFor(store.reservations, store.coupons, Codes(coupons)), store.residents, down)
        && calls == [MerchantLookup, CouponQuery, ReservationQuery]
             + (if reserved == [] then [] else [ResidentNameQuery])
    {
      calls := [];
      if user.None? {
        loading := false;
        return;
      }
      var m := LookupMerchant(store.merchants, user.value, down);
      if m.None? {
        calls := [MerchantLookup];
        loading := false;
        return;
      }
      merchant := m;
      if CouponQuery in down {
        calls := [MerchantLookup, CouponQuery];
        loading := false;
        return;
      }
      coupons := CouponsOf(store.coupons, m.value.cnpj);
      if ReservationQuery in down {
        calls := [MerchantLookup, CouponQuery, ReservationQuery];
        loading := false;
        return;
      }
      var bookings := BookingsFor(store.reservations, store.coupons, Codes(coupons));
      reserved := ReservedList(bookings, store.residents, down);
      calls := [MerchantLookup, CouponQuery, ReservationQuery]
        + (if bookings == [] then [] else [ResidentNameQuery]);
      loading := false;
    }

    /** `criarCupom`: check the dates, compose the code, insert the coupon, and
        on success close the dialog and clear the form. `reload` asks for the
        `loadData` the source starts without awaiting it. */
    method CreateCoupon(today: string, clock36: string, random36: string, store: Store, down: set<Step>)
      returns (calls: seq<Step>, reload: bool)
      modifies this`dialogOpen, this`title, this`percent, this`startDate, this`endDate, store`coupons
      ensures merchant.None? || CheckDates(today, old(startDate), old(endDate)) != DatesOk ==>
        && !reload && calls == [] && dialogOpen == old(dialogOpen)
        && title == old(title) && percent == old(percent)
        && startDate == old(startDate) && endDate == old(endDate)
        && store.coupons == old(store.coupons)
      ensures merchant.Some? && CheckDates(today, old(startDate), old(endDate)) == DatesOk ==>
        calls == [CouponInsert] && (reload <==> CouponInsert !in down)
      ensures merchant.Some? && CheckDates(today, old(startDate), old(endDate)) == DatesOk
              && CouponInsert in down ==>
        && dialogOpen == old(dialogOpen)
        && title == old(title) && percent == old(percent)
        && startDate == old(startDate) && endDate == old(endDate)
        && store.coupons == old(store.coupons)
      ensures merchant.Some? && CheckDates(today, old(startDate), old(endDate)) == DatesOk
              && CouponInsert !in down ==>
        && store.coupons == old(store.coupons) + [Coupon(CouponCode(clock36, random36),
             merchant.value.cnpj, old(title), old(percent), today, old(startDate), old(endDate))]
        && !dialogOpen && title == "" && percent == "" && startDate == "" && endDate == ""
      ensures store.coupons != old(store.coupons) ==>
        && |store.coupons| == |old(store.coupons)| + 1
        && var c := store.coupons[|store.coupons| - 1];
           LexLessEq(today, c.startsOn) && LexLess(c.startsOn, c.endsOn) && LexLess(today, c.endsOn)
    {
      calls, reload := [], false;
      if merchant.None? {
        return;
      }
      var check := CheckDates(today, startDate, endDate);
      if check != DatesOk {
        return;
      }
      AcceptedWindow(today, startDate, endDate);
      var code := CouponCode(clock36, random36);
      var row := Coupon(code, merchant.value.cnpj, title, percent, today, startDate, endDate);
      var ok := store.InsertCoupon(row, down);
      calls := [CouponInsert];
      if !ok {
        return;
      }
      dialogOpen := false;
      title, percent, startDate, endDate := "", "", "", "";
      reload := true;
    }
  }
}
