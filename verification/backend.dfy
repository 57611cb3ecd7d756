/** The hosted backend as the pages see it: the five tables, the auth users, and
    the joins that `select("*, cupom(*)")` embeds. A remote call named in the
    caller's `down` set fails (a network error, or a constraint the backend
    enforces); the page handlers return the calls they issued, in order. */
module Backend {
  import opened Wrappers
  import opened Seqs

  type UserId = string

  /** A row of `associado`. */
  datatype Resident = Resident(
    cpf: int, name: string, birthDate: string, phone: string, email: string,
    street: string, district: string, zip: string, state: string, city: string,
    password: string, userId: Option<UserId>)

  /** A row of `comercio`. */
  datatype Merchant = Merchant(
    cnpj: int, tradeName: string, legalName: string, categoryId: int,
    phone: string, email: string,
    street: string, district: string, zip: string, state: string, city: string,
    password: string, userId: Option<UserId>)

  /** A row of `categoria`. */
  datatype Category = Category(id: int, name: string)

  /** A row of `cupom`. The discount is kept as the form's text. */
  datatype Coupon = Coupon(
    code: string, merchantCnpj: int, title: string, percent: string,
    issuedOn: string, startsOn: string, endsOn: string)

  /** A row of `cupom_associado`; `usedOn` is the nullable redemption date. */
  datatype Reservation = Reservation(
    id: int, code: string, residentCpf: int, reservedOn: string, usedOn: Option<string>)

  /** A user of the auth provider. */
  datatype Identity = Identity(id: UserId, email: string, password: string)

  /** A reservation with its coupon embedded, `None` when the code matches no coupon. */
  datatype ReservationView = ReservationView(reservation: Reservation, coupon: Option<Coupon>)

  /** The remote calls the pages make. */
  datatype Step =
    | SignUpCall | SignInCall
    | ResidentLookup | MerchantLookup | CategoryLookup
    | CouponQuery | ReservationQuery | ResidentNameQuery
    | CouponInsert | ReservationInsert | ReservationDelete
    | ResidentInsert | MerchantInsert

  /** The coupon a reservation's code refers to: the first with that code. */
  function CouponByCode(coupons: seq<Coupon>, code: string): (r: Option<Coupon>)
    ensures r.None? <==> forall k :: 0 <= k < |coupons| ==> coupons[k].code != code
    ensures r.Some? ==> r.value in coupons && r.value.code == code
  {
    if coupons == [] then None
    else if coupons[0].code == code then Some(coupons[0])
    else CouponByCode(coupons[1..], code)
  }

  /** Exactly one `associado` row carries the auth user's id. */
  predicate OneResidentOf(residents: seq<Resident>, uid: UserId)
  {
    exists k :: 0 <= k < |residents| && residents[k].userId == Some(uid)
      && forall j :: 0 <= j < |residents| && j != k ==> residents[j].userId != Some(uid)
  }

  /** Exactly one `comercio` row carries the auth user's id. */
  predicate OneMerchantOf(merchants: seq<Merchant>, uid: UserId)
  {
    exists k :: 0 <= k < |merchants| && merchants[k].userId == Some(uid)
      && forall j :: 0 <= j < |merchants| && j != k ==> merchants[j].userId != Some(uid)
  }

  /** The `associado` row of an auth user, read with `.single()` or
      `.maybeSingle()`: there is one exactly when one row carries the user's id. */
  function ResidentOfUser(residents: seq<Resident>, uid: UserId): (r: Option<Resident>)
    ensures r.Some? <==> OneResidentOf(residents, uid)
    ensures r.Some? ==> r.value in residents && r.value.userId == Some(uid)
  {
    var p := (a: Resident) => a.userId == Some(uid);
    SingleIsExactlyOne(residents, p);
    Single(residents, p)
  }

  /** The answer of the resident lookup: `None` when the query errs, which
      `.single()` also does unless exactly one row matches; `.maybeSingle()`
      answers the same once its error is ignored. */
  function LookupResident(residents: seq<Resident>, uid: UserId, down: set<Step>): (r: Option<Resident>)
    ensures r.Some? <==> ResidentLookup !in down && OneResidentOf(residents, uid)
    ensures r.Some? ==> r.value in residents && r.value.userId == Some(uid)
  {
    if ResidentLookup in down then None else ResidentOfUser(residents, uid)
  }

  /** The `comercio` row of an auth user, read with `.single()`: there is one
      exactly when one row carries the user's id. */
  function MerchantOfUser(merchants: seq<Merchant>, uid: UserId): (r: Option<Merchant>)
    ensures r.Some? <==> OneMerchantOf(merchants, uid)
    ensures r.Some? ==> r.value in merchants && r.value.userId == Some(uid)
  {
    var p := (m: Merchant) => m.userId == Some(uid);
    SingleIsExactlyOne(merchants, p);
    Single(merchants, p)
  }

  /** The answer of the merchant lookup, `None` when it errs. */
  function LookupMerchant(merchants: seq<Merchant>, uid: UserId, down: set<Step>): (r: Option<Merchant>)
    ensures r.Some? <==> MerchantLookup !in down && OneMerchantOf(merchants, uid)
    ensures r.Some? ==> r.value in merchants && r.value.userId == Some(uid)
  {
    if MerchantLookup in down then None else MerchantOfUser(merchants, uid)
  }

  /** Each reservation with its coupon embedded, in order (a left join). */
  function EmbedCoupons(rs: seq<Reservation>, coupons: seq<Coupon>): (r: seq<ReservationView>)
    ensures |r| == |rs|
    ensures forall i :: 0 <= i < |rs| ==> r[i].reservation == rs[i]
    ensures forall i :: 0 <= i < |rs| ==>
      (r[i].coupon.None? <==> forall k :: 0 <= k < |coupons| ==> coupons[k].code != rs[i].code)
  {
    seq(|rs|, i requires 0 <= i < |rs| => ReservationView(rs[i], CouponByCode(coupons, rs[i].code)))
  }

  predicate HasCoupon(v: ReservationView)
  {
    v.coupon.Some?
  }

  /** The reservations whose coupon exists, each with it, in order: an inner
      join on the coupon code (`cupom!inner(*)`, or a left join followed by
      dropping the rows whose coupon came back empty). */
  function WithCoupons(rs: seq<Reservation>, coupons: seq<Coupon>): (r: seq<ReservationView>)
    ensures |r| <= |rs|
    ensures forall v :: v in r ==> v.reservation in rs
    ensures forall v :: v in r ==>
      v.coupon.Some? && v.coupon.value in coupons && v.coupon.value.code == v.reservation.code
  {
    var embedded := EmbedCoupons(rs, coupons);
    var kept := Filter(embedded, HasCoupon);
    assert forall v :: v in kept ==> v.reservation in rs && v.coupon == CouponByCode(coupons, v.reservation.code) by {
      forall v | v in kept ensures v.reservation in rs && v.coupon == CouponByCode(coupons, v.reservation.code) {
        var i :| 0 <= i < |embedded| && embedded[i] == v;
      }
    }
    kept
  }

  /** A reservation whose coupon exists is listed by the join. */
  lemma WithCouponsKeeps(rs: seq<Reservation>, coupons: seq<Coupon>, x: Reservation, c: Coupon)
    requires x in rs && c in coupons && c.code == x.code
    ensures exists v :: v in WithCoupons(rs, coupons) && v.reservation == x && v.coupon.Some?
  {
    var embedded := EmbedCoupons(rs, coupons);
    var i :| 0 <= i < |rs| && rs[i] == x;
    assert embedded[i].reservation == x && embedded[i].coupon.Some?;
    assert embedded[i] in Filter(embedded, HasCoupon);
  }

  /** The reservations of a list of joined rows. */
  function ReservationsOf(vs: seq<ReservationView>): (r: seq<Reservation>)
    ensures |r| == |vs| && forall i :: 0 <= i < |vs| ==> r[i] == vs[i].reservation
  {
    seq(|vs|, i requires 0 <= i < |vs| => vs[i].reservation)
  }

  /** The join lists exactly the reservations whose coupon exists, in their
      original order. */
  lemma {:induction false} WithCouponsIsFilter(rs: seq<Reservation>, coupons: seq<Coupon>)
    ensures ReservationsOf(WithCoupons(rs, coupons))
         == Filter(rs, (x: Reservation) => CouponByCode(coupons, x.code).Some?)
  {
    var p := (x: Reservation) => CouponByCode(coupons, x.code).Some?;
    if rs != [] {
      var head := ReservationView(rs[0], CouponByCode(coupons, rs[0].code));
      var tail := EmbedCoupons(rs[1..], coupons);
      var a, b := Filter([head], HasCoupon), Filter(tail, HasCoupon);
      assert WithCoupons(rs, coupons) == a + b by {
        assert EmbedCoupons(rs, coupons) == [head] + tail;
        FilterConcat([head], tail, HasCoupon);
      }
      assert ReservationsOf(b) == Filter(rs[1..], p) by {
        WithCouponsIsFilter(rs[1..], coupons);
      }
      assert ReservationsOf(a) == if p(rs[0]) then [rs[0]] else [];
      ReservationsOfConcat(a, b);
    }
  }

  lemma ReservationsOfConcat(a: seq<ReservationView>, b: seq<ReservationView>)
    ensures ReservationsOf(a + b) == ReservationsOf(a) + ReservationsOf(b)
  {
    assert forall i :: 0 <= i < |a| + |b| ==>
      ReservationsOf(a + b)[i] == (ReservationsOf(a) + ReservationsOf(b))[i];
  }

  /** `DELETE FROM cupom_associado WHERE id_cupom_associado = id`. */
  function DeleteById(rs: seq<Reservation>, id: int): (r: seq<Reservation>)
    ensures forall x :: x in r <==> x in rs && x.id != id
  {
    Filter(rs, (x: Reservation) => x.id != id)
  }

  /** Deleting by the id that an insert just handed out restores the table. */
  lemma ReserveThenRemove(rs: seq<Reservation>, row: Reservation)
    requires forall x :: x in rs ==> x.id < row.id
    ensures DeleteById(rs + [row], row.id) == rs
  {
    var p := (x: Reservation) => x.id != row.id;
    FilterConcat(rs, [row], p);
    FilterAll(rs, p);
    assert Filter([row], p) == [];
  }

  /** Deleting an id no row carries leaves the table as it was. */
  lemma DeleteAbsentId(rs: seq<Reservation>, id: int)
    requires forall x :: x in rs ==> x.id != id
    ensures DeleteById(rs, id) == rs
  {
    FilterAll(rs, (x: Reservation) => x.id != id);
  }

  class Store {
    var residents: seq<Resident>
    var merchants: seq<Merchant>
    var categories: seq<Category>
    var coupons: seq<Coupon>
    var reservations: seq<Reservation>
    var nextReservationId: int
    var identities: seq<Identity>

    /** Every reservation id lies below the next one the serial column hands out. */
    ghost predicate Valid()
      reads this
    {
      forall x :: x in reservations ==> x.id < nextReservationId
    }

    /** A backend with only the seeded categories. */
    constructor (seed: seq<Category>)
      ensures Valid()
      ensures categories == seed && nextReservationId == 1
      ensures residents == [] && merchants == [] && coupons == []
      ensures reservations == [] && identities == []
    {
      residents, merchants, categories, coupons := [], [], seed, [];
      reservations, nextReservationId, identities := [], 1, [];
    }

    /** `supabase.auth.signUp` accepted: the new auth user exists from now on. */
    method AddIdentity(user: Identity)
      modifies this`identities
      ensures identities == old(identities) + [user]
    {
      identities := identities + [user];
    }

    method InsertResident(row: Resident, down: set<Step>) returns (ok: bool)
      modifies this`residents
      ensures ok <==> ResidentInsert !in down
      ensures residents == if ok then old(residents) + [row] else old(residents)
    {
      ok := ResidentInsert !in down;
      if ok {
        residents := residents + [row];
      }
    }

    method InsertMerchant(row: Merchant, down: set<Step>) returns (ok: bool)
      modifies this`merchants
      ensures ok <==> MerchantInsert !in down
      ensures merchants == if ok then old(merchants) + [row] else old(merchants)
    {
      ok := MerchantInsert !in down;
      if ok {
        merchants := merchants + [row];
      }
    }

    method InsertCoupon(row: Coupon, down: set<Step>) returns (ok: bool)
      modifies this`coupons
      ensures ok <==> CouponInsert !in down
      ensures coupons == if ok then old(coupons) + [row] else old(coupons)
    {
      ok := CouponInsert !in down;
      if ok {
        coupons := coupons + [row];
      }
    }

    /** Insert into `cupom_associado`; the serial column supplies the id. */
    method InsertReservation(code: string, cpf: int, date: string, down: set<Step>) returns (ok: bool)
      requires Valid()
      modifies this`reservations, this`nextReservationId
      ensures Valid()
      ensures ok <==> ReservationInsert !in down
      ensures ok ==> reservations == old(reservations) + [Reservation(old(nextReservationId), code, cpf, date, None)]
      ensures ok ==> nextReservationId == old(nextReservationId) + 1
      ensures !ok ==> reservations == old(reservations) && nextReservationId == old(nextReservationId)
    {
      ok := ReservationInsert !in down;
      if ok {
        reservations := reservations + [Reservation(nextReservationId, code, cpf, date, None)];
        nextReservationId := nextReservationId + 1;
      }
    }

    /** Delete from `cupom_associado` every row with the given id. */
    method DeleteReservation(id: int, down: set<Step>) returns (ok: bool)
      requires Valid()
      modifies this`reservations
      ensures Valid()
      ensures ok <==> ReservationDelete !in down
      ensures reservations == if ok then DeleteById(old(reservations), id) else old(reservations)
    {
      ok := ReservationDelete !in down;
      if ok {
        reservations := DeleteById(reservations, id);
      }
    }
  }
}
