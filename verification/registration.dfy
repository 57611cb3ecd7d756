/** The sign-up page (`/cadastro`): one form for residents and one for
    merchants, each creating an auth user and then the profile row. */
module Registration {
  import opened Wrappers
  import opened Seqs
  import opened Text
  import opened Backend
  import opened Routes

  /** The two tabs of the page. */
  datatype Tab = ResidentTab | MerchantTab

  /** The tab shown first: the merchant form only for `?tipo=comerciante`. */
  function InitialTab(tipo: Option<string>): (t: Tab)
    ensures t == MerchantTab <==> tipo == Some("comerciante")
  {
    if tipo == Some("comerciante") then MerchantTab else ResidentTab
  }

  /** `parseInt(raw.replace(/\D/g, ""))`: the number the digits of `raw` spell,
      and `None` (JavaScript's NaN) when `raw` has no digit. */
  function ParseTaxId(raw: string): (r: Option<nat>)
    ensures r.None? <==> forall i :: 0 <= i < |raw| ==> !IsDigit(raw[i])
  {
    var digits := StripNonDigits(raw);
    if digits == [] then
      None
    else
      Some(DigitsValue(digits))
  }

  /** The formatting a mask adds is ignored: a CPF or CNPJ typed with dots, a
      slash and a dash parses to the number its digits spell. */
  lemma ParseTaxIdIgnoresMask(a: string, sep: char, b: string)
    requires AllDigits(a) && AllDigits(b) && !IsDigit(sep)
    ensures ParseTaxId(a + [sep] + b) == ParseTaxId(a + b)
    ensures a + b != [] ==> ParseTaxId(a + [sep] + b) == Some(DigitsValue(a + b))
  {
    StripMask(a, sep, b);
  }

  /** Any mask is ignored: the input parses to what its digits alone parse to,
      whatever separators the CPF or CNPJ was typed with and wherever they sit. */
  lemma ParseTaxIdOfDigits(raw: string)
    ensures ParseTaxId(raw) == ParseTaxId(StripNonDigits(raw))
  {
    StripNonDigitsIdempotent(raw);
  }

  lemma StripMask(a: string, sep: char, b: string)
    requires AllDigits(a) && AllDigits(b) && !IsDigit(sep)
    ensures StripNonDigits(a + [sep] + b) == a + b
    ensures StripNonDigits(a + b) == a + b
  {
    var x := a + [sep];
    assert StripNonDigits(x) == a by {
      StripNonDigitsSpec(a, [sep], sep);
      assert a + [] == a;
    }
    assert StripNonDigits(a + [sep] + b) == a + b by {
      StripNonDigitsSpec(x, b, sep);
      StripNonDigitsSpec(b, [], sep);
    }
    assert StripNonDigits(a + b) == a + b by {
      StripNonDigitsSpec(a, b, sep);
      StripNonDigitsSpec(b, [], sep);
    }
  }

  /** The fields of the resident form, as `FormData` reads them. */
  datatype ResidentForm = ResidentForm(
    name: string, cpf: string, birthDate: string, phone: string, email: string,
    street: string, district: string, zip: string, state: string, city: string,
    password: string, confirmation: string)

  /** The fields of the merchant form; the category comes from the select. */
  datatype MerchantForm = MerchantForm(
    tradeName: string, legalName: string, cnpj: string, phone: string, email: string,
    street: string, district: string, zip: string, state: string, city: string,
    password: string, confirmation: string)

  /** What `supabase.auth.signUp` answered: an error, or data whose `user` may
      be missing. */
  datatype SignUpOutcome = SignUpFailed | SignedUp(user: Option<UserId>)

  /** The `associado` row the form inserts: keyed by the parsed CPF, linked to
      the new auth user, and carrying the e-mail and password it signed up with. */
  function ResidentRow(f: ResidentForm, uid: UserId, cpf: nat): (r: Resident)
    ensures r.cpf == cpf && r.userId == Some(uid)
    ensures r.email == f.email && r.password == f.password && r.name == f.name
  {
    Resident(cpf, f.name, f.birthDate, f.phone, f.email, f.street, f.district,
             f.zip, f.state, f.city, f.password, Some(uid))
  }

  /** The `comercio` row the form inserts: keyed by the parsed CNPJ, in the
      looked-up category, linked to the new auth user, and carrying the e-mail
      and password it signed up with. */
  function MerchantRow(f: MerchantForm, uid: UserId, cnpj: nat, categoryId: int): (r: Merchant)
    ensures r.cnpj == cnpj && r.categoryId == categoryId && r.userId == Some(uid)
    ensures r.email == f.email && r.password == f.password && r.tradeName == f.tradeName
  {
    Merchant(cnpj, f.tradeName, f.legalName, categoryId, f.phone, f.email, f.street,
             f.district, f.zip, f.state, f.city, f.password, Some(uid))
  }

  /** Exactly one `categoria` row carries the name. */
  predicate OneCategoryNamed(categories: seq<Category>, name: string)
  {
    exists k :: 0 <= k < |categories| && categories[k].name == name
      && forall j :: 0 <= j < |categories| && j != k ==> categories[j].name != name
  }

  /** `categoria` rows with `.eq("nom_categoria", name).single()`, cut to the id;
      `None` when the query errs, and when no row or several rows carry the name. */
  function CategoryIdFor(categories: seq<Category>, name: string, down: set<Step>): (r: Option<int>)
    ensures r.Some? <==> CategoryLookup !in down && OneCategoryNamed(categories, name)
    ensures r.Some? ==> Category(r.value, name) in categories
  {
    if CategoryLookup in down then None
    else
      var p := (c: Category) => c.name == name;
      SingleIsExactlyOne(categories, p);
      match Single(categories, p)
      case None => None
      case Some(c) => Some(c.id)
  }

  /** A seeded category table with one row per name answers the lookup with
      that row's id. */
  lemma CategoryIdOfSeeded(categories: seq<Category>, k: nat, down: set<Step>)
    requires k < |categories| && CategoryLookup !in down
    requires forall j :: 0 <= j < |categories| && j != k ==> categories[j].name != categories[k].name
    ensures CategoryIdFor(categories, categories[k].name, down) == Some(categories[k].id)
  {
    SingleOfOne(categories, (c: Category) => c.name == categories[k].name, k);
  }

  class RegistrationPage {
    var loading: bool
    var category: string
    /** The values `loading` has taken, in order. */
    ghost var loadingLog: seq<bool>

    /** The state the page mounts with. */
    constructor ()
      ensures !loading && category == "" && loadingLog == []
    {
      loading, category, loadingLog := false, "", [];
    }

    /** The category select's `onValueChange`. */
    method SelectCategory(name: string)
      modifies this`category
      ensures category == name
    {
      category := name;
    }

    /** The profile insert of the resident form. The CPF is parsed first; a
        NaN key is sent as null, which the key column refuses. */
    static method InsertResidentRow(f: ResidentForm, uid: UserId, store: Store, down: set<Step>)
      returns (ok: bool)
      modifies store`residents
      ensures ok <==> ResidentInsert !in down && ParseTaxId(f.cpf).Some?
      ensures store.residents == if ok then old(store.residents) + [ResidentRow(f, uid, ParseTaxId(f.cpf).value)]
                                 else old(store.residents)
    {
      var cpf := ParseTaxId(f.cpf);
      ok := false;
      if cpf.Some? {
        ok := store.InsertResident(ResidentRow(f, uid, cpf.value), down);
      }
    }

    /** The profile insert of the merchant form, with the same treatment of a
        CNPJ without digits. */
    static method InsertMerchantRow(f: MerchantForm, uid: UserId, categoryId: int, store: Store, down: set<Step>)
      returns (ok: bool)
      modifies store`merchants
      ensures ok <==> MerchantInsert !in down && ParseTaxId(f.cnpj).Some?
      ensures store.merchants == if ok then old(store.merchants) + [MerchantRow(f, uid, ParseTaxId(f.cnpj).value, categoryId)]
                                 else old(store.merchants)
    {
      var cnpj := ParseTaxId(f.cnpj);
      ok := false;
      if cnpj.Some? {
        ok := store.InsertMerchant(MerchantRow(f, uid, cnpj.value, categoryId), down);
      }
    }

    /** `handleSubmitAssociado`: check the passwords match, create the auth
        user, then insert the `associado` row; on success go to the login page.
        A failed insert does not undo the auth user. */
    method SubmitResident(f: ResidentForm, signUp: SignUpOutcome, store: Store, down: set<Step>)
      returns (calls: seq<Step>, route: Option<Route>)
      modifies this`loading, this`loadingLog, store`identities, store`residents
      ensures !loading && loadingLog == old(loadingLog) + [true, false]
      ensures route.Some? ==> route.value == LoginRoute
      ensures f.password != f.confirmation ==>
        && calls == [] && route.None?
        && store.identities == old(store.identities) && store.residents == old(store.residents)
      ensures f.password == f.confirmation && !signUp.SignedUp? ==>
        && calls == [SignUpCall] && route.None?
        && store.identities == old(store.identities) && store.residents == old(store.residents)
      ensures f.password == f.confirmation && signUp.SignedUp? && signUp.user.None? ==>
        && calls == [SignUpCall] && route.None?
        && store.identities == old(store.identities) && store.residents == old(store.residents)
      ensures f.password == f.confirmation && signUp.SignedUp? && signUp.user.Some? ==>
        && calls == [SignUpCall, ResidentInsert]
        && store.identities == old(store.identities) + [Identity(signUp.user.value, f.email, f.password)]
        && (route.Some? <==> ResidentInsert !in down && ParseTaxId(f.cpf).Some?)
        && store.residents == if route.Some?
             then old(store.residents) + [ResidentRow(f, signUp.user.value, ParseTaxId(f.cpf).value)]
             else old(store.residents)
    {
      loading, loadingLog := true, loadingLog + [true];
      calls, route := [], None;
      if f.password != f.confirmation {
        loading, loadingLog := false, loadingLog + [false];
        return;
      }
      calls := [SignUpCall];
      if signUp.SignUpFailed? || signUp.user.None? {
        loading, loadingLog := false, loadingLog + [false];
        return;
      }
      var uid := signUp.user.value;
      store.AddIdentity(Identity(uid, f.email, f.password));
      calls := [SignUpCall, ResidentInsert];
      var ok := InsertResidentRow(f, uid, store, down);
      if ok {
        route := Some(LoginRoute);
      }
      loading, loadingLog := false, loadingLog + [false];
    }

    /** `handleSubmitComerciante`: check the passwords match and a category is
        chosen, look the category's id up, create the auth user, then insert
        the `comercio` row; on success go to the login page. A failed insert
        does not undo the auth user. */
    method SubmitMerchant(f: MerchantForm, signUp: SignUpOutcome, store: Store, down: set<Step>)
      returns (calls: seq<Step>, route: Option<Route>)
      modifies this`loading, this`loadingLog, store`identities, store`merchants
      ensures !loading && loadingLog == old(loadingLog) + [true, false]
      ensures route.Some? ==> route.value == LoginRoute
      ensures f.password != f.confirmation || category == "" ==>
        && calls == [] && route.None?
        && store.identities == old(store.identities) && store.merchants == old(store.merchants)
      ensures f.password == f.confirmation && category != "" ==>
        var id := CategoryIdFor(store.categories, category, down);
        && (id.None? ==>
              && calls == [CategoryLookup] && route.None?
              && store.identities == old(store.identities) && store.merchants == old(store.merchants))
        && (id.Some? && (signUp.SignUpFailed? || signUp.user.None?) ==>
              && calls == [CategoryLookup, SignUpCall] && route.None?
              && store.identities == old(store.identities) && store.merchants == old(store.merchants))
        && (id.Some? && signUp.SignedUp? && signUp.user.Some? ==>
              && calls == [CategoryLookup, SignUpCall, MerchantInsert]
              && store.identities == old(store.identities) + [Identity(signUp.user.value, f.email, f.password)]
              && (route.Some? <==> MerchantInsert !in down && ParseTaxId(f.cnpj).Some?)
              && store.merchants == if route.Some?
                   then old(store.merchants) + [MerchantRow(f, signUp.user.value, ParseTaxId(f.cnpj).value, id.value)]
                   else old(store.merchants))
    {
      loading, loadingLog := true, loadingLog + [true];
      calls, route := [], None;
      if f.password != f.confirmation || category == "" {
        loading, loadingLog := false, loadingLog + [false];
        return;
      }
      calls := [CategoryLookup];
      var categoryId := CategoryIdFor(store.categories, category, down);
      if categoryId.None? {
        loading, loadingLog := false, loadingLog + [false];
        return;
      }
      calls := [CategoryLookup, SignUpCall];
      if signUp.SignUpFailed? || signUp.user.None? {
        loading, loadingLog := false, loadingLog + [false];
        return;
      }
      var uid := signUp.user.value;
      store.AddIdentity(Identity(uid, f.email, f.password));
      calls := [CategoryLookup, SignUpCall, MerchantInsert];
      var ok := InsertMerchantRow(f, uid, categoryId.value, store, down);
      if ok {
        route := Some(LoginRoute);
      }
      loading, loadingLog := false, loadingLog + [false];
    }
  }
}
