/** The login page (`/login`): an open session or a successful sign-in sends a
    resident to the resident dashboard and everyone else to the merchant one. */
module Login {
  import opened Wrappers
  import opened Seqs
  import opened Backend
  import opened Routes
  import opened Registration

  /** Where a signed-in user goes: the resident dashboard when the `associado`
      lookup found a row, the merchant dashboard otherwise. */
  function Dispatch(profile: Option<Resident>): (r: Route)
    ensures r == ResidentHome <==> profile.Some?
    ensures r == MerchantHome <==> profile.None?
  {
    if profile.Some? then ResidentHome else MerchantHome
  }

  /** A user counts as a resident exactly when the lookup succeeds and one
      `associado` row carries the user's id; a failed lookup, no row, or two
      rows all lead to the merchant dashboard. */
  lemma DispatchIsResidentIff(residents: seq<Resident>, uid: UserId, down: set<Step>)
    ensures Dispatch(LookupResident(residents, uid, down)) == ResidentHome <==>
      ResidentLookup !in down && OneResidentOf(residents, uid)
  {
  }

  /** Signing up and then logging in: the resident form's row makes its user a
      resident, while a merchant sign-up, which adds no `associado` row, leads
      to the merchant dashboard. */
  lemma SignUpThenDispatch(residents: seq<Resident>, f: ResidentForm, uid: UserId, cpf: nat)
    requires forall a :: a in residents ==> a.userId != Some(uid)
    ensures Dispatch(LookupResident(residents + [ResidentRow(f, uid, cpf)], uid, {})) == ResidentHome
    ensures Dispatch(LookupResident(residents, uid, {})) == MerchantHome
  {
    var after := residents + [ResidentRow(f, uid, cpf)];
    forall j | 0 <= j < |after| && j != |residents|
      ensures after[j].userId != Some(uid)
    {
      assert after[j] == residents[j];
    }
    SingleOfOne(after, (a: Resident) => a.userId == Some(uid), |residents|);
  }

  /** What `supabase.auth.signInWithPassword` answered: an error, or data whose
      `user` may be missing. */
  datatype SignInOutcome = SignInFailed | SignedIn(user: Option<UserId>)

  class LoginPage {
    var loading: bool
    /** The values `loading` has taken, in order. */
    ghost var loadingLog: seq<bool>

    /** The state the page mounts with. */
    constructor ()
      ensures !loading && loadingLog == []
    {
      loading, loadingLog := false, [];
    }

    /** `checkSession`, run on mount: with an open session, look the user up
        and go to the matching dashboard; without one, stay. */
    method CheckSession(session: Option<UserId>, store: Store, down: set<Step>)
      returns (calls: seq<Step>, route: Option<Route>)
      ensures session.None? ==> calls == [] && route.None?
      ensures session.Some? ==>
        && calls == [ResidentLookup]
        && route == Some(Dispatch(LookupResident(store.residents, session.value, down)))
    {
      calls, route := [], None;
      if session.Some? {
        var profile := LookupResident(store.residents, session.value, down);
        calls := [ResidentLookup];
        route := Some(Dispatch(profile));
      }
    }

    /** `handleLogin`: sign in with the typed credentials, then look the user
        up and go to the matching dashboard. A sign-in error stops there. */
    method HandleLogin(signIn: SignInOutcome, store: Store, down: set<Step>)
      returns (calls: seq<Step>, route: Option<Route>)
      modifies this`loading, this`loadingLog
      ensures !loading && loadingLog == old(loadingLog) + [true, false]
      ensures signIn.SignInFailed? || signIn.user.None? ==> calls == [SignInCall] && route.None?
      ensures signIn.SignedIn? && signIn.user.Some? ==>
        && calls == [SignInCall, ResidentLookup]
        && route == Some(Dispatch(LookupResident(store.residents, signIn.user.value, down)))
    {
      loading, loadingLog := true, loadingLog + [true];
      calls, route := [SignInCall], None;
      if signIn.SignedIn? && signIn.user.Some? {
        var profile := LookupResident(store.residents, signIn.user.value, down);
        calls := [SignInCall, ResidentLookup];
        route := Some(Dispatch(profile));
      }
      loading, loadingLog := false, loadingLog + [false];
    }
  }
}
