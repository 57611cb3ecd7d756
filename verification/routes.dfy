/** The client-side routes the pages navigate to. */
module Routes {
  import opened Wrappers

  datatype Route = LoginRoute | ResidentHome | MerchantHome

  function Path(r: Route): string
  {
    match r
    case LoginRoute => "/login"
    case ResidentHome => "/associado/cupons"
    case MerchantHome => "/comerciante/cupons"
  }

  /** `checkAuth` on both dashboards: without a session, go to the login page. */
  function SessionGate(hasSession: bool): (r: Option<Route>)
    ensures r.Some? <==> !hasSession
    ensures r.Some? ==> Path(r.value) == "/login"
  {
    if hasSession then None else Some(LoginRoute)
  }
}
