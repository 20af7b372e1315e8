/**
 * The route guard (src/components/ProtectedRoute.tsx): a decision over the
 * authentication store's `loading` and `isLogged` flags.
 */
module ProtectedRoute {
  datatype Guard =
    | Placeholder                         // the "Cargando..." element
    | Redirect(to: string, replace: bool)
    | Children

  /** `loading` is tested first, then `isLogged`. */
  function Decide(loading: bool, isLogged: bool): (g: Guard)
    ensures loading ==> g == Placeholder
    ensures !loading && !isLogged ==> g == Redirect("/login", true)
    ensures !loading && isLogged ==> g == Children
  {
    if loading then Placeholder
    else if !isLogged then Redirect("/login", true)
    else Children
  }

  /** The children render exactly when the store is settled and the user is logged in. */
  lemma ChildrenIff(loading: bool, isLogged: bool)
    ensures Decide(loading, isLogged) == Children <==> !loading && isLogged
    ensures Decide(loading, isLogged).Redirect? <==> !loading && !isLogged
  {
  }

  /** While loading, `isLogged` makes no difference. */
  lemma LoadingHidesLogin(isLogged: bool)
    ensures Decide(true, isLogged) == Decide(true, !isLogged)
  {
  }
}
