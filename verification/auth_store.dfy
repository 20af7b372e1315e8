/**
 * The authentication store (src/stores/authStore.ts): three fields and the
 * `login` and `logout` transitions. `checkAuth`, `checked` and `register`,
 * which other files read from this store, are not defined in it.
 */
module AuthStore {
  import opened Wrappers
  import opened Js

  const UNHANDLED: string := "Error no controlado"

  /** The store's fields; `error` is `Some(JNull)` while no error is set, as the store starts and resets it to `null`. */
  datatype AuthState = AuthState(isLogged: bool, loading: bool, error: Option<Json>)

  const INITIAL: AuthState := AuthState(false, false, Some(JNull))

  /** How the login request settled: an HTTP response of any status, or a thrown value (`None` for `undefined`). */
  datatype Attempt = Resolved(status: int) | Threw(err: Option<Json>)

  /** What `login` gives its caller. */
  datatype LoginResult =
    | ResponseOf(status: int)   // the promise resolves to the response
    | Undefined                 // the catch branch ran to its end
    | Rejects                   // the catch branch itself threw

  /**
   * The catch branch reads `err?.response.data`: with no error at all the chain
   * stops at `err?` and gives `undefined`; with an error that has no `response`
   * the read of `.data` throws. `None` stands for that throw.
   */
  function CaughtError(err: Option<Json>): (e: Option<Json>)
    ensures Nullish(err) ==> e == Some(JStr(UNHANDLED))
    ensures !Nullish(err) && Nullish(Get(err, "response")) ==> e.None?
    ensures !Nullish(err) && !Nullish(Get(err, "response")) ==>
      e == Or(Get(Get(err, "response"), "data"), Some(JStr(UNHANDLED)))
    ensures e.Some? ==> Truthy(e)
  {
    if Nullish(err) then Some(JStr(UNHANDLED))
    else if Nullish(Get(err, "response")) then None
    else Or(Get(Get(err, "response"), "data"), Some(JStr(UNHANDLED)))
  }

  /** The state after `login` and what it returns. */
  function AfterLogin(s: AuthState, a: Attempt): (r: (AuthState, LoginResult))
    ensures a.Resolved? ==> r == (AuthState(true, false, Some(JNull)), ResponseOf(a.status))
    ensures r.1 == Rejects <==> a.Threw? && CaughtError(a.err).None?
    ensures r.1 == Rejects ==> r.0 == AuthState(s.isLogged, true, Some(JNull))
    ensures r.1 == Undefined <==> a.Threw? && CaughtError(a.err).Some?
    ensures r.1 == Undefined ==> r.0 == AuthState(false, false, CaughtError(a.err))
  {
    // set({loading: true, error: null})
    var started := s.(loading := true, error := Some(JNull));
    match a
    case Resolved(status) => (started.(loading := false, isLogged := true), ResponseOf(status))
    case Threw(err) =>
      match CaughtError(err)
      case None => (started, Rejects)
      case Some(e) => (started.(error := Some(e), loading := false, isLogged := false), Undefined)
  }

  /** Any HTTP status, a 401 included, marks the user as logged in. */
  lemma AnyStatusLogsIn(s: AuthState, status: int)
    ensures AfterLogin(s, Resolved(status)).0.isLogged
  {
  }

  /**
   * A network failure throws a TypeError, which carries no `response`: for any
   * error object without that property the catch branch throws too and
   * `loading` stays true.
   */
  lemma NetworkFailureLeavesLoading(s: AuthState, ms: seq<Member>)
    requires forall i :: 0 <= i < |ms| ==> ms[i].key != "response"
    ensures AfterLogin(s, Threw(Some(JObj(ms)))) == (AuthState(s.isLogged, true, Some(JNull)), Rejects)
  {
    FieldSpec(ms, "response");
  }

  /** `logout`: the user is logged out at once, whatever the server later answers. */
  function AfterLogout(s: AuthState): (t: AuthState)
    ensures !t.isLogged && t.loading == s.loading && t.error == s.error
  {
    s.(isLogged := false)
  }

  /** One call on the store. */
  datatype Op = Login(attempt: Attempt) | Logout

  function Step(s: AuthState, op: Op): AuthState {
    match op
    case Login(a) => AfterLogin(s, a).0
    case Logout => AfterLogout(s)
  }

  /** The state after a sequence of calls. */
  function Run(s: AuthState, ops: seq<Op>): AuthState
    decreases |ops|
  {
    if ops == [] then s else Run(Step(s, ops[0]), ops[1..])
  }

  /** A login whose catch branch throws. */
  predicate Stuck(op: Op) {
    op.Login? && op.attempt.Threw? && CaughtError(op.attempt.err).None?
  }

  /**
   * Starting from a state that is not loading, `loading` can only be true at
   * the end if some login threw from its catch branch.
   */
  lemma {:induction false} LoadingOnlyAfterStuckLogin(s: AuthState, ops: seq<Op>)
    requires !s.loading
    ensures Run(s, ops).loading ==> exists i :: 0 <= i < |ops| && Stuck(ops[i])
    decreases |ops|
  {
    if ops != [] {
      var t := Step(s, ops[0]);
      if Stuck(ops[0]) {
        if Run(s, ops).loading {
          assert Stuck(ops[0]);
        }
      } else {
        assert !t.loading;
        LoadingOnlyAfterStuckLogin(t, ops[1..]);
        if Run(s, ops).loading {
          var i :| 0 <= i < |ops[1..]| && Stuck(ops[1..][i]);
          assert Stuck(ops[i + 1]);
        }
      }
    }
  }

  /** Whatever happened before, a logout as the last call leaves the user logged out. */
  lemma {:induction false} LogoutLast(s: AuthState, ops: seq<Op>)
    ensures !Run(s, ops + [Logout]).isLogged
    decreases |ops|
  {
    if ops == [] {
      assert [] + [Logout] == [Logout];
    } else {
      assert (ops + [Logout])[1..] == ops[1..] + [Logout];
      LogoutLast(Step(s, ops[0]), ops[1..]);
    }
  }

  /** The store. */
  class Store {
    var isLogged: bool
    var loading: bool
    var error: Option<Json>

    function State(): AuthState
      reads this
    {
      AuthState(isLogged, loading, error)
    }

    constructor()
      ensures State() == INITIAL
    {
      isLogged := false;
      loading := false;
      error := Some(JNull);
    }

    /** `login`, run to completion against the attempt's outcome. */
    method Login(a: Attempt) returns (r: LoginResult)
      modifies this
      ensures (State(), r) == AfterLogin(old(State()), a)
    {
      loading := true;
      error := Some(JNull);
      match a {
        case Resolved(status) =>
          loading := false;
          isLogged := true;
          return ResponseOf(status);
        case Threw(err) =>
          if Nullish(err) {
            error := Some(JStr(UNHANDLED));
          } else if Nullish(Get(err, "response")) {
            return Rejects;
          } else {
            error := Or(Get(Get(err, "response"), "data"), Some(JStr(UNHANDLED)));
          }
          loading := false;
          isLogged := false;
          return Undefined;
      }
    }

    /** `logout`: the request is sent and not awaited. */
    method Logout()
      modifies this`isLogged
      ensures State() == AfterLogout(old(State()))
    {
      isLogged := false;
    }
  }
}
