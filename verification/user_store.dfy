/**
 * The user store (src/stores/userStore.tsx): the cached user record and the
 * `getUser` transition with its try/catch/finally.
 */
module UserStore {
  import opened Wrappers
  import opened Js
  import opened Http

  const FETCH_FAILED: string := "Error inesperado tratando de obtener los datos del usuario"

  datatype UserState = UserState(user: Json, loadingUser: bool, hydrated: bool)

  const INITIAL: UserState := UserState(JNull, false, false)

  /**
   * The state after `getUser` and the message of the error it throws, if any.
   * Only an ok response whose body parses replaces `user`; a rejected fetch or
   * an unparsable ok body is rethrown with a fixed message.
   */
  function AfterGetUser(s: UserState, reply: Reply): (r: (UserState, Option<string>))
    ensures !r.0.loadingUser && r.0.hydrated
    ensures r.0.user != s.user ==> reply.Responded? && reply.ok && reply.parsed == Ok(r.0.user)
    ensures reply.Responded? && reply.ok && reply.parsed.Ok? ==> r.0.user == reply.parsed.value && r.1.None?
    ensures r.1.Some? <==> reply.Rejected? || (reply.ok && reply.parsed.Err?)
    ensures r.1.Some? ==> r.1.value == FETCH_FAILED && r.0.user == s.user
  {
    var done := s.(loadingUser := false, hydrated := true);
    match reply
    case Rejected(_) => (done, Some(FETCH_FAILED))
    case Responded(ok, _, _, parsed, _) =>
      if !ok then (done, None)
      else match parsed
        case Err(_) => (done, Some(FETCH_FAILED))
        case Ok(data) => (done.(user := data), None)
  }

  /** The user after a sequence of `getUser` calls. */
  function Run(s: UserState, replies: seq<Reply>): UserState
    decreases |replies|
  {
    if replies == [] then s else Run(AfterGetUser(s, replies[0]).0, replies[1..])
  }

  /** A reply that replaces the user. */
  predicate Delivers(reply: Reply) {
    reply.Responded? && reply.ok && reply.parsed.Ok?
  }

  /**
   * After any non-empty sequence of calls the store is hydrated and not loading,
   * and the user is the payload of the last delivering reply, or the starting
   * user when none delivered.
   */
  lemma {:induction false} RunKeepsLastDelivered(s: UserState, replies: seq<Reply>)
    ensures replies != [] ==> Run(s, replies).hydrated && !Run(s, replies).loadingUser
    ensures (forall i :: 0 <= i < |replies| ==> !Delivers(replies[i])) ==> Run(s, replies).user == s.user
    ensures forall i ::
      (0 <= i < |replies| && Delivers(replies[i]) && (forall j :: i < j < |replies| ==> !Delivers(replies[j]))) ==>
        Run(s, replies).user == replies[i].parsed.value
    decreases |replies|
  {
    if replies != [] {
      var t := AfterGetUser(s, replies[0]).0;
      RunKeepsLastDelivered(t, replies[1..]);
      var rest := replies[1..];
      assert forall i :: 1 <= i < |replies| ==> replies[i] == rest[i - 1];
      if rest != [] {
        assert Run(s, replies) == Run(t, rest);
      }
      forall i | 0 <= i < |replies| && Delivers(replies[i]) && (forall j :: i < j < |replies| ==> !Delivers(replies[j]))
        ensures Run(s, replies).user == replies[i].parsed.value
      {
        if i > 0 {
          assert Delivers(rest[i - 1]);
          assert forall j :: i - 1 < j < |rest| ==> !Delivers(rest[j]);
        } else {
          assert forall j :: 0 <= j < |rest| ==> !Delivers(rest[j]);
        }
      }
    }
  }

  /** The store. */
  class Store {
    var user: Json
    var loadingUser: bool
    var hydrated: bool

    function State(): UserState
      reads this
    {
      UserState(user, loadingUser, hydrated)
    }

    constructor()
      ensures State() == INITIAL
    {
      user := JNull;
      loadingUser := false;
      hydrated := false;
    }

    /** `getUser`, run to completion; `thrown` is the message it rejects with. */
    method GetUser(reply: Reply) returns (thrown: Option<string>)
      modifies this
      ensures (State(), thrown) == AfterGetUser(old(State()), reply)
    {
      loadingUser := true;
      thrown := None;
      match reply {
        case Rejected(_) =>
          thrown := Some(FETCH_FAILED);
        case Responded(ok, _, _, parsed, _) =>
          if ok {
            match parsed {
              case Err(_) =>
                thrown := Some(FETCH_FAILED);
              case Ok(data) =>
                user := data;
            }
          }
      }
      loadingUser := false;
      hydrated := true;
    }
  }
}
