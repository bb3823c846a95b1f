/** Refresh-token rotation: opaque single-use tokens, each use replacing the token by a new one
    of the same login. Every method holds the service's lock, so a run is a sequence of them. */
module RefreshTokens {
  const TTL: int := 7 * 24 * 3600

  type Token = string

  datatype Record = Record(user: string, expires: int)

  datatype Outcome = Invalid | Expired | Rotated(user: string)

  datatype Used = Used(out: Outcome, refresh: map<Token, Record>)

  /** UseRefreshToken: the presented token is spent whatever its age. */
  function Use(refresh: map<Token, Record>, t: Token, now: int, next: Token): Used {
    if t !in refresh then Used(Invalid, refresh)
    else
      var rest := refresh - {t};
      if now > refresh[t].expires then Used(Expired, rest)
      else Used(Rotated(refresh[t].user), rest[next := Record(refresh[t].user, now + TTL)])
  }

  /** A presented token is accepted if and only if it is live and not past its expiry, for the user
      it was made out to; live or not, it is not live afterwards. Its successor is accepted, as
      long as nobody presents or revokes it, until exactly TTL after the rotation. */
  lemma AcceptedIffLiveAndInTime(refresh: map<Token, Record>, t: Token, now: int, next: Token, later: int, last: Token)
    requires t != next
    ensures var u := Use(refresh, t, now, next);
            && (u.out == Rotated(if t in refresh then refresh[t].user else "")
                <==> t in refresh && now <= refresh[t].expires)
            && (u.out == Invalid <==> t !in refresh)
            && t !in u.refresh
            && (u.out.Rotated? ==>
                  && next in u.refresh
                  && (Use(u.refresh, next, later, last).out == u.out <==> later <= now + 7 * 24 * 3600))
            && (forall q :: q != t && q != next ==>
                  (q in u.refresh <==> q in refresh) && (q in refresh ==> u.refresh[q] == refresh[q]))
  {
  }

  class TokenService {
    var refresh: map<Token, Record>

    constructor ()
      ensures refresh == map[]
    {
      refresh := map[];
    }

    /** `t` is the random string just drawn. */
    method NewRefreshToken(user: string, t: Token, now: int)
      modifies this
      ensures refresh == old(refresh)[t := Record(user, now + TTL)]
    {
      refresh := refresh[t := Record(user, now + TTL)];
    }

    method UseRefreshToken(t: Token, now: int, next: Token) returns (out: Outcome)
      modifies this
      ensures Used(out, refresh) == Use(old(refresh), t, now, next)
      ensures out.Rotated? ==> t in old(refresh) && out.user == old(refresh)[t].user && next in refresh
      ensures t != next ==> t !in refresh
    {
      if t !in refresh { return Invalid; }
      var rec := refresh[t];
      refresh := refresh - {t};
      if now > rec.expires { return Expired; }
      refresh := refresh[next := Record(rec.user, now + TTL)];
      return Rotated(rec.user);
    }

    method RevokeRefreshToken(t: Token)
      modifies this
      ensures refresh == old(refresh) - {t}
    {
      refresh := refresh - {t};
    }
  }

  // ---- Runs ---------------------------------------------------------------------------

  /** An accepted token and the user it was accepted for. */
  datatype Acceptance = Acceptance(token: Token, user: string)

  /** Every token ever issued has a `login`, the first token of its lineage; `userOf` is whose
      login it is and `latest` the newest token of the lineage. */
  datatype State = State(refresh: map<Token, Record>, login: map<Token, Token>,
                         userOf: map<Token, string>, latest: map<Token, Token>,
                         accepted: seq<Acceptance>)

  const START := State(map[], map[], map[], map[], [])

  datatype Event =
    | Login(user: string, t: Token, now: int)
    | Present(t: Token, now: int, next: Token)
    | Revoke(t: Token)

  /** Newly drawn tokens have never been issued before; an event that reuses one is no step. */
  function Step(s: State, e: Event): State {
    match e
    case Login(user, t, now) =>
      if t in s.login then s
      else State(s.refresh[t := Record(user, now + TTL)], s.login[t := t], s.userOf[t := user],
                 s.latest[t := t], s.accepted)
    case Present(t, now, next) =>
      if next in s.login || next == t then s
      else
        var u := Use(s.refresh, t, now, next);
        if !u.out.Rotated? || t !in s.login then s.(refresh := u.refresh)
        else s.(refresh := u.refresh, login := s.login[next := s.login[t]],
                latest := s.latest[s.login[t] := next],
                accepted := s.accepted + [Acceptance(t, u.out.user)])
    case Revoke(t) => s.(refresh := s.refresh - {t})
  }

  function Exec(s: State, es: seq<Event>): State
    decreases |es|
  {
    if es == [] then s else Exec(Step(s, es[0]), es[1..])
  }

  predicate LiveSound(s: State, t: Token)
    requires t in s.refresh
  {
    && t in s.login
    && s.login[t] in s.userOf && s.login[t] in s.latest
    && s.latest[s.login[t]] == t
    && s.refresh[t].user == s.userOf[s.login[t]]
  }

  predicate AcceptedSound(s: State, i: int)
    requires 0 <= i < |s.accepted|
  {
    var a := s.accepted[i];
    && a.token in s.login && a.token !in s.refresh
    && s.login[a.token] in s.userOf && a.user == s.userOf[s.login[a.token]]
  }

  predicate LoginSound(s: State, t: Token)
    requires t in s.login
  {
    s.login[t] in s.login && s.login[t] in s.userOf
  }

  ghost predicate Inv(s: State) {
    && (forall t :: t in s.refresh ==> LiveSound(s, t))
    && (forall t :: t in s.login ==> LoginSound(s, t))
    && (forall i :: 0 <= i < |s.accepted| ==> AcceptedSound(s, i))
    && (forall i, j :: 0 <= i < j < |s.accepted| ==> s.accepted[i].token != s.accepted[j].token)
  }

  lemma LoginKeepsInv(s: State, user: string, t: Token, now: int)
    requires Inv(s) && t !in s.login
    ensures Inv(Step(s, Login(user, t, now)))
  {
    var u := Step(s, Login(user, t, now));
    forall q | q in u.refresh ensures LiveSound(u, q) {
      if q != t {
        assert LiveSound(s, q);
        assert LoginSound(s, q);
      }
    }
    forall q | q in u.login ensures LoginSound(u, q) { assert q != t ==> LoginSound(s, q); }
    forall i | 0 <= i < |u.accepted| ensures AcceptedSound(u, i) {
      assert AcceptedSound(s, i);
      assert LoginSound(s, s.accepted[i].token);
    }
  }

  lemma RotationKeepsInv(s: State, t: Token, now: int, next: Token)
    requires Inv(s) && next !in s.login && next != t && t in s.refresh && now <= s.refresh[t].expires
    ensures Inv(Step(s, Present(t, now, next)))
  {
    var u := Step(s, Present(t, now, next));
    assert LiveSound(s, t) && LoginSound(s, t);
    forall q | q in u.refresh ensures LiveSound(u, q) {
      if q != next { assert LiveSound(s, q); }
    }
    forall q | q in u.login ensures LoginSound(u, q) { assert q != next ==> LoginSound(s, q); }
    forall i | 0 <= i < |u.accepted| ensures AcceptedSound(u, i) {
      assert i < |s.accepted| ==> AcceptedSound(s, i);
    }
    forall i, j | 0 <= i < j < |u.accepted| ensures u.accepted[i].token != u.accepted[j].token {
      assert i < |s.accepted| ==> AcceptedSound(s, i);
    }
  }

  lemma RemovalKeepsInv(s: State, u: State, t: Token)
    requires Inv(s) && u == s.(refresh := s.refresh - {t})
    ensures Inv(u)
  {
    forall q | q in u.refresh ensures LiveSound(u, q) { assert LiveSound(s, q); }
    forall q | q in u.login ensures LoginSound(u, q) { assert LoginSound(s, q); }
    forall i | 0 <= i < |u.accepted| ensures AcceptedSound(u, i) { assert AcceptedSound(s, i); }
  }

  lemma StepKeepsInv(s: State, e: Event)
    requires Inv(s)
    ensures Inv(Step(s, e))
  {
    match e
    case Login(user, t, now) => if t !in s.login { LoginKeepsInv(s, user, t, now); }
    case Revoke(t) => RemovalKeepsInv(s, Step(s, e), t);
    case Present(t, now, next) =>
      if next !in s.login && next != t && t in s.refresh {
        assert LiveSound(s, t);
        if now <= s.refresh[t].expires { RotationKeepsInv(s, t, now, next); }
        else { RemovalKeepsInv(s, Step(s, e), t); }
      }
  }

  lemma {:induction false} ExecKeepsInv(s: State, es: seq<Event>)
    requires Inv(s)
    ensures Inv(Exec(s, es))
    decreases |es|
  {
    if es != [] {
      StepKeepsInv(s, es[0]);
      ExecKeepsInv(Step(s, es[0]), es[1..]);
    }
  }

  /** A token from a login is accepted for its user until exactly TTL later, if it is not presented
      or revoked before. */
  lemma FreshTokenLastsTTL(s: State, user: string, t: Token, now: int, later: int, next: Token)
    requires t !in s.login
    ensures Use(Step(s, Login(user, t, now)).refresh, t, later, next).out
            == if later <= now + 7 * 24 * 3600 then Rotated(user) else Expired
  {
  }

  // ---- Main results -------------------------------------------------------------------

  /** On every run each token is accepted at most once, and every acceptance is for the user of
      the login the token descends from. */
  lemma AcceptedOnceForItsUser(es: seq<Event>, i: int, j: int)
    requires 0 <= i < |Exec(START, es).accepted| && 0 <= j < |Exec(START, es).accepted|
    ensures var s := Exec(START, es);
            && (s.accepted[i].token == s.accepted[j].token <==> i == j)
            && s.accepted[i].token in s.login && s.login[s.accepted[i].token] in s.userOf
            && s.accepted[i].user == s.userOf[s.login[s.accepted[i].token]]
  {
    ExecKeepsInv(START, es);
    assert AcceptedSound(Exec(START, es), i);
  }

  /** Every login has at most one live token, the newest of its lineage, made out to its user. */
  lemma OneLiveTokenPerLogin(es: seq<Event>, t: Token, u: Token)
    requires t in Exec(START, es).refresh
    ensures var s := Exec(START, es);
            && t in s.login && s.login[t] in s.userOf
            && s.refresh[t].user == s.userOf[s.login[t]]
            && (u in s.refresh && u in s.login && s.login[u] == s.login[t] ==> u == t)
  {
    ExecKeepsInv(START, es);
    var s := Exec(START, es);
    assert LiveSound(s, t);
    if u in s.refresh { assert LiveSound(s, u); }
  }

  ghost predicate LoggedOut(s: State, login: Token) {
    login in s.login && forall t :: t in s.refresh && t in s.login ==> s.login[t] != login
  }

  /** Revoking the live token, or presenting it after it expired, ends the login. */
  lemma EndsTheLogin(s: State, t: Token, now: int, next: Token)
    requires Inv(s) && t in s.refresh
    ensures t in s.login && LoggedOut(Step(s, Revoke(t)), s.login[t])
    ensures now > s.refresh[t].expires && next !in s.login && next != t ==>
              LoggedOut(Step(s, Present(t, now, next)), s.login[t])
  {
    assert LiveSound(s, t) && LoginSound(s, t);
    forall u | u in s.refresh && u != t ensures s.login[u] != s.login[t] { assert LiveSound(s, u); }
  }

  /** The acceptances of tokens that descend from a login. */
  function AcceptancesOf(s: State, login: Token): set<nat> {
    set i: nat | i < |s.accepted| && s.accepted[i].token in s.login && s.login[s.accepted[i].token] == login
  }

  /** A step that keeps the lineage of every accepted token and adds no acceptance of `login`. */
  lemma SameAcceptances(s: State, u: State, login: Token)
    requires Inv(s) && |s.accepted| <= |u.accepted|
    requires forall i :: 0 <= i < |s.accepted| ==> u.accepted[i] == s.accepted[i]
    requires forall q :: q in s.login ==> q in u.login && u.login[q] == s.login[q]
    requires forall i :: |s.accepted| <= i < |u.accepted| ==>
               u.accepted[i].token in u.login && u.login[u.accepted[i].token] != login
    ensures AcceptancesOf(u, login) == AcceptancesOf(s, login)
  {
    forall i | 0 <= i < |s.accepted| ensures s.accepted[i].token in s.login { assert AcceptedSound(s, i); }
  }

  lemma LoginKeepsLoggedOut(s: State, user: string, t: Token, now: int, login: Token)
    requires Inv(s) && LoggedOut(s, login) && t !in s.login
    ensures LoggedOut(Step(s, Login(user, t, now)), login)
    ensures AcceptancesOf(Step(s, Login(user, t, now)), login) == AcceptancesOf(s, login)
  {
    SameAcceptances(s, Step(s, Login(user, t, now)), login);
  }

  lemma StepKeepsLoggedOut(s: State, e: Event, login: Token)
    requires Inv(s) && LoggedOut(s, login)
    ensures LoggedOut(Step(s, e), login)
    ensures AcceptancesOf(Step(s, e), login) == AcceptancesOf(s, login)
  {
    match e
    case Login(user, t, now) => if t !in s.login { LoginKeepsLoggedOut(s, user, t, now, login); }
    case Revoke(t) =>
    case Present(t, now, next) =>
      if next !in s.login && next != t && t in s.refresh && now <= s.refresh[t].expires {
      }
  }

  /** A login that has ended never comes back: no token of its lineage, old or new, is ever
      accepted again. */
  lemma {:induction false} LoggedOutForEver(s: State, es: seq<Event>, login: Token)
    requires Inv(s) && LoggedOut(s, login)
    ensures LoggedOut(Exec(s, es), login)
    ensures AcceptancesOf(Exec(s, es), login) == AcceptancesOf(s, login)
    decreases |es|
  {
    if es != [] {
      StepKeepsInv(s, es[0]);
      StepKeepsLoggedOut(s, es[0], login);
      LoggedOutForEver(Step(s, es[0]), es[1..], login);
    }
  }

  /** Revoking a login's live token, or presenting it too late, at any point of any run: from
      then on no token of that login is accepted. */
  lemma EndedLoginsStayEnded(es: seq<Event>, t: Token, now: int, next: Token, more: seq<Event>, revoked: bool)
    requires t in Exec(START, es).refresh
    requires revoked || (now > Exec(START, es).refresh[t].expires && next !in Exec(START, es).login && next != t)
    ensures var s := Exec(START, es);
            var e := if revoked then Revoke(t) else Present(t, now, next);
            && t in s.login
            && AcceptancesOf(Exec(Step(s, e), more), s.login[t]) == AcceptancesOf(Step(s, e), s.login[t])
  {
    ExecKeepsInv(START, es);
    var s := Exec(START, es);
    var e := if revoked then Revoke(t) else Present(t, now, next);
    EndsTheLogin(s, t, now, next);
    StepKeepsInv(s, e);
    LoggedOutForEver(Step(s, e), more, s.login[t]);
  }

  /** Theft is noticed: after a token has been used, by whomever, its second presenter fails. */
  lemma SecondUseFails(es: seq<Event>, i: int, now: int, next: Token)
    requires 0 <= i < |Exec(START, es).accepted|
    ensures var s := Exec(START, es); Use(s.refresh, s.accepted[i].token, now, next).out == Invalid
  {
    ExecKeepsInv(START, es);
    assert AcceptedSound(Exec(START, es), i);
  }
}
