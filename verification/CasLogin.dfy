/** The two-leg single sign-on of CrossworkCasAuth: what each answer of the login endpoint
    means, and what login, logout and re-login do to the cached token and ticket. */
module CasLogin {
  import opened Options
  import opened Strings

  /** An HTTP answer: body is stripped text, error the lower-cased `error` field.  NoAnswer: the
      transport failed. */
  datatype Reply = Response(status: int, body: string, error: string) | NoAnswer

  datatype LoginError = BadCredentials | SessionLimit | TicketRefused | NotATicket
                      | ExchangeRefused | NotAJwt | Unreachable

  datatype Outcome<T> = Got(value: T) | Failed(why: LoginError)

  /** The cached JWT and the ticket-granting ticket that names its session. */
  datatype Auth = Auth(token: Option<string>, tgt: Option<string>)

  const TICKET_PREFIX := "TGT-"
  const SESSION_LIMIT := "session limit"

  predicate IsSuccess(status: int) {
    200 <= status < 300
  }

  function Dots(s: string): nat {
    if s == "" then 0 else (if s[0] == '.' then 1 else 0) + Dots(s[1..])
  }

  /** What leg 1 answered. */
  function TicketOf(r: Reply): (o: Outcome<string>)
    ensures o.Got? <==> r.Response? && 200 <= r.status < 300 && "TGT-" <= r.body
    ensures o.Got? ==> o.value == r.body
    ensures o == Failed(BadCredentials) <==> r.Response? && r.status in {401, 403}
    ensures o == Failed(SessionLimit) <==> r.Response? && r.status == 503 && Contains(r.error, "session limit")
    ensures o == Failed(NotATicket) <==> r.Response? && 200 <= r.status < 300 && !("TGT-" <= r.body)
    ensures o == Failed(Unreachable) <==> r.NoAnswer?
  {
    if r.NoAnswer? then Failed(Unreachable)
    else if r.status == 401 || r.status == 403 then Failed(BadCredentials)
    else if r.status == 503 && Contains(r.error, SESSION_LIMIT) then Failed(SessionLimit)
    else if !IsSuccess(r.status) then Failed(TicketRefused)
    else if !(TICKET_PREFIX <= r.body) then Failed(NotATicket)
    else Got(r.body)
  }

  /** What leg 2 answered. */
  function JwtOf(r: Reply): (o: Outcome<string>)
    ensures o.Got? <==> r.Response? && 200 <= r.status < 300 && Dots(r.body) == 2
    ensures o.Got? ==> o.value == r.body
    ensures o == Failed(ExchangeRefused) <==> r.Response? && !(200 <= r.status < 300)
    ensures o == Failed(NotAJwt) <==> r.Response? && 200 <= r.status < 300 && Dots(r.body) != 2
  {
    if r.NoAnswer? then Failed(Unreachable)
    else if !IsSuccess(r.status) then Failed(ExchangeRefused)
    else if Dots(r.body) != 2 then Failed(NotAJwt)
    else Got(r.body)
  }

  /** Both legs: the cache after the login, and why it failed. */
  function LoggedIn(a: Auth, leg1: Reply, leg2: Reply): (Auth, Option<LoginError>) {
    match TicketOf(leg1)
    case Failed(why) => (a, Some(why))
    case Got(tgt) =>
      match JwtOf(leg2)
      case Failed(why) => (a, Some(why))
      case Got(token) => (Auth(Some(token), Some(tgt)), None)
  }

  /** The ticket is forgotten before the DELETE is sent; the token only once it is answered. */
  function TicketTaken(a: Auth): Auth {
    a.(tgt := None)
  }

  function LoggedOut(a: Auth, deleted: Reply): Auth {
    if a.tgt.None? || deleted.NoAnswer? then TicketTaken(a) else Auth(None, None)
  }

  function ReLoggedIn(a: Auth, deleted: Reply, leg1: Reply, leg2: Reply): (Auth, Option<LoginError>) {
    LoggedIn(LoggedOut(a, deleted).(token := None), leg1, leg2)
  }

  /** Another task has already replaced the token the failed request carried. */
  predicate Superseded(a: Auth, failed: Option<string>) {
    a.token.Some? && failed.Some? && a.token != failed
  }

  // -- what the methods come to ----------------------------------------------------------------------

  predicate Succeeds(r: Reply) {
    r.Response? && 200 <= r.status < 300
  }

  /** A login replaces ticket and token together, once both answers are good; otherwise it changes nothing. */
  lemma LoginMeans(a: Auth, leg1: Reply, leg2: Reply)
    ensures var (after, error) := LoggedIn(a, leg1, leg2);
      && (error.None? <==> Succeeds(leg1) && "TGT-" <= leg1.body && Succeeds(leg2) && Dots(leg2.body) == 2)
      && (error.None? ==> after == Auth(Some(leg2.body), Some(leg1.body)))
      && (error.Some? ==> after == a)
  {
    hide Dots;
  }

  /** A logout forgets the ticket whatever happens; the token goes with it once the DELETE is answered, even
      by a refusal, and stays when no answer comes or there was no session to delete. */
  lemma LogoutMeans(a: Auth, deleted: Reply)
    ensures LoggedOut(a, deleted).tgt.None?
    ensures LoggedOut(a, deleted).token == if a.tgt.Some? && deleted.Response? then None else a.token
  {}

  /** After a re-login the rejected token is gone, whether or not the login that follows works. */
  lemma ReloginMeans(a: Auth, deleted: Reply, leg1: Reply, leg2: Reply)
    ensures var (after, error) := ReLoggedIn(a, deleted, leg1, leg2);
      after == if error.None? then Auth(Some(leg2.body), Some(leg1.body)) else Auth(None, None)
  {
    hide Dots;
  }

  predicate DotFree(s: string) {
    forall i :: 0 <= i < |s| ==> s[i] != '.'
  }

  predicate ThreeParts(s: string, a: string, b: string, c: string) {
    DotFree(a) && DotFree(b) && DotFree(c) && s == a + "." + b + "." + c
  }

  /** A token is accepted exactly if its text is three parts without a dot, joined by dots. */
  lemma TokenShape(s: string)
    ensures Dots(s) == 2 <==> exists a, b, c :: ThreeParts(s, a, b, c)
  {
    hide Dots, DotFree;
    if a, b, c :| ThreeParts(s, a, b, c) { TwoDots(s, a, b, c); }
    if Dots(s) == 2 {
      var a, rest := CutAtDot(s);
      var b, c := CutAtDot(rest);
      NoDots(c);
      assert a + "." + (b + "." + c) == a + "." + b + "." + c;
      assert ThreeParts(s, a, b, c);
    }
  }

  lemma TwoDots(s: string, a: string, b: string, c: string)
    requires ThreeParts(s, a, b, c)
    ensures Dots(s) == 2
  {
    hide DotFree;
    DotThen(a, b + "." + c);
    DotThen(b, c);
    assert s == a + "." + (b + "." + c);
    assert c + "" == c;
    DotsAfter(c, "");
  }

  lemma DotThen(a: string, rest: string)
    requires DotFree(a)
    ensures Dots(a + "." + rest) == 1 + Dots(rest)
  {
    var tail := "." + rest;
    assert a + "." + rest == a + tail && tail[1..] == rest;
    DotsAfter(a, tail);
  }

  lemma {:induction false} DotsAfter(a: string, rest: string)
    requires DotFree(a)
    ensures Dots(a + rest) == Dots(rest)
    decreases |a|
  {
    if a == "" {
      assert a + rest == rest;
    } else {
      DotsAfter(a[1..], rest);
      assert (a + rest)[1..] == a[1..] + rest;
    }
  }

  lemma {:induction false} CutAtDot(s: string) returns (a: string, rest: string)
    requires Dots(s) > 0
    ensures DotFree(a) && s == a + "." + rest && Dots(rest) == Dots(s) - 1
    decreases |s|
  {
    if s[0] == '.' {
      a, rest := "", s[1..];
    } else {
      var b, r := CutAtDot(s[1..]);
      a, rest := [s[0]] + b, r;
      assert s == [s[0]] + s[1..];
    }
  }

  lemma {:induction false} NoDots(s: string)
    requires Dots(s) == 0
    ensures DotFree(s)
  {
    if s == "" {
    } else {
      NoDots(s[1..]);
      forall i | 0 <= i < |s| ensures s[i] != '.' { if i > 0 { assert s[1..][i - 1] == s[i]; } }
    }
  }

  /** The strategy object.  Its methods run under the lock, so nothing else writes its fields
      while they await; the answers they await are parameters. */
  class CasAuth {
    var token: Option<string>
    var tgt: Option<string>

    ghost function Cached(): Auth
      reads this
    {
      Auth(token, tgt)
    }

    constructor ()
      ensures Cached() == Auth(None, None)
    {
      token, tgt := None, None;
    }

    method Login(leg1: Reply, leg2: Reply) returns (error: Option<LoginError>)
      modifies this
      ensures (Cached(), error) == LoggedIn(old(Cached()), leg1, leg2)
    {
      var first := TicketOf(leg1);
      if first.Failed? { return Some(first.why); }
      var second := JwtOf(leg2);
      if second.Failed? { return Some(second.why); }
      token := Some(second.value);
      tgt := Some(first.value);
      error := None;
    }

    /** The DELETE carries the token still cached: sent tells which, if it is sent at all. */
    method Logout(deleted: Reply) returns (sent: Option<(string, Option<string>)>)
      modifies this
      ensures Cached() == LoggedOut(old(Cached()), deleted)
      ensures sent == if old(tgt).None? then None else Some((old(tgt).value, old(token)))
    {
      var ticket := tgt;
      tgt := None;
      if ticket.None? { return None; }
      sent := Some((ticket.value, token));
      if deleted.NoAnswer? { return; }
      token := None;
    }

    method Relogin(deleted: Reply, leg1: Reply, leg2: Reply) returns (error: Option<LoginError>)
      modifies this
      ensures (Cached(), error) == ReLoggedIn(old(Cached()), deleted, leg1, leg2)
    {
      var _ := Logout(deleted);
      token := None;
      error := Login(leg1, leg2);
    }

    method EnsureAuthenticated(leg1: Reply, leg2: Reply) returns (error: Option<LoginError>)
      modifies this
      ensures (Cached(), error)
        == if old(token).Some? then (old(Cached()), None) else LoggedIn(old(Cached()), leg1, leg2)
    {
      error := None;
      if token.None? { error := Login(leg1, leg2); }
    }

    /** No error means the request is to be sent again with the token now cached. */
    method HandleUnauthorized(failed: Option<string>, deleted: Reply, leg1: Reply, leg2: Reply)
      returns (error: Option<LoginError>)
      modifies this
      ensures (Cached(), error)
        == if Superseded(old(Cached()), failed) then (old(Cached()), None)
           else ReLoggedIn(old(Cached()), deleted, leg1, leg2)
    {
      if token.Some? && failed.Some? && token != failed { return None; }
      error := Relogin(deleted, leg1, leg2);
    }
  }
}
