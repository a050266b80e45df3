/** Concurrent requests sharing one single-sign-on session: a transition system whose steps are
    the stretches of code between awaits.  Tasks hold a concurrency slot for the whole request
    and the login lock while they log in; the server and the transport answer anything. */
module Session {
  import opened Options
  import opened CasLogin

  /** Where a task is suspended. */
  datatype Pc =
    | Idle
    | AwaitSlot
    | AwaitLock(why: Why)
    | Deleting(tgt: string, failed: Option<string>)   // logout's DELETE is in flight
    | Leg1
    | Leg2(tgt: string)
    | InFlight(token: Option<string>)                 // the API request, with the token it carries
    | Sleeping                                        // backoff, slot held

  datatype Why = Ensuring | Reauthenticating(failed: Option<string>)

  /** sends: a request, rather than a bare ensure_authenticated. */
  datatype Task = Task(pc: Pc, sends: bool, reauthed: bool)

  /** What the tasks share, and live, the sessions open on the server.  The rest is history:
      sessions whose DELETE, second leg or first answer did not succeed, tokens issued, rejected
      and discarded, successful logins, whether a token was issued twice, whether the token
      cached is one whose DELETE was abandoned. */
  datatype Shared = Shared(lock: Option<nat>, permits: nat, auth: Auth, live: set<string>,
                           undeleted: set<string>, stranded: set<string>, lost: set<string>,
                           issued: set<string>, rejected: set<string>, discarded: set<string>,
                           logins: nat, reissued: bool, abandoned: bool)

  datatype World = World(tasks: seq<Task>, shared: Shared)

  /** A stretch's effect: the shared state and the task at its next await. */
  datatype Next = Next(shared: Shared, task: Task)

  /** How an API answer is handled: as an auth failure, by backing off, or by returning. */
  datatype Verdict = AuthFailure | BackOff | Final

  /** minted: a session the server opens although no answer brings its ticket.  gone: whether
      the session is released although the DELETE was not confirmed. */
  datatype Action =
    | Begin(sends: bool)
    | TakeSlot
    | TakeLock
    | DeleteAnswered(r: Reply, gone: bool)
    | Leg1Answered(r: Reply, minted: Option<string>)
    | Leg2Answered(r: Reply)
    | ApiAnswered(v: Verdict)
    | Wake
    | Cancel(minted: Option<string>)

  datatype Event = Act(i: nat, action: Action) | Expire(ticket: string)

  function Initial(tasks: nat, slots: nat): World {
    World(seq(tasks, i => Task(Idle, false, false)),
          Shared(None, slots, Auth(None, None), {}, {}, {}, {}, {}, {}, {}, 0, false, false))
  }

  predicate HoldsLock(pc: Pc) {
    pc.Deleting? || pc.Leg1? || pc.Leg2?
  }

  predicate HoldsSlot(pc: Pc) {
    !pc.Idle? && !pc.AwaitSlot?
  }

  /** The call ends, by a result or an exception: lock and slot are released. */
  function Finish(sh: Shared, t: Task): Next {
    Next(sh.(lock := if HoldsLock(t.pc) then None else sh.lock,
             permits := if HoldsSlot(t.pc) then sh.permits + 1 else sh.permits),
         t.(pc := Idle))
  }

  /** Authenticated: send the request with the headers as they are now. */
  function Proceed(sh: Shared, t: Task): Next {
    if t.sends then Next(sh, t.(pc := InFlight(sh.auth.token))) else Finish(sh, t)
  }

  /** The top of the retry loop: log in under the lock unless a token is cached. */
  function LoopTop(sh: Shared, t: Task): Next {
    if sh.auth.token.None? then Next(sh, t.(pc := AwaitLock(Ensuring))) else Proceed(sh, t)
  }

  function CachedToken(a: Auth): set<string> {
    if a.token.Some? then {a.token.value} else {}
  }

  function Discard(sh: Shared): Shared {
    sh.(auth := sh.auth.(token := None), discarded := sh.discarded + CachedToken(sh.auth), abandoned := false)
  }

  /** What the new lock holder does up to its next await. */
  function Locked(sh: Shared, i: nat, t: Task, why: Why): Next {
    match why
    case Ensuring =>
      if sh.auth.token.Some? then Proceed(sh, t)                  // re-check: another task logged in
      else Next(sh.(lock := Some(i)), t.(pc := Leg1))
    case Reauthenticating(failed) =>
      if Superseded(sh.auth, failed) then LoopTop(sh, t)
      else if sh.auth.tgt.None? then Next(Discard(sh).(lock := Some(i)), t.(pc := Leg1))
      else Next(sh.(lock := Some(i), auth := TicketTaken(sh.auth)), t.(pc := Deleting(sh.auth.tgt.value, failed)))
  }

  /** Whatever the DELETE answered, the rejected token is discarded and leg 1 is sent. */
  function AfterDelete(sh: Shared, t: Task, tgt: string, r: Reply, gone: bool): Next {
    var released := r.Response? && IsSuccess(r.status);
    Next(Discard(sh).(live := if released || gone then sh.live - {tgt} else sh.live,
                      undeleted := if released then sh.undeleted else sh.undeleted + {tgt}),
         t.(pc := Leg1))
  }

  /** The server opens a session whose ticket never reaches the client. */
  function Mint(sh: Shared, minted: Option<string>): Shared {
    if minted.None? then sh
    else sh.(live := sh.live + {minted.value}, lost := sh.lost + {minted.value})
  }

  /** The server names live sessions apart. */
  function AfterLeg1(sh: Shared, t: Task, r: Reply, minted: Option<string>): Option<Next> {
    match TicketOf(r)
    case Got(tgt) =>
      if tgt in sh.live then None else Some(Next(sh.(live := sh.live + {tgt}), t.(pc := Leg2(tgt))))
    case Failed(_) => Some(Finish(Mint(sh, minted), t))
  }

  function AfterLeg2(sh: Shared, t: Task, tgt: string, r: Reply): Next {
    match JwtOf(r)
    case Got(token) =>
      var after := sh.(auth := Auth(Some(token), Some(tgt)), logins := sh.logins + 1, lock := None,
                       reissued := sh.reissued || token in sh.issued, issued := sh.issued + {token});
      Proceed(after, t.(pc := Sleeping))
    case Failed(_) => Finish(sh.(stranded := sh.stranded + {tgt}), t)
  }

  function AfterAnswer(sh: Shared, t: Task, token: Option<string>, v: Verdict): Next {
    match v
    case AuthFailure =>
      Next(sh.(rejected := sh.rejected + if token.Some? then {token.value} else {}),
           t.(reauthed := true, pc := AwaitLock(Reauthenticating(token))))
    case BackOff => Next(sh, t.(pc := Sleeping))
    case Final => Finish(sh, t)
  }

  /** A task is cancelled at an await: what it was waiting for is never seen. */
  function Dropped(sh: Shared, pc: Pc, minted: Option<string>): Shared {
    match pc
    case Deleting(tgt, _) => sh.(undeleted := sh.undeleted + {tgt}, abandoned := true)
    case Leg1 => Mint(sh, minted)
    case Leg2(tgt) => sh.(stranded := sh.stranded + {tgt})
    case _ => sh
  }

  /** One stretch of task i; None when it cannot happen. */
  function Stretch(sh: Shared, i: nat, t: Task, action: Action): Option<Next> {
    match action
    case Begin(sends) => if t.pc.Idle? then Some(Next(sh, Task(AwaitSlot, sends, false))) else None
    case TakeSlot =>
      if t.pc.AwaitSlot? && sh.permits > 0
      then Some(LoopTop(sh.(permits := sh.permits - 1), t.(pc := Sleeping))) else None
    case TakeLock => if t.pc.AwaitLock? && sh.lock.None? then Some(Locked(sh, i, t, t.pc.why)) else None
    case DeleteAnswered(r, gone) => if t.pc.Deleting? then Some(AfterDelete(sh, t, t.pc.tgt, r, gone)) else None
    case Leg1Answered(r, minted) => if t.pc.Leg1? then AfterLeg1(sh, t, r, minted) else None
    case Leg2Answered(r) => if t.pc.Leg2? then Some(AfterLeg2(sh, t, t.pc.tgt, r)) else None
    case ApiAnswered(v) =>
      if !t.pc.InFlight? || (v.AuthFailure? && t.reauthed) then None
      else Some(AfterAnswer(sh, t, t.pc.token, v))
    case Wake => if t.pc.Sleeping? then Some(LoopTop(sh, t)) else None
    case Cancel(minted) => if t.pc.Idle? then None else Some(Finish(Dropped(sh, t.pc, minted), t))
  }

  function Step(w: World, e: Event): Option<World> {
    match e
    case Expire(ticket) => Some(w.(shared := w.shared.(live := w.shared.live - {ticket})))
    case Act(i, action) =>
      if i >= |w.tasks| then None
      else
        var next := Stretch(w.shared, i, w.tasks[i], action);
        if next.None? then None else Some(World(w.tasks[i := next.value.task], next.value.shared))
  }

  /** Closing the client: the strategy's logout, its DELETE answered by r. */
  function Closed(sh: Shared, r: Reply, gone: bool): Shared {
    if sh.auth.tgt.None? then sh
    else
      var tgt, released := sh.auth.tgt.value, r.Response? && IsSuccess(r.status);
      sh.(auth := LoggedOut(sh.auth, r),
          live := if released || gone then sh.live - {tgt} else sh.live,
          undeleted := if released then sh.undeleted else sh.undeleted + {tgt})
  }

  /** A run: every event happens, in order. */
  function Run(w: World, events: seq<Event>): Option<World>
    decreases |events|
  {
    if events == [] then Some(w)
    else
      var last := |events| - 1;
      var before := Run(w, events[..last]);
      if before.None? then None else Step(before.value, events[last])
  }
}
