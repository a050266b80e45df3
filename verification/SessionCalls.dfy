/** How each call proceeds, in every interleaving: what ends it, which token it sends, how often it
    re-authenticates, and what the history of the session records. */
module SessionCalls {
  import opened Options
  import opened CasLogin
  import opened Session
  import opened SessionSafety

  // -- what ends a call ------------------------------------------------------------------------------

  /** The action ends the call of a task that was at pc: it is cancelled, answered for good, refused by
      a leg of the login, or was a bare ensure and finds or obtains a token. */
  predicate EndsCall(sh: Shared, t: Task, action: Action) {
    match action
    case Cancel(_) => true
    case ApiAnswered(v) => v.Final?
    case Leg1Answered(r, _) => TicketOf(r).Failed?
    case Leg2Answered(r) => JwtOf(r).Failed? || !t.sends
    case TakeSlot => !t.sends && sh.auth.token.Some?
    case TakeLock => !t.sends && sh.auth.token.Some?
    case _ => false
  }

  /** A bare ensure never sends, so it never backs off nor re-authenticates. */
  predicate OnlyEnsures(t: Task) {
    !t.sends ==> !t.pc.InFlight? && !t.pc.Sleeping? && !t.pc.Deleting? && !(t.pc.AwaitLock? && t.pc.why.Reauthenticating?)
  }

  /** A CALL ENDS ONLY SO.  Whatever the interleaving, a pending call ends exactly with its own
      cancellation, a final answer, a failed login leg, or, if it sends nothing, a token in the cache. */
  lemma CallEnds(w: World, e: Event, tasks: nat, slots: nat, i: nat)
    requires Reachable(w, tasks, slots) && Step(w, e).Some? && i < |w.tasks| && !w.tasks[i].pc.Idle?
    ensures i < |Step(w, e).value.tasks|
    ensures Step(w, e).value.tasks[i].pc.Idle? <==> e.Act? && e.i == i && EndsCall(w.shared, w.tasks[i], e.action)
  {
    hide Stretch;
    ReachableEnsures(w, tasks, slots, i);
    if e.Act? && e.i == i { StretchEnds(w.shared, i, w.tasks[i], e.action); }
  }

  lemma StretchEnds(sh: Shared, i: nat, t: Task, action: Action)
    requires !t.pc.Idle? && OnlyEnsures(t) && Stretch(sh, i, t, action).Some?
    ensures Stretch(sh, i, t, action).value.task.pc.Idle? <==> EndsCall(sh, t, action)
  {
    hide TicketOf, JwtOf;
  }

  lemma ReachableEnsures(w: World, tasks: nat, slots: nat, i: nat)
    requires Reachable(w, tasks, slots) && i < |w.tasks|
    ensures OnlyEnsures(w.tasks[i])
  {
    ReachableInv(w, tasks, slots);
    var events :| Run(Initial(tasks, slots), events) == Some(w);
    hide Inv;
    RunEnsures(Initial(tasks, slots), events, i);
  }

  lemma {:induction false} RunEnsures(w: World, events: seq<Event>, i: nat)
    requires Run(w, events).Some? && i < |w.tasks| && OnlyEnsures(w.tasks[i])
    ensures |Run(w, events).value.tasks| == |w.tasks| && OnlyEnsures(Run(w, events).value.tasks[i])
    decreases |events|
  {
    hide OnlyEnsures, Stretch;
    if events == [] {
    } else {
      var last := |events| - 1;
      RunEnsures(w, events[..last], i);
      var before, e := Run(w, events[..last]).value, events[last];
      if e.Act? && e.i == i { StretchEnsures(before.shared, i, before.tasks[i], e.action); }
    }
  }

  lemma StretchEnsures(sh: Shared, i: nat, t: Task, action: Action)
    requires OnlyEnsures(t) && Stretch(sh, i, t, action).Some?
    ensures OnlyEnsures(Stretch(sh, i, t, action).value.task)
  {
    hide TicketOf, JwtOf;
  }

  // -- what a call sends -----------------------------------------------------------------------------

  /** A request leaves with the token cached at that moment; after the call's own login that is the token
      just issued. */
  lemma SentWithCachedToken(w: World, e: Event, i: nat)
    requires Step(w, e).Some? && i < |w.tasks| && !w.tasks[i].pc.InFlight?
    requires i < |Step(w, e).value.tasks| && Step(w, e).value.tasks[i].pc.InFlight?
    ensures Step(w, e).value.tasks[i].pc.token == Step(w, e).value.shared.auth.token
    ensures e.Act? && e.i == i && w.tasks[i].sends
    ensures e.action.Leg2Answered? ==> Step(w, e).value.tasks[i].pc.token == Some(e.action.r.body)
  {
    hide TicketOf;
  }

  /** A request with a slot, newly acquired or after a backoff, is sent at once if a token is cached; only
      without one does it queue for the lock. */
  lemma CachedTokenNeedsNoLock(sh: Shared, i: nat, t: Task, action: Action)
    requires Stretch(sh, i, t, action).Some? && t.sends && (action.TakeSlot? || action.Wake?)
    ensures var next := Stretch(sh, i, t, action).value;
      && next.task.pc == (if sh.auth.token.Some? then InFlight(sh.auth.token) else AwaitLock(Ensuring))
      && next.shared == if action.TakeSlot? then sh.(permits := sh.permits - 1) else sh
  {}

  /** A replaced token is used, not thrown away: a request that takes the lock and finds a token other
      than the rejected one is sent again with it, at once and without another login. */
  lemma ReplacedTokenResent(w: World, tasks: nat, slots: nat, i: nat, token: string)
    requires Reachable(w, tasks, slots) && i < |w.tasks| && w.tasks[i].pc.AwaitLock? && w.tasks[i].sends
    requires w.shared.lock.None? && w.shared.auth.token == Some(token)
    requires w.tasks[i].pc.why.Reauthenticating? ==> w.tasks[i].pc.why.failed != Some(token)
    ensures Step(w, Act(i, TakeLock))
      == Some(World(w.tasks[i := w.tasks[i].(pc := InFlight(Some(token)))], w.shared))
  {
    ReachableInv(w, tasks, slots);
    assert TaskInv(w.shared, i, w.tasks[i]);
  }

  /** The token a login obtains is one no request has been rejected with, unless it was issued before. */
  lemma FreshAfterLogin(w: World, e: Event, tasks: nat, slots: nat, i: nat)
    requires Reachable(w, tasks, slots) && Step(w, e).Some? && i < |w.tasks| && w.tasks[i].pc.Leg2?
    requires Step(w, e).value.tasks[i].pc.InFlight? && !Step(w, e).value.shared.reissued
    ensures var token := Step(w, e).value.tasks[i].pc.token; token.Some? && token.value !in w.shared.rejected
  {
    ReachableInv(w, tasks, slots);
    hide TicketOf;
  }

  // -- once per call ---------------------------------------------------------------------------------

  /** How often task i had an answer handled as an auth failure since its call began. */
  function Reauths(events: seq<Event>, i: nat): nat {
    if events == [] then 0
    else
      var n, e := |events| - 1, events[|events| - 1];
      if e.Act? && e.i == i && e.action.Begin? then 0
      else Reauths(events[..n], i) + if e == Act(i, ApiAnswered(AuthFailure)) then 1 else 0
  }

  /** The kind of call task i is in: that of its last Begin. */
  function Kind(events: seq<Event>, i: nat): bool {
    if events == [] then false
    else
      var n, e := |events| - 1, events[|events| - 1];
      if e.Act? && e.i == i && e.action.Begin? then e.action.sends else Kind(events[..n], i)
  }

  /** ONE RE-AUTHENTICATION PER CALL.  In every run a call has at most one answer handled as an auth
      failure, which its flag records; and it sends exactly if it was begun to send. */
  lemma {:induction false} ReauthsOnce(tasks: nat, slots: nat, events: seq<Event>, i: nat)
    requires Run(Initial(tasks, slots), events).Some? && i < tasks
    ensures var w := Run(Initial(tasks, slots), events).value;
      && |w.tasks| == tasks
      && Reauths(events, i) == (if w.tasks[i].reauthed then 1 else 0)
      && w.tasks[i].sends == Kind(events, i)
    decreases |events|
  {
    hide Stretch;
    if events == [] {
    } else {
      var last := |events| - 1;
      ReauthsOnce(tasks, slots, events[..last], i);
      var before, e := Run(Initial(tasks, slots), events[..last]).value, events[last];
      if e.Act? && e.i == i { StretchFlags(before.shared, i, before.tasks[i], e.action); }
    }
  }

  lemma StretchFlags(sh: Shared, i: nat, t: Task, action: Action)
    requires Stretch(sh, i, t, action).Some?
    ensures var t' := Stretch(sh, i, t, action).value.task;
      && (action.Begin? ==> !t'.reauthed && t'.sends == action.sends)
      && (!action.Begin? ==> t'.sends == t.sends && (t'.reauthed <==> t.reauthed || action == ApiAnswered(AuthFailure)))
      && (action == ApiAnswered(AuthFailure) ==> !t.reauthed)
  {
    hide TicketOf, JwtOf;
  }

  /** The token task i was last rejected with since its call began. */
  function RejectedWith(w: World, events: seq<Event>, i: nat): Option<string> {
    if events == [] || Run(w, events).None? then None
    else
      var n, e := |events| - 1, events[|events| - 1];
      var before := Run(w, events[..n]).value;
      if !e.Act? || e.i != i || i >= |before.tasks| then RejectedWith(w, events[..n], i)
      else if e.action.Begin? then None
      else if e.action == ApiAnswered(AuthFailure) && before.tasks[i].pc.InFlight? then before.tasks[i].pc.token
      else RejectedWith(w, events[..n], i)
  }

  /** The rejected token is gone, or the task is still on its way to dropping it. */
  predicate Gone(a: Auth, t: Task, failed: string) {
    match t.pc
    case AwaitLock(Reauthenticating(f)) => f == Some(failed)
    case Deleting(_, f) => f == Some(failed)
    case InFlight(token) => token != Some(failed) && a.token != Some(failed)
    case Idle => true
    case _ => a.token != Some(failed)
  }

  /** NEVER THE REJECTED TOKEN AGAIN.  In every run in which the server issues no token twice, a call whose
      request was rejected never sends the token it was rejected with again, however the other tasks log
      in, back off or are cancelled meanwhile. */
  lemma NeverResentRejected(tasks: nat, slots: nat, events: seq<Event>, i: nat)
    requires Run(Initial(tasks, slots), events).Some? && i < tasks
    requires !Run(Initial(tasks, slots), events).value.shared.reissued
    ensures i < |Run(Initial(tasks, slots), events).value.tasks|
    ensures var t := Run(Initial(tasks, slots), events).value.tasks[i];
      t.pc.InFlight? ==> t.pc.token.Some? && t.pc.token != RejectedWith(Initial(tasks, slots), events, i)
  {
    RejectedGone(tasks, slots, events, i);
    InitialInv(tasks, slots);
    RunKeepsInv(Initial(tasks, slots), events, slots);
    var w := Run(Initial(tasks, slots), events).value;
    assert TaskInv(w.shared, i, w.tasks[i]);
  }

  lemma {:induction false} RejectedGone(tasks: nat, slots: nat, events: seq<Event>, i: nat)
    requires Run(Initial(tasks, slots), events).Some? && i < tasks
    requires !Run(Initial(tasks, slots), events).value.shared.reissued
    ensures var w, failed := Run(Initial(tasks, slots), events).value, RejectedWith(Initial(tasks, slots), events, i);
      |w.tasks| == tasks && (failed.Some? ==> failed.value in w.shared.issued && Gone(w.shared.auth, w.tasks[i], failed.value))
    decreases |events|
  {
    hide Inv, Stretch, Gone;
    var w0 := Initial(tasks, slots);
    if events == [] {
    } else {
      var last := |events| - 1;
      var before, e := Run(w0, events[..last]).value, events[last];
      InitialInv(tasks, slots);
      RunKeepsInv(w0, events[..last], slots);
      StaysReissued(before, e);
      if e == Act(i, ApiAnswered(AuthFailure)) { RejectedInFlight(before, e); }
      RejectedGone(tasks, slots, events[..last], i);
      var failed := RejectedWith(w0, events, i);
      if failed.Some? { StepKeepsGone(before, e, slots, i, failed.value); }
    }
  }

  lemma StaysReissued(w: World, e: Event)
    requires Step(w, e).Some? && !Step(w, e).value.shared.reissued
    ensures !w.shared.reissued
  {
    hide TicketOf, JwtOf;
  }

  lemma RejectedInFlight(w: World, e: Event)
    requires Step(w, e).Some? && e.Act? && e.action == ApiAnswered(AuthFailure)
    ensures e.i < |w.tasks| && w.tasks[e.i].pc.InFlight?
  {}

  lemma StepKeepsGone(w: World, e: Event, slots: nat, i: nat, failed: string)
    requires Inv(w, slots) && Step(w, e).Some? && i < |w.tasks| && !Step(w, e).value.shared.reissued
    requires if e == Act(i, ApiAnswered(AuthFailure)) then w.tasks[i].pc.InFlight? && w.tasks[i].pc.token == Some(failed)
      else failed in w.shared.issued && Gone(w.shared.auth, w.tasks[i], failed) && !(e.Act? && e.i == i && e.action.Begin?)
    ensures var after := Step(w, e).value; failed in after.shared.issued && Gone(after.shared.auth, after.tasks[i], failed)
  {
    hide Stretch, Gone;
    assert TaskInv(w.shared, i, w.tasks[i]);
    if e.Act? {
      assert TaskInv(w.shared, e.i, w.tasks[e.i]);
      if e.i == i {
        OwnStretchKeepsGone(w.shared, i, w.tasks[i], e.action, failed);
      } else {
        OtherStretchKeepsGone(w.shared, e.i, w.tasks[e.i], e.action, w.tasks[i], failed);
      }
    }
  }

  lemma OwnStretchKeepsGone(sh: Shared, i: nat, t: Task, action: Action, failed: string)
    requires SharedInv(sh) && TaskInv(sh, i, t) && Stretch(sh, i, t, action).Some? && !action.Begin?
    requires !Stretch(sh, i, t, action).value.shared.reissued
    requires if action == ApiAnswered(AuthFailure) then t.pc.InFlight? && t.pc.token == Some(failed)
      else failed in sh.issued && Gone(sh.auth, t, failed)
    ensures var next := Stretch(sh, i, t, action).value;
      failed in next.shared.issued && Gone(next.shared.auth, next.task, failed)
  {
    hide TicketOf, JwtOf, CountInv, LiveInv, HandInv;
    match action
    case TakeLock => LockedKeepsGone(sh, i, t, failed);
    case Leg2Answered(r) => IssuedIsFresh(sh, i, t, r, failed);
    case _ =>
  }

  lemma LockedKeepsGone(sh: Shared, i: nat, t: Task, failed: string)
    requires t.pc.AwaitLock? && Gone(sh.auth, t, failed)
    ensures Gone(Locked(sh, i, t, t.pc.why).shared.auth, Locked(sh, i, t, t.pc.why).task, failed)
    ensures Locked(sh, i, t, t.pc.why).shared.issued == sh.issued
  {}

  lemma IssuedIsFresh(sh: Shared, i: nat, t: Task, r: Reply, failed: string)
    requires t.pc.Leg2? && Gone(sh.auth, t, failed) && failed in sh.issued
    requires !AfterLeg2(sh, t, t.pc.tgt, r).shared.reissued
    ensures var next := AfterLeg2(sh, t, t.pc.tgt, r); failed in next.shared.issued && Gone(next.shared.auth, next.task, failed)
  {
    hide JwtOf;
  }

  /** Nothing another task does brings the token back into the cache. */
  lemma OtherStretchKeepsGone(sh: Shared, j: nat, other: Task, action: Action, t: Task, failed: string)
    requires Stretch(sh, j, other, action).Some? && failed in sh.issued && Gone(sh.auth, t, failed)
    requires !Stretch(sh, j, other, action).value.shared.reissued
    ensures var after := Stretch(sh, j, other, action).value.shared; failed in after.issued && Gone(after.auth, t, failed)
  {
    hide TicketOf;
  }

  // -- the history -----------------------------------------------------------------------------------

  /** The second leg's answer logs the task in. */
  predicate Issues(action: Action) {
    action.Leg2Answered? && JwtOf(action.r).Got?
  }

  /** The history records what happened: tokens as they are issued, each login, tokens as requests that
      carry them are rejected, and a token issued again. */
  lemma HistoryRecords(sh: Shared, i: nat, t: Task, action: Action)
    requires Stretch(sh, i, t, action).Some?
    ensures var after := Stretch(sh, i, t, action).value.shared;
      && after.issued == sh.issued + (if Issues(action) then {action.r.body} else {})
      && after.logins == sh.logins + (if Issues(action) then 1 else 0)
      && (after.reissued <==> sh.reissued || (Issues(action) && action.r.body in sh.issued))
      && after.rejected == sh.rejected
           + if action == ApiAnswered(AuthFailure) && t.pc.token.Some? then {t.pc.token.value} else {}
  {
    hide TicketOf;
  }

  /** A session counts as adrift only through a failure: its DELETE was not confirmed or not awaited, its
      second leg failed, or its ticket never reached the client. */
  lemma AdriftOnlyByFailure(sh: Shared, i: nat, t: Task, action: Action, tgt: string)
    requires Stretch(sh, i, t, action).Some?
    requires tgt in Adrift(Stretch(sh, i, t, action).value.shared) && tgt !in Adrift(sh)
    ensures match action
      case DeleteAnswered(r, _) => t.pc.tgt == tgt && !(r.Response? && 200 <= r.status < 300)
      case Leg1Answered(r, minted) => TicketOf(r).Failed? && minted == Some(tgt)
      case Leg2Answered(r) => t.pc.tgt == tgt && JwtOf(r).Failed?
      case Cancel(minted) => tgt in InHand(t.pc) || (t.pc.Leg1? && minted == Some(tgt))
      case _ => false
  {
    hide JwtOf, TicketOf;
  }

  function Opened(minted: Option<string>): set<string> {
    if minted.Some? then {minted.value} else {}
  }

  /** Sessions open with a first leg, whether or not its answer arrives, and close with a DELETE, whether or
      not it is confirmed; nothing else the tasks do opens or closes one. */
  lemma SessionsOpenAndClose(sh: Shared, i: nat, t: Task, action: Action)
    requires Stretch(sh, i, t, action).Some?
    ensures var after := Stretch(sh, i, t, action).value.shared;
      match action
      case DeleteAnswered(r, gone) =>
        after.live == if gone || (r.Response? && 200 <= r.status < 300) then sh.live - {t.pc.tgt} else sh.live
      case Leg1Answered(r, minted) => after.live == sh.live + if TicketOf(r).Got? then {r.body} else Opened(minted)
      case Cancel(minted) => after.live == sh.live + if t.pc.Leg1? then Opened(minted) else {}
      case _ => after.live == sh.live
  {
    hide JwtOf;
  }

  /** So does closing the client. */
  lemma ClosedAdrift(sh: Shared, r: Reply, gone: bool)
    ensures r.Response? && 200 <= r.status < 300 ==> Adrift(Closed(sh, r, gone)) == Adrift(sh)
    ensures Closed(sh, r, gone).live == (if (r.Response? && 200 <= r.status < 300) || gone then sh.live - CachedTicket(sh.auth) else sh.live)
  {}
}
