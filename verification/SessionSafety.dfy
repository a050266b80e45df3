/** What every interleaving of requests keeps: who may hold a session, that each request carries
    a token, that a token is discarded only once rejected, and that some task can always move. */
module SessionSafety {
  import opened Options
  import opened CasLogin
  import opened Session

  // -- the invariant -------------------------------------------------------------------------------

  /** Sessions the client has lost hold of by a failure of the server or the transport. */
  function Adrift(sh: Shared): set<string> {
    sh.undeleted + sh.stranded + sh.lost
  }

  function CachedTicket(a: Auth): set<string> {
    if a.tgt.Some? then {a.tgt.value} else {}
  }

  /** The ticket a lock holder keeps in a local variable. */
  function InHand(pc: Pc): set<string> {
    match pc
    case Deleting(tgt, _) => {tgt}
    case Leg2(tgt) => {tgt}
    case _ => {}
  }

  /** While the lock is free a ticket is cached only with a token, and a token without a ticket
      exactly when its DELETE was abandoned. */
  ghost predicate CacheInv(sh: Shared) {
    sh.lock.None? ==>
      && (sh.auth.tgt.Some? ==> sh.auth.token.Some?)
      && (sh.abandoned <==> sh.auth.token.Some? && sh.auth.tgt.None?)
  }

  /** A lock holder has taken the ticket out of the cache, and the token too once its DELETE is
      answered. */
  ghost predicate HolderInv(sh: Shared, i: nat, pc: Pc) {
    && (HoldsLock(pc) <==> sh.lock == Some(i))
    && (HoldsLock(pc) ==>
          !sh.abandoned && sh.auth.tgt.None?
          && if pc.Deleting? then sh.auth.token == pc.failed else sh.auth.token.None?)
  }

  /** Every live session is cached or adrift while the lock is free. */
  ghost predicate LiveInv(sh: Shared) {
    sh.lock.None? ==> sh.live <= CachedTicket(sh.auth) + Adrift(sh)
  }

  /** It is in the lock holder's hand or adrift while the lock is held. */
  ghost predicate HandInv(sh: Shared, pc: Pc) {
    HoldsLock(pc) ==> sh.live <= InHand(pc) + Adrift(sh)
  }

  /** Only rejected tokens were discarded. */
  ghost predicate TokenInv(sh: Shared) {
    && CachedToken(sh.auth) <= sh.issued
    && sh.discarded <= sh.rejected <= sh.issued
  }

  /** A request carries an issued token; a task that re-authenticates has seen its token rejected. */
  ghost predicate CarriesInv(sh: Shared, pc: Pc) {
    match pc
    case InFlight(token) => token.Some? && token.value in sh.issued
    case AwaitLock(Reauthenticating(failed)) => failed.Some? && failed.value in sh.rejected
    case Deleting(_, failed) => failed.Some? && failed.value in sh.rejected
    case _ => true
  }

  /** Unless a token was issued twice, each login's token is cached or was discarded. */
  ghost predicate CountInv(sh: Shared) {
    !sh.reissued ==>
      && sh.logins == |sh.issued|
      && sh.issued == sh.discarded + CachedToken(sh.auth)
      && sh.discarded !! CachedToken(sh.auth)
  }

  ghost predicate SharedInv(sh: Shared) {
    CacheInv(sh) && LiveInv(sh) && TokenInv(sh) && CountInv(sh)
  }

  ghost predicate TaskInv(sh: Shared, i: nat, t: Task) {
    HolderInv(sh, i, t.pc) && HandInv(sh, t.pc) && CarriesInv(sh, t.pc)
  }

  function Slots(pc: Pc): nat {
    if HoldsSlot(pc) then 1 else 0
  }

  function Busy(tasks: seq<Task>): nat {
    if tasks == [] then 0 else Slots(tasks[0].pc) + Busy(tasks[1..])
  }

  ghost predicate Inv(w: World, slots: nat) {
    && SharedInv(w.shared)
    && (w.shared.lock.Some? ==> w.shared.lock.value < |w.tasks|)
    && (forall i | 0 <= i < |w.tasks| :: TaskInv(w.shared, i, w.tasks[i]))
    && w.shared.permits + Busy(w.tasks) == slots
  }

  // -- one stretch ---------------------------------------------------------------------------------

  lemma HolderKept(sh: Shared, i: nat, t: Task, action: Action)
    requires CacheInv(sh) && HolderInv(sh, i, t.pc) && CarriesInv(sh, t.pc) && Stretch(sh, i, t, action).Some?
    ensures var next := Stretch(sh, i, t, action).value; CacheInv(next.shared) && HolderInv(next.shared, i, next.task.pc)
  {}

  lemma LiveKept(sh: Shared, i: nat, t: Task, action: Action)
    requires CacheInv(sh) && HolderInv(sh, i, t.pc) && LiveInv(sh) && HandInv(sh, t.pc)
    requires CarriesInv(sh, t.pc) && Stretch(sh, i, t, action).Some?
    ensures var next := Stretch(sh, i, t, action).value; LiveInv(next.shared) && HandInv(next.shared, next.task.pc)
  {}

  lemma TokensKept(sh: Shared, i: nat, t: Task, action: Action)
    requires CacheInv(sh) && HolderInv(sh, i, t.pc) && TokenInv(sh) && CarriesInv(sh, t.pc)
    requires Stretch(sh, i, t, action).Some?
    ensures var next := Stretch(sh, i, t, action).value; TokenInv(next.shared) && CarriesInv(next.shared, next.task.pc)
  {}

  lemma CountKept(sh: Shared, i: nat, t: Task, action: Action)
    requires HolderInv(sh, i, t.pc) && TokenInv(sh) && CountInv(sh) && Stretch(sh, i, t, action).Some?
    ensures CountInv(Stretch(sh, i, t, action).value.shared)
  {
    hide CountInv;
    match action
    case DeleteAnswered(r, gone) =>
      CountDiscarded(sh);
      CountSame(Discard(sh), Stretch(sh, i, t, action).value.shared);
    case TakeLock =>
      CountDiscarded(sh);
      LockedCount(sh, i, t);
    case Leg2Answered(r) =>
      var sh' := Stretch(sh, i, t, action).value.shared;
      if JwtOf(r).Got? { CountIssued(sh, sh', JwtOf(r).value); } else { CountSame(sh, sh'); }
    case _ => CountUntouched(sh, i, t, action);
  }

  lemma LockedCount(sh: Shared, i: nat, t: Task)
    requires CountInv(sh) && CountInv(Discard(sh)) && t.pc.AwaitLock?
    ensures CountInv(Locked(sh, i, t, t.pc.why).shared)
  {
    hide CountInv;
    var sh' := Locked(sh, i, t, t.pc.why).shared;
    if sh'.discarded == sh.discarded && sh'.auth.token == sh.auth.token {
      CountSame(sh, sh');
    } else {
      CountSame(Discard(sh), sh');
    }
  }

  lemma CountUntouched(sh: Shared, i: nat, t: Task, action: Action)
    requires CountInv(sh) && Stretch(sh, i, t, action).Some?
    requires !action.DeleteAnswered? && !action.TakeLock? && !action.Leg2Answered?
    ensures CountInv(Stretch(sh, i, t, action).value.shared)
  {
    hide CountInv, TicketOf;
    CountSame(sh, Stretch(sh, i, t, action).value.shared);
  }

  lemma CountSame(sh: Shared, sh': Shared)
    requires CountInv(sh) && sh'.auth.token == sh.auth.token && sh'.logins == sh.logins && sh'.reissued == sh.reissued
    requires sh'.issued == sh.issued && sh'.discarded == sh.discarded
    ensures CountInv(sh')
  {}

  lemma CountDiscarded(sh: Shared)
    requires CountInv(sh)
    ensures CountInv(Discard(sh))
  {}

  lemma CountIssued(sh: Shared, sh': Shared, token: string)
    requires CountInv(sh) && TokenInv(sh) && sh.auth.token.None?
    requires sh'.auth.token == Some(token) && sh'.logins == sh.logins + 1 && sh'.issued == sh.issued + {token}
    requires sh'.reissued == (sh.reissued || token in sh.issued) && sh'.discarded == sh.discarded
    ensures CountInv(sh')
  {}

  /** What a stretch of task i leaves alone for the others. */
  ghost predicate Undisturbed(sh: Shared, sh': Shared, i: nat) {
    && sh.issued <= sh'.issued && sh.rejected <= sh'.rejected
    && Adrift(sh) <= Adrift(sh')
    && (sh'.lock == sh.lock || (sh.lock == Some(i) && sh'.lock.None?) || (sh.lock.None? && sh'.lock == Some(i)))
    && (sh.lock.Some? && sh.lock != Some(i) ==> sh'.auth == sh.auth && sh'.live <= sh.live && sh'.abandoned == sh.abandoned)
  }

  lemma OthersKept(sh: Shared, i: nat, t: Task, action: Action)
    requires HolderInv(sh, i, t.pc) && Stretch(sh, i, t, action).Some?
    ensures Undisturbed(sh, Stretch(sh, i, t, action).value.shared, i)
  {}

  lemma SlotsKept(sh: Shared, i: nat, t: Task, action: Action)
    requires Stretch(sh, i, t, action).Some?
    ensures var next := Stretch(sh, i, t, action).value;
      next.shared.permits + Slots(next.task.pc) == sh.permits + Slots(t.pc)
  {
    hide TicketOf, JwtOf, Superseded;
    match action
    case TakeLock => LockedSlots(sh, i, t);
    case _ =>
  }

  lemma LockedSlots(sh: Shared, i: nat, t: Task)
    requires t.pc.AwaitLock?
    ensures var next := Locked(sh, i, t, t.pc.why);
      next.shared.permits + Slots(next.task.pc) == sh.permits + Slots(t.pc)
  {}

  /** The other tasks' invariants survive a stretch of task i. */
  lemma OtherTaskKept(sh: Shared, sh': Shared, i: nat, j: nat, t: Task)
    requires Undisturbed(sh, sh', i) && TaskInv(sh, j, t) && j != i
    ensures TaskInv(sh', j, t)
  {}

  // -- every run -----------------------------------------------------------------------------------

  lemma {:induction false} BusyUpdate(tasks: seq<Task>, i: nat, t: Task)
    requires i < |tasks|
    ensures Busy(tasks[i := t]) + Slots(tasks[i].pc) == Busy(tasks) + Slots(t.pc)
  {
    if i == 0 {
      assert tasks[i := t][1..] == tasks[1..];
    } else {
      assert tasks[i := t][1..] == tasks[1..][i - 1 := t];
      BusyUpdate(tasks[1..], i - 1, t);
    }
  }

  lemma StepKeepsInv(w: World, e: Event, slots: nat)
    requires Inv(w, slots) && Step(w, e).Some?
    ensures Inv(Step(w, e).value, slots)
  {
    hide Stretch, Slots, CountInv, TokenInv;
    match e
    case Expire(_) => ExpireKept(w.shared, e.ticket);
      forall j | 0 <= j < |w.tasks| ensures TaskInv(Step(w, e).value.shared, j, w.tasks[j]) {
        ExpireKeptFor(w.shared, e.ticket, j, w.tasks[j]);
      }
    case Act(i, action) =>
      hide CacheInv, LiveInv, HolderInv, HandInv, CarriesInv, Undisturbed;
      var t := w.tasks[i];
      assert TaskInv(w.shared, i, t);
      HolderKept(w.shared, i, t, action);
      LiveKept(w.shared, i, t, action);
      TokensKept(w.shared, i, t, action);
      CountKept(w.shared, i, t, action);
      OthersKept(w.shared, i, t, action);
      SlotsKept(w.shared, i, t, action);
      var next := Stretch(w.shared, i, t, action).value;
      BusyUpdate(w.tasks, i, next.task);
      LockInRange(w.shared, next.shared, i, |w.tasks|);
      forall j | 0 <= j < |w.tasks| && j != i ensures TaskInv(next.shared, j, w.tasks[j]) {
        OtherTaskKept(w.shared, next.shared, i, j, w.tasks[j]);
      }
  }

  lemma LockInRange(sh: Shared, sh': Shared, i: nat, n: nat)
    requires Undisturbed(sh, sh', i) && i < n && (sh.lock.Some? ==> sh.lock.value < n)
    ensures sh'.lock.Some? ==> sh'.lock.value < n
  {}

  lemma ExpireKept(sh: Shared, ticket: string)
    requires SharedInv(sh)
    ensures SharedInv(sh.(live := sh.live - {ticket}))
  {}

  lemma ExpireKeptFor(sh: Shared, ticket: string, j: nat, t: Task)
    requires TaskInv(sh, j, t)
    ensures TaskInv(sh.(live := sh.live - {ticket}), j, t)
  {}

  lemma {:induction false} NoneBusy(tasks: seq<Task>)
    requires forall t | t in tasks :: !HoldsSlot(t.pc)
    ensures Busy(tasks) == 0
  {
    if tasks == [] {
    } else {
      NoneBusy(tasks[1..]);
    }
  }

  lemma InitialInv(tasks: nat, slots: nat)
    ensures Inv(Initial(tasks, slots), slots)
  {
    NoneBusy(Initial(tasks, slots).tasks);
  }

  /** Every world an interleaving reaches satisfies the invariant. */
  lemma {:induction false} RunKeepsInv(w: World, events: seq<Event>, slots: nat)
    requires Inv(w, slots) && Run(w, events).Some?
    ensures Inv(Run(w, events).value, slots) && |Run(w, events).value.tasks| == |w.tasks|
    decreases |events|
  {
    hide Inv, Step;
    if events == [] {
    } else {
      var last := |events| - 1;
      RunKeepsInv(w, events[..last], slots);
      StepKeepsInv(Run(w, events[..last]).value, events[last], slots);
      SameTasks(Run(w, events[..last]).value, events[last]);
    }
  }

  lemma SameTasks(w: World, e: Event)
    requires Step(w, e).Some?
    ensures |Step(w, e).value.tasks| == |w.tasks|
  {}

  // -- the theorems --------------------------------------------------------------------------------

  ghost predicate Reachable(w: World, tasks: nat, slots: nat) {
    exists events :: Run(Initial(tasks, slots), events) == Some(w)
  }

  lemma ReachableInv(w: World, tasks: nat, slots: nat)
    requires Reachable(w, tasks, slots)
    ensures Inv(w, slots) && |w.tasks| == tasks
  {
    var events :| Run(Initial(tasks, slots), events) == Some(w);
    InitialInv(tasks, slots);
    RunKeepsInv(Initial(tasks, slots), events, slots);
  }

  /** The ticket of the login or re-login in progress, if there is one. */
  function InProgress(w: World): set<string> {
    if w.shared.lock.Some? && w.shared.lock.value < |w.tasks| then InHand(w.tasks[w.shared.lock.value].pc) else {}
  }

  /** SESSION CONSERVATION.  Every live session is the cached one, the one a re-login is deleting
      or a login has just opened, or one that a failed DELETE, second leg or first answer left
      behind; without such a failure at most one session is live. */
  lemma SessionsConserved(w: World, tasks: nat, slots: nat)
    requires Reachable(w, tasks, slots)
    ensures w.shared.live <= CachedTicket(w.shared.auth) + InProgress(w) + Adrift(w.shared)
    ensures Adrift(w.shared) == {} ==> |w.shared.live| <= 1
  {
    ReachableInv(w, tasks, slots);
    var sh := w.shared;
    var one := if sh.lock.Some? then InProgress(w) else CachedTicket(sh.auth);
    if sh.lock.Some? { assert TaskInv(sh, sh.lock.value, w.tasks[sh.lock.value]); }
    assert sh.live <= one + Adrift(sh);
    if Adrift(sh) == {} { SubsetSize(sh.live, one); }
  }

  lemma {:induction false} SubsetSize(a: set<string>, b: set<string>)
    requires a <= b
    ensures |a| <= |b|
  {
    if x :| x in a {
      SubsetSize(a - {x}, b - {x});
    }
  }

  /** While no login is in progress a ticket is cached exactly when a token is, if and only if the
      token cached is not one whose DELETE a cancelled task left unanswered. */
  lemma TokenWithTicket(w: World, tasks: nat, slots: nat)
    requires Reachable(w, tasks, slots) && w.shared.lock.None?
    ensures w.shared.auth.tgt.Some? ==> w.shared.auth.token.Some?
    ensures !w.shared.abandoned <==> (w.shared.auth.tgt.Some? <==> w.shared.auth.token.Some?)
  {
    ReachableInv(w, tasks, slots);
  }

  /** Every request in flight carries a token the server issued. */
  lemma RequestsCarryTokens(w: World, tasks: nat, slots: nat, i: nat)
    requires Reachable(w, tasks, slots) && i < |w.tasks| && w.tasks[i].pc.InFlight?
    ensures w.tasks[i].pc.token.Some? && w.tasks[i].pc.token.value in w.shared.issued
  {
    ReachableInv(w, tasks, slots);
    assert TaskInv(w.shared, i, w.tasks[i]);
  }

  /** A token leaves the cache only after a request that carried it was rejected. */
  lemma DiscardedOnlyIfRejected(w: World, e: Event, tasks: nat, slots: nat, token: string)
    requires Reachable(w, tasks, slots) && Step(w, e).Some?
    requires w.shared.auth.token == Some(token) && Step(w, e).value.shared.auth.token != Some(token)
    ensures token in w.shared.rejected
  {
    ReachableInv(w, tasks, slots);
    var i := e.i;
    assert TaskInv(w.shared, i, w.tasks[i]);
    DiscardRejected(w.shared, i, w.tasks[i], e.action);
  }

  lemma DiscardRejected(sh: Shared, i: nat, t: Task, action: Action)
    requires CacheInv(sh) && TaskInv(sh, i, t) && Stretch(sh, i, t, action).Some? && sh.auth.token.Some?
    requires Stretch(sh, i, t, action).value.shared.auth.token != sh.auth.token
    ensures sh.auth.token.value in sh.rejected
  {}

  /** NO LOGIN STORM.  With a fresh token each time, successful logins exceed the distinct rejected
      tokens by at most one, however many requests each token failed. */
  lemma NoLoginStorm(w: World, tasks: nat, slots: nat)
    requires Reachable(w, tasks, slots) && !w.shared.reissued
    ensures w.shared.logins <= 1 + |w.shared.rejected|
  {
    ReachableInv(w, tasks, slots);
    SubsetSize(w.shared.discarded, w.shared.rejected);
    assert |w.shared.issued| == |w.shared.discarded| + |CachedToken(w.shared.auth)|;
  }

  /** At most `slots` tasks are between acquiring a slot and finishing. */
  lemma ConcurrencyCapped(w: World, tasks: nat, slots: nat)
    requires Reachable(w, tasks, slots)
    ensures Busy(w.tasks) <= slots
  {
    ReachableInv(w, tasks, slots);
  }

  /** An event that is the code's or the server's own move, not a new call or a cancellation. */
  predicate Progress(e: Event) {
    e.Act? && !e.action.Begin? && !e.action.Cancel?
  }

  /** NO DEADLOCK.  As long as a call is pending, some call can move on. */
  lemma NoDeadlock(w: World, tasks: nat, slots: nat)
    requires Reachable(w, tasks, slots) && slots > 0
    requires exists i :: 0 <= i < |w.tasks| && !w.tasks[i].pc.Idle?
    ensures exists e :: Progress(e) && Step(w, e).Some?
  {
    ReachableInv(w, tasks, slots);
    var i :| 0 <= i < |w.tasks| && !w.tasks[i].pc.Idle?;
    if w.shared.lock.Some? {
      var holder := w.shared.lock.value;
      assert TaskInv(w.shared, holder, w.tasks[holder]);
      TaskMoves(w, holder);
    } else if !w.tasks[i].pc.AwaitSlot? || w.shared.permits > 0 {
      assert TaskInv(w.shared, i, w.tasks[i]);
      TaskMoves(w, i);
    } else {
      var j := SomeBusy(w.tasks);
      assert TaskInv(w.shared, j, w.tasks[j]);
      TaskMoves(w, j);
    }
  }

  lemma {:induction false} SomeBusy(tasks: seq<Task>) returns (i: nat)
    requires Busy(tasks) > 0
    ensures i < |tasks| && HoldsSlot(tasks[i].pc)
  {
    if HoldsSlot(tasks[0].pc) {
      i := 0;
    } else {
      var j := SomeBusy(tasks[1..]);
      i := j + 1;
    }
  }

  /** A pending task moves unless it waits for a slot or for the lock. */
  lemma TaskMoves(w: World, i: nat)
    requires i < |w.tasks| && !w.tasks[i].pc.Idle?
    requires w.tasks[i].pc.AwaitSlot? ==> w.shared.permits > 0
    requires w.tasks[i].pc.AwaitLock? ==> w.shared.lock.None?
    ensures exists e :: Progress(e) && Step(w, e).Some?
  {
    var action := match w.tasks[i].pc
      case AwaitSlot => TakeSlot
      case AwaitLock(_) => TakeLock
      case Deleting(_, _) => DeleteAnswered(NoAnswer, false)
      case Leg1 => Leg1Answered(NoAnswer, None)
      case Leg2(_) => Leg2Answered(NoAnswer)
      case InFlight(_) => ApiAnswered(Final)
      case _ => Wake;
    assert Progress(Act(i, action)) && Step(w, Act(i, action)).Some?;
  }

  function TwoLegs(sh: Shared, i: nat, t: Task, leg1: Reply, minted: Option<string>, leg2: Reply): Next
    requires t.pc.Leg1? && (TicketOf(leg1).Got? ==> TicketOf(leg1).value !in sh.live)
  {
    var c := Stretch(sh, i, t, Leg1Answered(leg1, minted)).value;
    if c.task.pc.Leg2? then Stretch(c.shared, i, c.task, Leg2Answered(leg2)).value else c
  }

  lemma LoginRefines(sh: Shared, i: nat, t: Task, leg1: Reply, minted: Option<string>, leg2: Reply)
    requires t.pc.Leg1? && (TicketOf(leg1).Got? ==> TicketOf(leg1).value !in sh.live)
    ensures var d := TwoLegs(sh, i, t, leg1, minted, leg2);
      var (auth, error) := LoggedIn(sh.auth, leg1, leg2);
      && d.shared.auth == auth && d.shared.lock.None?
      && d.task.pc == if error.None? && t.sends then InFlight(auth.token) else Idle
  {
    hide TicketOf, JwtOf;
  }

  function Released(sh: Shared, i: nat, t: Task, deleted: Reply, gone: bool): (n: Next)
    requires CacheInv(sh) && sh.lock.None? && t.pc.AwaitLock? && t.pc.why.Reauthenticating?
    requires !Superseded(sh.auth, t.pc.why.failed)
    ensures n.task == t.(pc := Leg1) && n.shared.live <= sh.live
    ensures n.shared.auth == LoggedOut(sh.auth, deleted).(token := None)
  {
    var a := Stretch(sh, i, t, TakeLock).value;
    if a.task.pc.Leg1? then a else Stretch(a.shared, i, a.task, DeleteAnswered(deleted, gone)).value
  }

  /** The stretches a re-login runs through amount to CrossworkCasAuth's own method, since nothing
      else writes the cache while the lock is held (Undisturbed). */
  lemma ReloginRefines(sh: Shared, i: nat, t: Task, deleted: Reply, gone: bool, leg1: Reply, minted: Option<string>,
                       leg2: Reply)
    requires CacheInv(sh) && sh.lock.None? && t.pc.AwaitLock? && t.pc.why.Reauthenticating?
    requires !Superseded(sh.auth, t.pc.why.failed)
    requires TicketOf(leg1).Got? ==> TicketOf(leg1).value !in sh.live
    ensures var b := Released(sh, i, t, deleted, gone);
      var d := TwoLegs(b.shared, i, b.task, leg1, minted, leg2);
      var (auth, error) := ReLoggedIn(sh.auth, deleted, leg1, leg2);
      && d.shared.auth == auth && d.shared.lock.None?
      && d.task.pc == if error.None? && t.sends then InFlight(auth.token) else Idle
  {
    var b := Released(sh, i, t, deleted, gone);
    hide Released, TwoLegs, TicketOf, JwtOf, Stretch;
    LoginRefines(b.shared, i, b.task, leg1, minted, leg2);
  }

  /** Closing the client after the last task, whatever its DELETE answers, leaves live only sessions
      adrift, forgets the ticket, and sends the DELETE, if one is due, with the token it was issued. */
  lemma FinalLogoutReleases(w: World, tasks: nat, slots: nat, r: Reply, gone: bool)
    requires Reachable(w, tasks, slots) && (forall t | t in w.tasks :: t.pc.Idle?)
    ensures var after := Closed(w.shared, r, gone);
      after.live <= Adrift(after) && after.auth == LoggedOut(w.shared.auth, r)
    ensures w.shared.auth.tgt.Some? ==> w.shared.auth.token.Some? && w.shared.auth.token.value in w.shared.issued
  {
    ReachableInv(w, tasks, slots);
    if w.shared.lock.Some? {
      assert TaskInv(w.shared, w.shared.lock.value, w.tasks[w.shared.lock.value]);
    }
  }

  // -- an abandoned DELETE -------------------------------------------------------------------------

  lemma Extend(w: World, events: seq<Event>, e: Event)
    requires Run(w, events).Some?
    ensures Run(w, events + [e]) == Step(Run(w, events).value, e)
  {
    assert (events + [e])[..|events|] == events;
  }

  /** A run of the only task up to its first answer. */
  lemma SignIn() returns (es: seq<Event>)
    ensures var w := Run(Initial(1, 1), es);
      && w.Some? && w.value.tasks == [Task(InFlight(Some("..")), true, false)]
      && w.value.shared.auth == Auth(Some(".."), Some("TGT-1")) && w.value.shared.lock.None?
  {
    var w0, leg1, leg2 := Initial(1, 1), Response(201, "TGT-1", ""), Response(200, "..", "");
    assert Dots("..") == 2;
    es := [];
    Extend(w0, es, Act(0, Begin(true)));
    es := es + [Act(0, Begin(true))];
    Extend(w0, es, Act(0, TakeSlot));
    es := es + [Act(0, TakeSlot)];
    Extend(w0, es, Act(0, TakeLock));
    es := es + [Act(0, TakeLock)];
    Extend(w0, es, Act(0, Leg1Answered(leg1, None)));
    es := es + [Act(0, Leg1Answered(leg1, None))];
    Extend(w0, es, Act(0, Leg2Answered(leg2)));
    es := es + [Act(0, Leg2Answered(leg2))];
  }

  /** A task cancelled while its DELETE is unanswered leaves a token cached without its ticket. */
  lemma AbandonedDeleteKeepsToken()
    ensures exists w :: Reachable(w, 1, 1) && w.shared.lock.None? && w.shared.auth.token.Some? && w.shared.auth.tgt.None?
  {
    var w0 := Initial(1, 1);
    var es := SignIn();
    Extend(w0, es, Act(0, ApiAnswered(AuthFailure)));
    es := es + [Act(0, ApiAnswered(AuthFailure))];
    Extend(w0, es, Act(0, TakeLock));
    es := es + [Act(0, TakeLock)];
    Extend(w0, es, Act(0, Cancel(None)));
    es := es + [Act(0, Cancel(None))];
    assert Reachable(Run(w0, es).value, 1, 1);
  }
}
