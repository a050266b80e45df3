/** The request loop of the API client: bounded retries with backoff, one re-authentication, and
    the rule against sending a write twice.  Answers, renewals and jitter come from an oracle. */
module Client {
  import opened Options
  import opened Strings

  const RETRYABLE_STATUS: set<int> := {429, 502, 503, 504}
  const IDEMPOTENT_METHODS: set<string> := {"GET", "HEAD", "OPTIONS", "PUT", "DELETE"}
  const DELAY_CAP := 30.0

  /** float(Retry-After), when there is a header and it is a number. */
  datatype Hint = NoHint | Text | Seconds(s: real) | Infinite | MinusInfinite | NotANumber

  datatype Answer = Lost | Reply(status: int, authFailure: bool, hint: Hint)

  /** handle_unauthorized: send again, do not, or the login failed. */
  datatype Renewal = Renewed | NotRenewed | LoginFailed

  type Fraction = x: real | 0.0 <= x <= 1.0

  /** What the n-th turn of the loop meets: whether ensure_authenticated succeeds, the answer, the
      renewal should one be asked for, and the jitter. */
  datatype Turn = Turn(ready: bool, answer: Answer, renewal: Renewal, jitter: Fraction)

  datatype Then = Slept(seconds: real) | Reauthenticated | Ended

  /** One send: its answer, and what the loop did next. */
  datatype Send = Send(answer: Answer, next: Then)

  datatype Outcome = Returned(reply: Answer) | Unreachable | LoginError

  function Power(n: nat): real {
    if n == 0 then 1.0 else 2.0 * Power(n - 1)
  }

  /** max(delay, float(retry_after)), as Python compares a not-a-number. */
  function Hinted(delay: real, hint: Hint): real {
    match hint
    case Seconds(s) => if s > delay then s else delay
    case Infinite => DELAY_CAP
    case _ => delay
  }

  /** How long attempt n sleeps: capped before the jitter, a quarter at most, is added. */
  function Delay(backoff: real, attempt: nat, hint: Hint, jitter: Fraction): real {
    var capped := Capped(Hinted(Exponential(backoff, attempt), hint));
    capped + Jitter(capped, jitter)
  }

  function Exponential(backoff: real, attempt: nat): real {
    backoff * Power(attempt)
  }

  function Capped(delay: real): real {
    if DELAY_CAP < delay then DELAY_CAP else delay
  }

  /** random.uniform(0, delay / 4). */
  function Jitter(delay: real, f: Fraction): real {
    f * (delay / 4.0)
  }

  lemma {:induction false} PowerPositive(n: nat)
    ensures Power(n) >= 1.0
  {
    if n > 0 { PowerPositive(n - 1); }
  }

  /** No Retry-After makes the client sleep longer than 37.5 seconds. */
  lemma DelayBounded(backoff: real, attempt: nat, hint: Hint, jitter: Fraction)
    requires backoff >= 0.0
    ensures 0.0 <= Delay(backoff, attempt, hint, jitter) <= 37.5
    ensures hint.Seconds? && 0.0 <= hint.s <= DELAY_CAP ==> hint.s <= Delay(backoff, attempt, hint, jitter)
  {
    ExponentialPositive(backoff, attempt);
    hide Exponential;
    var capped := Capped(Hinted(Exponential(backoff, attempt), hint));
    JitterBounded(capped, jitter);
    hide Jitter;
    assert 0.0 <= capped <= 30.0;
  }

  lemma ExponentialPositive(backoff: real, attempt: nat)
    requires backoff >= 0.0
    ensures Exponential(backoff, attempt) >= 0.0
  {
    PowerPositive(attempt);
    Positive(backoff, Power(attempt));
  }

  lemma JitterBounded(delay: real, f: Fraction)
    requires delay >= 0.0
    ensures 0.0 <= Jitter(delay, f) <= delay / 4.0
  {
    var quarter: real := delay / 4.0;
    Scaled(f, quarter);
    assert Jitter(delay, f) == f * quarter;
  }

  lemma Positive(x: real, y: real)
    requires x >= 0.0 && y >= 0.0
    ensures x * y >= 0.0
  {}

  lemma Scaled(f: real, x: real)
    requires 0.0 <= f <= 1.0 && x >= 0.0
    ensures 0.0 <= f * x <= x
  {
    Positive(f, x);
    Positive(1.0 - f, x);
    assert (1.0 - f) * x == x - f * x;
  }

  /** How the sleeps grow: they start at the configured delay and double until the cap; a number of
      seconds lengthens them up to the cap, any other header does not; the jitter adds up to a quarter. */
  lemma DelayMeans(backoff: real, attempt: nat, hint: Hint, jitter: Fraction)
    requires backoff >= 0.0
    ensures Delay(backoff, 0, NoHint, 0.0) == Least(backoff, 30.0)
    ensures Delay(backoff, attempt + 1, NoHint, 0.0) == Least(2.0 * Delay(backoff, attempt, NoHint, 0.0), 30.0)
    ensures hint.Seconds? ==>
      Delay(backoff, attempt, hint, 0.0) == Least(Greatest(Delay(backoff, attempt, NoHint, 0.0), hint.s), 30.0)
    ensures hint.Infinite? ==> Delay(backoff, attempt, hint, 0.0) == 30.0
    ensures !hint.Seconds? && !hint.Infinite? ==>
      Delay(backoff, attempt, hint, 0.0) == Delay(backoff, attempt, NoHint, 0.0)
    ensures Delay(backoff, attempt, hint, jitter) == Delay(backoff, attempt, hint, 0.0) * (1.0 + jitter / 4.0)
  {
    hide Exponential, Delay, Jitter;
    Doubles(backoff, attempt);
    ExponentialPositive(backoff, attempt);
    NoJitter(backoff, 0, NoHint);
    NoJitter(backoff, attempt, NoHint);
    NoJitter(backoff, attempt + 1, NoHint);
    NoJitter(backoff, attempt, hint);
    WithJitter(backoff, attempt, hint, jitter);
  }

  lemma Doubles(backoff: real, attempt: nat)
    ensures Exponential(backoff, 0) == backoff
    ensures Exponential(backoff, attempt + 1) == 2.0 * Exponential(backoff, attempt)
  {
    assert Power(0) == 1.0 && Power(attempt + 1) == 2.0 * Power(attempt);
    Doubled(backoff, Power(attempt));
  }

  lemma WithJitter(backoff: real, attempt: nat, hint: Hint, jitter: Fraction)
    ensures Delay(backoff, attempt, hint, jitter) == Delay(backoff, attempt, hint, 0.0) * (1.0 + jitter / 4.0)
  {
    hide Exponential, Jitter;
    var capped := Capped(Hinted(Exponential(backoff, attempt), hint));
    NoJitter(backoff, attempt, hint);
    Stretched(capped, jitter);
  }

  function Least(a: real, b: real): real {
    if a < b then a else b
  }

  function Greatest(a: real, b: real): real {
    if a < b then b else a
  }

  lemma NoJitter(backoff: real, attempt: nat, hint: Hint)
    ensures Delay(backoff, attempt, hint, 0.0) == Capped(Hinted(Exponential(backoff, attempt), hint))
  {
    hide Exponential;
  }

  lemma Doubled(x: real, y: real)
    ensures x * (2.0 * y) == 2.0 * (x * y)
  {}

  lemma Stretched(x: real, f: Fraction)
    ensures x + Jitter(x, f) == x * (1.0 + f / 4.0)
  {
    assert f * (x / 4.0) == x * (f / 4.0);
  }

  function TotalSleep(log: seq<Send>): real {
    if log == [] then 0.0
    else TotalSleep(log[..|log| - 1]) + if log[|log| - 1].next.Slept? then log[|log| - 1].next.seconds else 0.0
  }

  function Sleeps(log: seq<Send>): nat {
    if log == [] then 0 else Sleeps(log[..|log| - 1]) + if log[|log| - 1].next.Slept? then 1 else 0
  }

  function Renewals(log: seq<Send>): nat {
    if log == [] then 0 else Renewals(log[..|log| - 1]) + if log[|log| - 1].next.Reauthenticated? then 1 else 0
  }

  /** The answer may be followed by a backoff: refused before it was processed, or, if the request
      may be sent twice, a failure that may pass. */
  predicate MayBackOff(a: Answer, retryable: bool, accepted: set<int>) {
    match a
    case Lost => retryable
    case Reply(status, _, _) => status !in accepted && (status == 429 || (retryable && status in RETRYABLE_STATUS))
  }

  lemma BacksOffWhen(a: Answer, retryable: bool, accepted: set<int>)
    requires a.Reply?
    ensures MayBackOff(a, retryable, accepted)
      <==> a.status !in accepted && (a.status == 429 || (retryable && a.status in {502, 503, 504}))
  {}

  /** What may follow the send of turn n, `sleeps` backoffs in. */
  ghost predicate Permitted(send: Send, n: nat, sleeps: nat, turns: nat -> Turn, retryable: bool, accepted: set<int>,
                            backoff: real) {
    && send.answer == turns(n).answer
    && match send.next
       case Slept(seconds) =>
         && MayBackOff(send.answer, retryable, accepted)
         && seconds == Delay(backoff, sleeps, if send.answer.Reply? then send.answer.hint else NoHint, turns(n).jitter)
       case Reauthenticated => send.answer.Reply? && send.answer.authFailure && turns(n).renewal.Renewed?
       case Ended => true
  }

  /** Every send but the last is followed by another, each for a permitted reason. */
  ghost predicate Disciplined(log: seq<Send>, turns: nat -> Turn, retryable: bool, accepted: set<int>, backoff: real)
    decreases |log|
  {
    log != [] ==>
      var n := |log| - 1;
      && Disciplined(log[..n], turns, retryable, accepted, backoff)
      && (n > 0 ==> !log[n - 1].next.Ended?)
      && Permitted(log[n], n, Sleeps(log[..n]), turns, retryable, accepted, backoff)
  }

  /** A disciplined log that has not ended. */
  ghost predicate Ongoing(log: seq<Send>, turns: nat -> Turn, retryable: bool, accepted: set<int>, backoff: real) {
    Disciplined(log, turns, retryable, accepted, backoff) && (log != [] ==> !log[|log| - 1].next.Ended?)
  }

  predicate NotRenewedAfter(a: Answer, turn: Turn) {
    a.Reply? && a.authFailure && turn.renewal.NotRenewed?
  }

  /** A re-authentication was due and did not renew the token. */
  predicate RefusedAt(send: Send, turn: Turn) {
    NotRenewedAfter(send.answer, turn) && !send.next.Reauthenticated?
  }

  predicate Refused(log: seq<Send>, turns: nat -> Turn) {
    log != [] && (Refused(log[..|log| - 1], turns) || RefusedAt(log[|log| - 1], turns(|log| - 1)))
  }

  class ApiClient {
    const maxRetries: nat
    const backoffSeconds: real

    constructor (maxRetries: nat, backoffSeconds: real)
      ensures this.maxRetries == maxRetries && this.backoffSeconds == backoffSeconds
    {
      this.maxRetries := maxRetries;
      this.backoffSeconds := backoffSeconds;
    }

    /** _backoff, returning how long it slept. */
    method Backoff(attempt: nat, hint: Hint, jitter: Fraction) returns (slept: real)
      requires backoffSeconds >= 0.0
      ensures slept == Delay(backoffSeconds, attempt, hint, jitter) && 0.0 <= slept <= 37.5
    {
      DelayBounded(backoffSeconds, attempt, hint, jitter);
      var delay := Exponential(backoffSeconds, attempt);
      match hint {
        case Seconds(s) => if s > delay { delay := s; }
        case Infinite => delay := DELAY_CAP;
        case _ =>
      }
      if DELAY_CAP < delay { delay := DELAY_CAP; }
      slept := delay + Jitter(delay, jitter);
    }

    /** _request_with_retries, with the log of what it sent. */
    method RequestWithRetries(turns: nat -> Turn, retryable: bool, accepted: set<int>)
      returns (outcome: Outcome, log: seq<Send>)
      requires backoffSeconds >= 0.0
      ensures Disciplined(log, turns, retryable, accepted, backoffSeconds)
      ensures Sleeps(log) <= maxRetries && Renewals(log) <= 1 && |log| <= maxRetries + 2
      ensures outcome.Returned? ==> log != [] && outcome.reply == log[|log| - 1].answer && outcome.reply.Reply?
      ensures outcome.Returned? && Sleeps(log) < maxRetries ==> !MayBackOff(outcome.reply, retryable, accepted)
      ensures outcome.Returned? && outcome.reply.status !in accepted && outcome.reply.status == 429 ==> Sleeps(log) == maxRetries
      ensures retryable && outcome.Returned? && outcome.reply.status !in accepted ==>
        outcome.reply.status in {502, 503, 504} ==> Sleeps(log) == maxRetries
      ensures outcome.Returned? && outcome.reply.authFailure ==> Renewals(log) == 1 || Refused(log, turns)
      ensures outcome.Unreachable? ==> log != [] && log[|log| - 1].answer.Lost? && (retryable ==> Sleeps(log) == maxRetries)
      ensures outcome.LoginError? ==> !turns(|log|).ready || (log != [] && turns(|log| - 1).renewal.LoginFailed?)
    {
      hide Delay, RefusedAt, Permitted, MayBackOff;
      var attempt := 0;
      var reauthAttempted := false;
      log := [];
      while true
        invariant attempt == Sleeps(log) <= maxRetries && |log| == Sleeps(log) + Renewals(log)
        invariant Renewals(log) <= (if reauthAttempted then 1 else 0)
        invariant reauthAttempted ==> Renewals(log) == 1 || Refused(log, turns)
        invariant Ongoing(log, turns, retryable, accepted, backoffSeconds)
        decreases maxRetries - attempt, if reauthAttempted then 0 else 1
      {
        var turn := turns(|log|);
        if !turn.ready {
          return LoginError, log;
        }
        var answer := turn.answer;
        if answer.Lost? {
          if retryable && attempt < maxRetries {
            log := Sleep(log, attempt, answer, NoHint, turn.jitter, turns, retryable, accepted);
            attempt := attempt + 1;
            continue;
          }
          log := End(log, answer, turns, retryable, accepted);
          return Unreachable, log;
        }
        if !reauthAttempted && answer.authFailure {
          reauthAttempted := true;
          if turn.renewal.LoginFailed? {
            log := End(log, answer, turns, retryable, accepted);
            return LoginError, log;
          }
          if turn.renewal.Renewed? {
            log := Renew(log, answer, turns, retryable, accepted);
            continue;
          }
        }
        if attempt < maxRetries && MayBackOff(answer, retryable, accepted) {
          log := Sleep(log, attempt, answer, answer.hint, turn.jitter, turns, retryable, accepted);
          attempt := attempt + 1;
          continue;
        }
        log := End(log, answer, turns, retryable, accepted);
        BacksOffWhen(answer, retryable, accepted);
        return Returned(answer), log;
      }
    }

    /** Back off after an answer that permits it. */
    method Sleep(log: seq<Send>, attempt: nat, answer: Answer, hint: Hint, jitter: Fraction,
                 ghost turns: nat -> Turn, ghost retryable: bool, ghost accepted: set<int>)
      returns (more: seq<Send>)
      requires backoffSeconds >= 0.0 && Ongoing(log, turns, retryable, accepted, backoffSeconds) && attempt == Sleeps(log)
      requires answer == turns(|log|).answer && jitter == turns(|log|).jitter
      requires hint == (if answer.Reply? then answer.hint else NoHint) && (answer.Lost? ==> retryable)
      requires answer.Reply? ==> MayBackOff(answer, retryable, accepted)
      ensures Ongoing(more, turns, retryable, accepted, backoffSeconds)
      ensures |more| == |log| + 1 && Sleeps(more) == Sleeps(log) + 1 && Renewals(more) == Renewals(log)
      ensures Refused(log, turns) || NotRenewedAfter(answer, turns(|log|)) ==> Refused(more, turns)
    {
      var slept := Backoff(attempt, hint, jitter);
      Appended(log, Send(answer, Slept(slept)), turns, retryable, accepted, backoffSeconds);
      more := log + [Send(answer, Slept(slept))];
    }

    /** Send again with the renewed token. */
    method Renew(log: seq<Send>, answer: Answer, ghost turns: nat -> Turn, ghost retryable: bool,
                 ghost accepted: set<int>)
      returns (more: seq<Send>)
      requires Ongoing(log, turns, retryable, accepted, backoffSeconds) && answer == turns(|log|).answer
      requires answer.Reply? && answer.authFailure && turns(|log|).renewal.Renewed?
      ensures Ongoing(more, turns, retryable, accepted, backoffSeconds)
      ensures |more| == |log| + 1 && Sleeps(more) == Sleeps(log) && Renewals(more) == Renewals(log) + 1
    {
      Appended(log, Send(answer, Reauthenticated), turns, retryable, accepted, backoffSeconds);
      more := log + [Send(answer, Reauthenticated)];
    }

    /** Nothing follows this answer. */
    method End(log: seq<Send>, answer: Answer, ghost turns: nat -> Turn, ghost retryable: bool,
               ghost accepted: set<int>)
      returns (more: seq<Send>)
      requires Ongoing(log, turns, retryable, accepted, backoffSeconds) && answer == turns(|log|).answer
      ensures Disciplined(more, turns, retryable, accepted, backoffSeconds)
      ensures |more| == |log| + 1 && more[|log|] == Send(answer, Ended)
      ensures Sleeps(more) == Sleeps(log) && Renewals(more) == Renewals(log)
      ensures Refused(log, turns) || NotRenewedAfter(answer, turns(|log|)) ==> Refused(more, turns)
    {
      Appended(log, Send(answer, Ended), turns, retryable, accepted, backoffSeconds);
      more := log + [Send(answer, Ended)];
    }
  }

  lemma Appended(log: seq<Send>, send: Send, turns: nat -> Turn, retryable: bool, accepted: set<int>, backoff: real)
    requires Ongoing(log, turns, retryable, accepted, backoff)
    requires Permitted(send, |log|, Sleeps(log), turns, retryable, accepted, backoff)
    ensures var more := log + [send];
      && Disciplined(more, turns, retryable, accepted, backoff)
      && (!send.next.Ended? ==> Ongoing(more, turns, retryable, accepted, backoff))
      && Sleeps(more) == Sleeps(log) + (if send.next.Slept? then 1 else 0)
      && Renewals(more) == Renewals(log) + (if send.next.Reauthenticated? then 1 else 0)
      && (Refused(more, turns) <==> Refused(log, turns) || RefusedAt(send, turns(|log|)))
  {
    assert (log + [send])[..|log|] == log;
  }

  /** Each send of a disciplined log was permitted, and only the last can have ended it. */
  lemma {:induction false} SendPermitted(log: seq<Send>, turns: nat -> Turn, retryable: bool, accepted: set<int>,
                                         backoff: real, i: nat)
    requires Disciplined(log, turns, retryable, accepted, backoff) && i < |log|
    ensures Permitted(log[i], i, Sleeps(log[..i]), turns, retryable, accepted, backoff)
    ensures i < |log| - 1 ==> !log[i].next.Ended?
    decreases |log|
  {
    var n := |log| - 1;
    if i < n {
      SendPermitted(log[..n], turns, retryable, accepted, backoff, i);
      assert log[..n][..i] == log[..i];
    }
  }

  // -- what the discipline means ---------------------------------------------------------------------

  /** A write is sent again only when it was rejected unprocessed (429) or unauthenticated. */
  lemma WritesNotRepeated(log: seq<Send>, turns: nat -> Turn, accepted: set<int>, backoff: real, i: nat)
    requires Disciplined(log, turns, false, accepted, backoff) && i + 1 < |log|
    ensures log[i].answer.Reply? && (log[i].answer.status == 429 || (log[i].answer.authFailure && log[i].next.Reauthenticated?))
  {
    SendPermitted(log, turns, false, accepted, backoff, i);
  }

  /** An accepted status is never followed by a backoff. */
  lemma AcceptedNotRetried(log: seq<Send>, turns: nat -> Turn, retryable: bool, accepted: set<int>, backoff: real,
                           i: nat)
    requires Disciplined(log, turns, retryable, accepted, backoff) && i < |log|
    requires log[i].answer.Reply? && log[i].answer.status in accepted
    ensures !log[i].next.Slept?
  {
    SendPermitted(log, turns, retryable, accepted, backoff, i);
  }

  /** However long the server asks to wait, the loop sleeps at most 37.5 seconds per retry. */
  lemma {:induction false} TotalSleepBounded(log: seq<Send>, turns: nat -> Turn, retryable: bool, accepted: set<int>,
                                             backoff: real)
    requires Disciplined(log, turns, retryable, accepted, backoff) && backoff >= 0.0
    ensures 0.0 <= TotalSleep(log) <= 37.5 * Sleeps(log) as real
    decreases |log|
  {
    if log == [] {
    } else {
      var n := |log| - 1;
      var init := log[..n];
      TotalSleepBounded(init, turns, retryable, accepted, backoff);
      if log[n].next.Slept? {
        DelayBounded(backoff, Sleeps(init), if log[n].answer.Reply? then log[n].answer.hint else NoHint, turns(n).jitter);
      }
    }
  }

  /** The default: a method section 9.2.2 of RFC 9110 calls idempotent, in any case. */
  function Resendable(verb: string, retryable: Option<bool>): bool {
    if retryable.Some? then retryable.value else Upper(verb) in IDEMPOTENT_METHODS
  }

  lemma UpperKept(m: string)
    requires forall i :: 0 <= i < |m| ==> !('a' <= m[i] <= 'z')
    ensures Upper(m) == m
  {
    UpperEach(m);
  }

  lemma IdempotentAreUpper(m: string)
    requires m in IDEMPOTENT_METHODS
    ensures Upper(m) == m
  {
    hide Upper;
    assert forall i :: 0 <= i < |m| ==> !('a' <= m[i] <= 'z') by {
      if m == "GET" {} else if m == "HEAD" {} else if m == "OPTIONS" {} else if m == "PUT" {} else { assert m == "DELETE"; }
    }
    UpperKept(m);
  }

  /** Unless the caller decides, a request is resendable exactly when its method is an idempotent one in
      some spelling, and spellings of one method fare alike. */
  lemma DefaultResendable(verb: string, other: string)
    ensures Resendable(verb, None) <==> exists m :: m in IDEMPOTENT_METHODS && EqualUpToCase(verb, m)
    ensures EqualUpToCase(verb, other) ==> Resendable(verb, None) == Resendable(other, None)
  {
    hide EqualUpToCase, Upper;
    UpperFolds(verb, other);
    forall m | m in IDEMPOTENT_METHODS ensures Upper(verb) == m <==> EqualUpToCase(verb, m) {
      IdempotentAreUpper(m);
      UpperFolds(verb, m);
    }
  }
}
