/** One-time codes of one user: the code and the failed-attempt counter are two Redis keys with their
    own time to live, and the handlers of the user's requests run one after another. */
module Otp {
  import opened Orders

  const OTP_TTL: int := 600
  const ATTEMPTS_MAX: nat := 5

  datatype Code = Code(otp: string, action: Option<string>, expiresAt: int)

  datatype Counter = Counter(count: nat, expiresAt: int)

  /** `failed` and `succeeded` are history: comparisons against the code issued last. */
  datatype Session = Session(now: int, code: Option<Code>, attempts: Option<Counter>, failed: nat, succeeded: nat)

  datatype Request =
    | Wait(seconds: nat)
    | Send(otp: string, action: string)
    | Verify(otp: string, claimed: Option<string>)

  datatype Answer = Verified | Invalid | TooMany

  predicate CodeAlive(s: Session) {
    s.code.Some? && s.now < s.code.value.expiresAt
  }

  predicate CounterAlive(s: Session) {
    s.attempts.Some? && s.now < s.attempts.value.expiresAt
  }

  function Attempts(s: Session): nat {
    if CounterAlive(s) then s.attempts.value.count else 0
  }

  /** INCR, then EXPIRE. */
  function Increment(s: Session): Session {
    s.(attempts := Some(Counter(Attempts(s) + 1, s.now + OTP_TTL)))
  }

  predicate Accepts(code: Code, otp: string, action: Option<string>) {
    code.otp == otp && !(action.Some? && code.action.Some? && code.action != action)
  }

  function Apply(s: Session, request: Request): Session {
    match request
    case Wait(seconds) => s.(now := s.now + seconds)
    case Send(otp, action) => Session(s.now, Some(Code(otp, Some(action), s.now + OTP_TTL)), None, 0, 0)
    case Verify(otp, action) =>
      if Attempts(s) >= ATTEMPTS_MAX then s
      else if !CodeAlive(s) then Increment(s)
      else if !Accepts(s.code.value, otp, action) then Increment(s).(failed := s.failed + 1)
      else s.(code := None, attempts := None, succeeded := s.succeeded + 1)
  }

  /** What `verifyOtp` answers: 200, 401 or 429. */
  function Reply(s: Session, otp: string, claimed: Option<string>): Answer {
    if Attempts(s) >= ATTEMPTS_MAX then TooMany
    else if CodeAlive(s) && Accepts(s.code.value, otp, claimed) then Verified
    else Invalid
  }

  function Run(s: Session, requests: seq<Request>): Session {
    if requests == [] then s else Apply(Run(s, requests[..|requests| - 1]), requests[|requests| - 1])
  }

  const FRESH: Session := Session(0, None, None, 0, 0)

  /** While a code can still be tried its failures are counted in full: the counter never expires first. */
  predicate Counted(s: Session) {
    && s.failed <= ATTEMPTS_MAX
    && s.succeeded <= 1
    && (s.succeeded == 1 ==> s.code.None?)
    && (s.code.Some? && 0 < s.failed ==> s.attempts.Some? && s.code.value.expiresAt <= s.attempts.value.expiresAt)
    && (CodeAlive(s) ==> Attempts(s) == s.failed)
    && (s.code.Some? ==> s.code.value.expiresAt <= s.now + OTP_TTL)
  }

  lemma {:induction false} EveryHistoryIsCounted(requests: seq<Request>)
    ensures Counted(Run(FRESH, requests))
  {
    if requests == [] {
    } else {
      EveryHistoryIsCounted(requests[..|requests| - 1]);
    }
  }

  /** In every history each issued code sees at most five failed comparisons and one success, and a
      user who failed five times is refused for as long as the code lives, even with the right code. */
  lemma GuessesAreBounded(requests: seq<Request>, otp: string, action: Option<string>)
    ensures var s := Run(FRESH, requests);
            && s.failed <= 5 && s.succeeded <= 1
            && (s.failed == 5 && CodeAlive(s) ==> Reply(s, otp, action) == TooMany)
            && (s.succeeded == 1 ==> Reply(s, otp, action) != Verified)
  {
    EveryHistoryIsCounted(requests);
  }

  /** A code is accepted exactly while it lives, after fewer than five failures, for its own action. */
  lemma AcceptedExactly(requests: seq<Request>, otp: string, action: Option<string>)
    requires CodeAlive(Run(FRESH, requests))
    ensures var s := Run(FRESH, requests);
            Reply(s, otp, action) == Verified <==> s.failed < 5 && Accepts(s.code.value, otp, action)
  {
    EveryHistoryIsCounted(requests);
  }

  /** A new code stands alone, whatever came before it: for the next 600 seconds, and no longer, it is
      accepted for its own action or when no action is claimed; every other code is refused, and nobody is
      locked out. */
  lemma SendReplacesTheCode(s: Session, otp: string, action: string, wait: nat, guess: string, claimed: Option<string>)
    ensures var later := Apply(Apply(s, Send(otp, action)), Wait(wait));
            && (Reply(later, guess, claimed) == Verified <==>
                  wait < 600 && guess == otp && (claimed.None? || claimed == Some(action)))
            && Reply(later, guess, claimed) != TooMany
  {
  }

  /** A code that was accepted is spent: until another is sent nothing is accepted, however long one waits.
      The count of failures starts afresh. */
  lemma SuccessSpendsTheCode(s: Session, otp: string, action: Option<string>, wait: nat, guess: string,
      claimed: Option<string>)
    requires Reply(s, otp, action) == Verified
    ensures Reply(Apply(Apply(s, Verify(otp, action)), Wait(wait)), guess, claimed) == Invalid
    ensures Attempts(Apply(s, Verify(otp, action))) == 0
  {
  }

  /** Who is locked out changes nothing by asking, and is let in again by time alone. */
  lemma LockedOutAsksInVain(s: Session, otp: string, action: Option<string>)
    requires Reply(s, otp, action) == TooMany
    ensures Apply(s, Verify(otp, action)) == s
    ensures forall t: nat, guess, claimed ::
              Reply(Apply(s, Wait(t)), guess, claimed) == TooMany <==> s.now + t < s.attempts.value.expiresAt
  {
  }

  /** A refused guess is counted once, leaves the code in place, and the count outlives the code. */
  lemma WrongGuessCounts(requests: seq<Request>, otp: string, action: Option<string>)
    requires Reply(Run(FRESH, requests), otp, action) == Invalid
    ensures var s := Run(FRESH, requests);
            var after := Apply(s, Verify(otp, action));
            && Attempts(after) == Attempts(s) + 1 && after.code == s.code
            && after.attempts.Some? && after.attempts.value.expiresAt == s.now + 600
            && after.failed == s.failed + (if CodeAlive(s) then 1 else 0)
            && forall t: nat :: CodeAlive(Apply(after, Wait(t))) ==> Attempts(Apply(after, Wait(t))) == Attempts(after)
  {
    EveryHistoryIsCounted(requests);
  }

  // ----- The handlers

  class OtpStore {
    var now: int
    var code: Option<Code>
    var attempts: Option<Counter>
    ghost var failed: nat
    ghost var succeeded: nat

    ghost function State(): Session
      reads this
    {
      Session(now, code, attempts, failed, succeeded)
    }

    constructor ()
      ensures State() == FRESH
    {
      now, code, attempts, failed, succeeded := 0, None, None, 0, 0;
    }

    method SendOtp(otp: string, action: string)
      modifies this
      ensures State() == Apply(old(State()), Send(otp, action))
    {
      code := Some(Code(otp, Some(action), now + OTP_TTL));
      attempts := None;
      failed, succeeded := 0, 0;
    }

    method IncrementOtpAttempts()
      modifies this`attempts
      ensures State() == Increment(old(State()))
    {
      var count := if attempts.Some? && now < attempts.value.expiresAt then attempts.value.count else 0;
      attempts := Some(Counter(count + 1, now + OTP_TTL));
    }

    method VerifyOtp(otp: string, action: Option<string>) returns (answer: Answer)
      modifies this
      ensures State() == Apply(old(State()), Verify(otp, action))
      ensures answer == Reply(old(State()), otp, action)
    {
      var count := if attempts.Some? && now < attempts.value.expiresAt then attempts.value.count else 0;
      if count >= ATTEMPTS_MAX {
        return TooMany;
      }
      if code.None? || code.value.expiresAt <= now {
        IncrementOtpAttempts();
        return Invalid;
      }
      var codeMatches := code.value.otp == otp;
      var actionMismatch := action.Some? && code.value.action.Some? && code.value.action != action;
      if !codeMatches || actionMismatch {
        IncrementOtpAttempts();
        failed := failed + 1;
        return Invalid;
      }
      code := None;
      attempts := None;
      succeeded := succeeded + 1;
      answer := Verified;
    }
  }
}
