/** The parts of an organization's settings that decide whether a sign-in may finish, as arithmetic on instants. */
module LoginPolicy {
  import opened Wrappers

  const MILLISECOND := 1_000_000
  const HOUR := 3_600_000_000_000
  const DAY := 24 * HOUR

  // The factor mandate.  Instants are nanoseconds.

  /** `since` is None where the settings hold no instant. */
  datatype Policy = Policy(allowsPassword: bool, mfaRequired: bool, since: Option<int>)

  datatype Mandate = NotRequired | InGrace | EnrolmentRequired

  const GRACE := 14 * DAY

  function RequireMFA(p: Policy, hasFactor: bool, now: int): Mandate {
    if !p.mfaRequired || hasFactor then NotRequired
    else if p.since.None? then InGrace
    else if now < p.since.value + GRACE then InGrace
    else EnrolmentRequired
  }

  /** The instant a page shows as the end of the grace. */
  function Deadline(p: Policy): Option<int> {
    if !p.mfaRequired || p.since.None? then None else Some(p.since.value + GRACE)
  }

  /**
   The page and the decision agree: with no factor, enrolment is forced from the shown deadline on, fourteen days
   after the mandate, and never before it; and once forced it stays forced, until a factor exists.
  */
  lemma DeadlineIsWhenEnrolmentIsForced(p: Policy, hasFactor: bool, now: int, later: int)
    ensures RequireMFA(p, hasFactor, now) == EnrolmentRequired <==>
      && p.mfaRequired && !hasFactor
      && Deadline(p).Some? && Deadline(p).value <= now
    ensures RequireMFA(p, hasFactor, now) == NotRequired <==> !p.mfaRequired || hasFactor
    ensures p.mfaRequired ==>
      Deadline(p) == if p.since.None? then None else Some(p.since.value + 1_209_600_000_000_000)
    ensures now <= later && RequireMFA(p, hasFactor, now) == EnrolmentRequired ==>
      RequireMFA(p, hasFactor, later) == EnrolmentRequired
  {
  }

  /** The mandate is on, and fourteen days of nanoseconds have passed since. */
  predicate GraceIsOver(p: Policy, now: int) {
    p.mfaRequired && p.since.Some? && p.since.value + 1_209_600_000_000_000 <= now
  }

  lemma ForcedFromTheEndOfTheGrace(p: Policy, hasFactor: bool, now: int)
    ensures RequireMFA(p, hasFactor, now) == EnrolmentRequired <==> !hasFactor && GraceIsOver(p, now)
  {
  }

  // The password policy's bounds.

  const MIN_LENGTH_FLOOR := 8
  const MIN_LENGTH_CEILING := 1024
  const MAX_AGE_CEILING := 3650

  datatype Passwords = Passwords(minLength: int, requireUppercase: bool, maxAgeDays: int)

  /** One field moved into its bounds. */
  function Clamp(v: int, low: int, high: int): int {
    if v < low then low else if v > high then high else v
  }

  predicate InBounds(p: Passwords) {
    MIN_LENGTH_FLOOR <= p.minLength <= MIN_LENGTH_CEILING && 0 <= p.maxAgeDays <= MAX_AGE_CEILING
  }

  /** Adjustments are counted: one for each field that had to move. */
  method Sanitize(p: Passwords) returns (r: Passwords, adjustments: nat)
    ensures InBounds(r) && r.requireUppercase == p.requireUppercase
    ensures r.minLength == if p.minLength < 8 then 8 else if p.minLength > 1024 then 1024 else p.minLength
    ensures r.maxAgeDays == if p.maxAgeDays < 0 then 0 else if p.maxAgeDays > 3650 then 3650 else p.maxAgeDays
    ensures adjustments ==
      (if r.minLength == p.minLength then 0 else 1) + (if r.maxAgeDays == p.maxAgeDays then 0 else 1)
    ensures adjustments == 0 <==> r == p
    ensures InBounds(p) ==> r == p
  {
    r, adjustments := p, 0;
    if r.minLength < MIN_LENGTH_FLOOR {
      r, adjustments := r.(minLength := MIN_LENGTH_FLOOR), adjustments + 1;
    }
    if r.minLength > MIN_LENGTH_CEILING {
      r, adjustments := r.(minLength := MIN_LENGTH_CEILING), adjustments + 1;
    }
    if r.maxAgeDays < 0 {
      r, adjustments := r.(maxAgeDays := 0), adjustments + 1;
    }
    if r.maxAgeDays > MAX_AGE_CEILING {
      r, adjustments := r.(maxAgeDays := MAX_AGE_CEILING), adjustments + 1;
    }
  }

  const MAX_DURATION := 0x7FFF_FFFF_FFFF_FFFF

  /** time.Time.Sub: a difference too large for 64 bits saturates. */
  function Sub(a: int, b: int): int {
    Clamp(a - b, -MAX_DURATION - 1, MAX_DURATION)
  }

  /** The password has aged out.  An unknown or future date has not. */
  predicate Expired(changedAt: Option<int>, p: Passwords, now: int) {
    var maxAgeDays := Clamp(p.maxAgeDays, 0, MAX_AGE_CEILING);
    if maxAgeDays <= 0 || changedAt.None? then false
    else if changedAt.value > now then false
    else Sub(now, changedAt.value) > maxAgeDays * DAY
  }

  /**
   Saturation never shows: the longest age that can be configured fits in 64 bits, so a password is
   expired exactly when it is older than its age in exact arithmetic; and it never becomes fresh again.
  */
  lemma ExpiryIsExact(changedAt: Option<int>, p: Passwords, now: int, later: int)
    ensures
      var days := if p.maxAgeDays > 3650 then 3650 else p.maxAgeDays;
      Expired(changedAt, p, now) <==>
        changedAt.Some? && p.maxAgeDays > 0 && now - changedAt.value > days * 86_400_000_000_000
    ensures now <= later && Expired(changedAt, p, now) ==> Expired(changedAt, p, later)
  {
    var days := Clamp(p.maxAgeDays, 0, MAX_AGE_CEILING);
    assert 0 <= days * DAY <= MAX_AGE_CEILING * DAY < MAX_DURATION;
  }
}
