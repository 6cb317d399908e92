/**
 What becomes of a sign-in whose organization stops permitting passwords between the password and the second
 step.  The policy is read again before the session is made, but the permission is not looked at again.
*/
module LoginReread {
  import opened EnrolStore
  import opened Factors
  import opened LoginPolicy
  import opened LoginProtocol
  import opened RedisStore
  import opened Sessions
  import opened Wrappers

  /** The operation that reads the user and the policy again, then the one that issues the session. */
  function Finish(r: nat, load: Luck, issue: Luck): seq<Step> {
    [Advance(r, load), Advance(r, issue)]
  }

  /**
   Exactly what stops a login at its second reading: a failure to read, or a user who may no longer sign in,
   or a transaction that does not commit.  What the policy says about passwords is not among them.
  */
  lemma StoppedIff(s: State, r: nat, load: Luck, issue: Luck)
    requires r in s.requests && s.requests[r].pc.LoadUser?
    ensures
      var s' := Run(s, Finish(r, load, issue));
      var q := s.requests[r];
      (exists i :: |s.log| <= i < |s'.log| && s'.log[i].SignedIn?) <==> load.ok && Committed(s, q.pc.who, issue)
    ensures load.ok && Committed(s, s.requests[r].pc.who, issue) ==>
      var s' := Run(s, Finish(r, load, issue));
      var q := s.requests[r];
      s'.log == s.log +
        [PolicyReread(q.pc.who, q.pending, load.policy), SignedIn(q.pc.who, q.pending, issue.id, q.pc.via)]
  {
    var q := s.requests[r];
    RunTwo(s, Advance(r, load), Advance(r, issue));
    var s1 := AdvanceRequest(s, r, load);
    var s2 := AdvanceRequest(s1, r, issue);
    if load.ok {
      assert s1.requests[r] == Request(q.pending, Issue(q.pc.who, q.pc.via));
      assert s1.log == s.log + [PolicyReread(q.pc.who, q.pending, load.policy)];
      if Committed(s, q.pc.who, issue) {
        var end := SignedIn(q.pc.who, q.pending, issue.id, q.pc.via);
        assert s2.log == s.log + [PolicyReread(q.pc.who, q.pending, load.policy), end];
        assert s2.log[|s.log| + 1] == end;
      } else {
        assert s2.log == s1.log;
      }
    } else {
      assert s1.requests[r] == Request(q.pending, Done) && s2.log == s.log;
    }
  }

  /** A second-step session for a sign-in whose policy, read again, no longer permits passwords. */
  predicate Disallowed(log: seq<Fact>) {
    exists i, j :: 0 <= i < j < |log| && IsDisallowed(log[i], log[j])
  }

  predicate IsDisallowed(reread: Fact, session: Fact) {
    && reread.PolicyReread? && !reread.policy.allowsPassword
    && session.SignedIn? && !session.via.ByPassword?
    && session.who == reread.who && session.pending == reread.pending
  }

  /** Some kind of factor can be challenged with. */
  predicate CanChallenge(config: Config) {
    config.framework.Some? &&
    var fw := config.framework.value;
    fw.passkeys || exists k :: k in fw.codes && k != WEBAUTHN
  }

  // Where there is a second step, it happens.

  const SOMEBODY := Who("user", "org")

  const PENDING: Id := "request"

  /** Everything works, and the code or factor is right. */
  function Goes(policy: Policy): Luck {
    Luck(true, SOMEBODY, policy, "id", Right, NoneDue, Acknowledged, Faults(true, true, true, true, Acknowledged), None)
  }

  /** Permits passwords, and has required a factor since long before the epoch. */
  const FORCED := Policy(true, true, Some(-GRACE))

  const FORBIDDEN := Policy(false, true, Some(-GRACE))

  lemma FinishIsDisallowed(s: State, r: nat)
    requires r in s.requests && s.requests[r].pc.LoadUser? && !s.requests[r].pc.via.ByPassword?
    requires "id" !in s.db.sessions
    ensures Disallowed(Run(s, Finish(r, Goes(FORBIDDEN), Goes(FORCED))).log)
  {
    StoppedIff(s, r, Goes(FORBIDDEN), Goes(FORCED));
    var log := Run(s, Finish(r, Goes(FORBIDDEN), Goes(FORCED))).log;
    assert IsDisallowed(log[|s.log|], log[|s.log| + 1]);
  }

  lemma PasswordStepChallenges(s: State, fw: Framework, kind: Kind)
    requires s.requests == map[] && s.challenges == map[] && s.config.framework == Some(fw) && CanVerify(fw, kind)
    requires s.factors == map["id" := Owned(SOMEBODY, Factor("id", kind, true))]
    requires !Empty(fw)
    ensures
      var l := Goes(FORCED);
      var s' := Run(s, [Start(0, PENDING, Verify), Advance(0, l), Advance(0, l)]);
      && s'.requests == map[0 := Request(PENDING, Done)] && s'.db == s.db && s'.now == s.now && s'.config == s.config
      && s'.challenges == map["id" := Cell(Doc(Challenged(SOMEBODY, PENDING)), Some(s.now + CHALLENGE_TTL))]
  {
    var l := Goes(FORCED);
    RunThree(s, Start(0, PENDING, Verify), Advance(0, l), Advance(0, l));
    assert Answerable(fw, s.factors["id"].factor);
    var s1 := Apply(s, Start(0, PENDING, Verify));
    var s2 := AdvanceRequest(s1, 0, l);
    assert s2.requests[0] == Request(PENDING, AskFactors(SOMEBODY, FORCED));
    assert FactorAsked(s2, SOMEBODY);
  }

  lemma ChallengeIsRead(s: State)
    requires s.requests == map[0 := Request(PENDING, Done)] && s.config.framework.Some?
    requires s.challenges == map["id" := Cell(Doc(Challenged(SOMEBODY, PENDING)), Some(s.now + CHALLENGE_TTL))]
    ensures
      var s' := Run(s, [Start(1, PENDING, ReadChallenge("id")), Advance(1, Goes(FORCED))]);
      1 in s'.requests && s'.requests[1] == Request(PENDING, Answer("id", SOMEBODY)) && s'.db == s.db
  {
    RunTwo(s, Start(1, PENDING, ReadChallenge("id")), Advance(1, Goes(FORCED)));
    var s1 := Apply(s, Start(1, PENDING, ReadChallenge("id")));
    assert Read(s1.challenges, "id", s1.now) == Some(Doc(Challenged(SOMEBODY, PENDING)));
  }

  /** From a request about to answer rightly: the second reading, and the session. */
  lemma AnswerIsDisallowed(s: State) returns (steps: seq<Step>)
    requires 1 in s.requests && s.requests[1] == Request(PENDING, Answer("id", SOMEBODY)) && "id" !in s.db.sessions
    ensures Disallowed(Run(s, steps).log)
  {
    var answer := Advance(1, Goes(FORCED));
    RunOne(s, answer);
    assert Run(s, [answer]).requests[1] == Request(PENDING, LoadUser(SOMEBODY, ByChallenge));
    FinishIsDisallowed(Run(s, [answer]), 1);
    steps := Then(s, [answer], Finish(1, Goes(FORBIDDEN), Goes(FORCED)));
  }

  lemma Then(s: State, a: seq<Step>, b: seq<Step>) returns (steps: seq<Step>)
    requires Disallowed(Run(Run(s, a), b).log)
    ensures Disallowed(Run(s, steps).log)
  {
    RunAppend(s, a, b);
    steps := a + b;
  }

  /** With a factor to answer, a disallowed login completes. */
  lemma ChallengedLoginCompletes(s0: State) returns (steps: seq<Step>)
    requires Initial(s0) && CanChallenge(s0.config)
    ensures Disallowed(Run(s0, steps).log)
  {
    var fw := s0.config.framework.value;
    var kind := WEBAUTHN;
    if !fw.passkeys {
      kind :| kind in fw.codes && kind != WEBAUTHN;
    }
    var enrol := ChangeFactors(map["id" := Owned(SOMEBODY, Factor("id", kind, true))]);
    var password := [Start(0, PENDING, Verify), Advance(0, Goes(FORCED)), Advance(0, Goes(FORCED))];
    var read := [Start(1, PENDING, ReadChallenge("id")), Advance(1, Goes(FORCED))];
    RunOne(s0, enrol);
    var s1 := Run(s0, [enrol]);
    PasswordStepChallenges(s1, fw, kind);
    var s2 := Run(s1, password);
    ChallengeIsRead(s2);
    steps := AnswerIsDisallowed(Run(s2, read));
    steps := Then(s2, read, steps);
    steps := Then(s1, password, steps);
    steps := Then(s0, [enrol], steps);
  }

  lemma PasswordStepReachesTheMandate(s: State)
    requires s.requests == map[] && s.factors == map[]
    ensures
      var l := Goes(FORCED);
      var s' := Run(s, [Start(0, PENDING, Verify), Advance(0, l), Advance(0, l)]);
      && s'.requests == map[0 := Request(PENDING, AskMandate(SOMEBODY, FORCED))] && s'.factors == map[]
      && s'.enrolments == s.enrolments && s'.db == s.db && s'.now == s.now && s'.config == s.config
  {
    var l := Goes(FORCED);
    RunThree(s, Start(0, PENDING, Verify), Advance(0, l), Advance(0, l));
    var s1 := Apply(s, Start(0, PENDING, Verify));
    var s2 := AdvanceRequest(s1, 0, l);
    assert s2.requests[0] == Request(PENDING, AskFactors(SOMEBODY, FORCED));
    assert !FactorAsked(s2, SOMEBODY);
  }

  function FreshEnrolment(): EnrolState {
    EnrolState("user", "org", PENDING, "id", 0, false)
  }

  lemma MandateEnrols(s: State)
    requires s.requests == map[0 := Request(PENDING, AskMandate(SOMEBODY, FORCED))] && s.config.enrols
    requires s.factors == map[] && s.enrolments == map[]
    ensures
      var l := Goes(FORCED);
      var s' := Run(s, [Advance(0, l), Advance(0, l), Advance(0, l)]);
      && s'.requests == map[0 := Request(PENDING, Done)] && s'.db == s.db && s'.now == s.now && s'.config == s.config
      && s'.enrolments == map["id" := Cell(Doc(FreshEnrolment()), Some(s.now + ENROLMENT_TTL))]
      && s'.factors == map["id" := Owned(SOMEBODY, Factor("id", TOTP, false))]
  {
    var l := Goes(FORCED);
    RunThree(s, Advance(0, l), Advance(0, l), Advance(0, l));
    assert MandateForces(FORCED, s.now);
    var s1 := AdvanceRequest(s, 0, l);
    assert s1.requests[0] == Request(PENDING, Begin(SOMEBODY));
    var s2 := AdvanceRequest(s1, 0, l);
    assert s2.requests[0] == Request(PENDING, StoreEnrolment(SOMEBODY, "id"));
  }

  lemma EnrolmentIsRead(s: State)
    requires s.requests == map[0 := Request(PENDING, Done)] && s.config.enrols
    requires s.enrolments == map["id" := Cell(Doc(FreshEnrolment()), Some(s.now + ENROLMENT_TTL))]
    ensures
      var s' := Run(s, [Start(1, PENDING, ReadEnrolment("id", Code)), Advance(1, Goes(FORCED))]);
      && 1 in s'.requests && s'.requests[1] == Request(PENDING, Confirm("id", FreshEnrolment()))
      && s'.requests == s.requests[1 := s'.requests[1]] && s'.db == s.db && s'.factors == s.factors
      && s'.enrolments == s.enrolments && s'.now == s.now && s'.config == s.config
  {
    RunTwo(s, Start(1, PENDING, ReadEnrolment("id", Code)), Advance(1, Goes(FORCED)));
    var s1 := Apply(s, Start(1, PENDING, ReadEnrolment("id", Code)));
    assert Lookup(s1.enrolments, "id", s1.now, true) == Success(FreshEnrolment());
  }

  /** From a request about to confirm rightly: no codes due, the second reading, and the session. */
  lemma ConfirmIsDisallowed(s: State) returns (steps: seq<Step>)
    requires 1 in s.requests && s.requests[1] == Request(PENDING, Confirm("id", FreshEnrolment()))
    requires "id" !in s.db.sessions
    requires s.factors == map["id" := Owned(SOMEBODY, Factor("id", TOTP, false))]
    ensures Disallowed(Run(s, steps).log)
  {
    var next := Advance(1, Goes(FORCED));
    RunTwo(s, next, next);
    var s1 := Apply(s, next);
    assert s1.requests[1] == Request(PENDING, IssueCodes("id", FreshEnrolment())) && s1.db == s.db;
    var s2 := Apply(s1, next);
    assert s2.requests[1] == Request(PENDING, LoadUser(SOMEBODY, ByEnrolment("id", "id"))) && s2.db == s.db;
    FinishIsDisallowed(s2, 1);
    steps := Then(s, [next, next], Finish(1, Goes(FORBIDDEN), Goes(FORCED)));
  }

  /** One enrolment, just stored, and nobody about to do anything. */
  predicate JustEnrolled(s0: State, s: State) {
    && s.requests == map[0 := Request(PENDING, Done)] && s.db == s0.db && s.config == s0.config
    && s.enrolments == map["id" := Cell(Doc(FreshEnrolment()), Some(s.now + ENROLMENT_TTL))]
    && s.factors == map["id" := Owned(SOMEBODY, Factor("id", TOTP, false))]
  }

  lemma EnrolmentIsReached(s0: State) returns (steps: seq<Step>)
    requires Initial(s0) && s0.config.enrols
    ensures JustEnrolled(s0, Run(s0, steps))
  {
    var next := Advance(0, Goes(FORCED));
    var password, enrol := [Start(0, PENDING, Verify), next, next], [next, next, next];
    RunOne(s0, ChangeFactors(map[]));
    var s1 := Run(s0, [ChangeFactors(map[])]);
    PasswordStepReachesTheMandate(s1);
    MandateEnrols(Run(s1, password));
    RunAppend(s1, password, enrol);
    RunAppend(s0, [ChangeFactors(map[])], password + enrol);
    steps := [ChangeFactors(map[])] + (password + enrol);
  }

  /** With an enrolment to finish, a disallowed login completes. */
  lemma EnrolledLoginCompletes(s0: State) returns (steps: seq<Step>)
    requires Initial(s0) && s0.config.enrols
    ensures Disallowed(Run(s0, steps).log)
  {
    var first := EnrolmentIsReached(s0);
    var s1 := Run(s0, first);
    var read := [Start(1, PENDING, ReadEnrolment("id", Code)), Advance(1, Goes(FORCED))];
    EnrolmentIsRead(s1);
    steps := ConfirmIsDisallowed(Run(s1, read));
    steps := Then(s1, read, steps);
    steps := Then(s0, first, steps);
  }

  // Where there is none, every session is on the password alone.

  predicate Single(pc: Pc) {
    || pc.Verify? || pc.AskFactors? || pc.AskMandate? || pc.ReadChallenge? || pc.ReadEnrolment? || pc.Done?
    || (pc.Issue? && pc.via.ByPassword?)
  }

  predicate OneStepOnly(s: State) {
    && !CanChallenge(s.config) && !s.config.enrols
    && s.challenges == map[] && s.enrolments == map[]
    && (forall r :: r in s.requests ==> Single(s.requests[r].pc))
    && (forall i :: 0 <= i < |s.log| && s.log[i].SignedIn? ==> s.log[i].via.ByPassword?)
  }

  lemma NothingAsked(s: State, who: Who)
    requires !CanChallenge(s.config)
    ensures !FactorAsked(s, who)
  {
  }

  lemma StepStaysSingle(s: State, step: Step)
    requires OneStepOnly(s)
    ensures OneStepOnly(Apply(s, step))
  {
    if step.Advance? && step.r in s.requests {
      var q, l := s.requests[step.r], step.luck;
      assert Single(q.pc);
      if q.pc.AskFactors? {
        NothingAsked(s, q.pc.who);
      }
      assert Single(Next(s, q, l));
    }
  }

  lemma {:induction false} RunStaysSingle(s: State, steps: seq<Step>)
    requires OneStepOnly(s)
    ensures OneStepOnly(Run(s, steps))
    decreases |steps|
  {
    if steps != [] {
      StepStaysSingle(s, steps[0]);
      RunStaysSingle(Apply(s, steps[0]), steps[1..]);
    }
  }

  ghost predicate NeverDisallowed(config: Config) {
    forall s0, steps :: Initial(s0) && s0.config == config ==> !Disallowed(Run(s0, steps).log)
  }

  /**
   A login whose organization stopped permitting passwords never completes exactly in a build that has no
   second step to complete: nothing to challenge with and no enrolment.
  */
  lemma NeverDisallowedIff(config: Config)
    ensures NeverDisallowed(config) <==> !CanChallenge(config) && !config.enrols
  {
    var s0 := State(0, config, map[], map[], map[], map[], Db(map[], []), []);
    if CanChallenge(config) {
      var steps := ChallengedLoginCompletes(s0);
      assert Disallowed(Run(s0, steps).log);
    } else if config.enrols {
      var steps := EnrolledLoginCompletes(s0);
      assert Disallowed(Run(s0, steps).log);
    } else {
      forall s1, steps | Initial(s1) && s1.config == config ensures !Disallowed(Run(s1, steps).log) {
        RunStaysSingle(s1, steps);
      }
    }
  }
}
