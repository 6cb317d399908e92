/** The sign-in system's promises, for every run from an empty start. */
module LoginTheorems {
  import opened EnrolStore
  import opened Factors
  import opened LoginPolicy
  import opened LoginProtocol
  import opened LoginSafety
  import opened RedisStore
  import opened Sessions
  import opened Wrappers

  lemma InitialInv(s: State)
    requires Initial(s)
    ensures Inv(s)
  {
  }

  predicate At(log: seq<Fact>, i: int, f: Fact) {
    0 <= i < |log| && log[i] == f
  }

  /** The three facts stand before position `i`, in this order. */
  predicate InTurn(log: seq<Fact>, i: nat, x: Fact, y: Fact, z: Fact) {
    exists a, b, c :: 0 <= a < b < c < i && At(log, a, x) && At(log, b, y) && At(log, c, z)
  }

  lemma ChainOfThree(log: seq<Fact>, i: nat, x: Fact, y: Fact, z: Fact)
    requires i <= |log| && Chain(log[..i], [x, y, z])
    ensures InTurn(log, i, x, y, z)
  {
    assert [x, y, z][..2] == [x, y] && [x, y][..1] == [x];
    var c :| 0 <= c < |log[..i]| && log[..i][c] == z && Chain(log[..i][..c], [x, y]);
    assert log[..i][..c] == log[..c];
    var b :| 0 <= b < |log[..c]| && log[..c][b] == y && Chain(log[..c][..b], [x]);
    assert log[..c][..b] == log[..b];
    var a :| 0 <= a < |log[..b]| && log[..b][a] == x;
    assert At(log, a, x) && At(log, b, y) && At(log, c, z);
  }

  lemma ChainOfTwo(log: seq<Fact>, i: nat, x: Fact, y: Fact)
    requires i <= |log| && Chain(log[..i], [x, y])
    ensures exists a, b :: 0 <= a < b < i && At(log, a, x) && At(log, b, y)
  {
    assert [x, y][..1] == [x];
    var b :| 0 <= b < |log[..i]| && log[..i][b] == y && Chain(log[..i][..b], [x]);
    assert log[..i][..b] == log[..b];
    var a :| 0 <= a < |log[..b]| && log[..b][a] == x;
    assert At(log, a, x) && At(log, b, y);
  }

  /** The four facts of an enrolment, without the second. */
  lemma ChainOfEnrolment(log: seq<Fact>, i: nat, who: Who, pending: Id, factor: Id)
    requires i <= |log| && Chain(log[..i], Enrolled(who, pending, factor))
    ensures InTurn(log, i, PasswordProven(who, pending), FactorBegun(who, factor), FactorConfirmed(factor))
  {
    var three := Enrolling(who, pending, factor);
    var four := three + [FactorConfirmed(factor)];
    assert four[..3] == three && three[..2] == [PasswordProven(who, pending), NoFactorFound(who, pending)];
    var c :| 0 <= c < |log[..i]| && log[..i][c] == FactorConfirmed(factor) && Chain(log[..i][..c], three);
    assert log[..i][..c] == log[..c];
    var b :| 0 <= b < |log[..c]| && log[..c][b] == FactorBegun(who, factor) &&
      Chain(log[..c][..b], [PasswordProven(who, pending), NoFactorFound(who, pending)]);
    assert log[..c][..b] == log[..b];
    ChainOfTwo(log, b, PasswordProven(who, pending), NoFactorFound(who, pending));
    var a :| a < b && At(log, a, PasswordProven(who, pending));
    assert At(log, b, FactorBegun(who, factor)) && At(log, c, FactorConfirmed(factor));
  }

  /**
   Enrolment safety: whatever interleaves and whatever fails, a session given at the end of a forced
   enrolment was preceded by a verified password for the same user, organization and pending request, then
   by the start of the very factor the handle's state names, for that user, then by its confirmation.
  */
  lemma EnrolmentIsNeverBypassed(s0: State, steps: seq<Step>, i: nat)
    requires Initial(s0)
    requires var log := Run(s0, steps).log; i < |log| && log[i].SignedIn? && log[i].via.ByEnrolment?
    ensures
      var log := Run(s0, steps).log;
      var f := log[i].via.factor;
      InTurn(log, i, PasswordProven(log[i].who, log[i].pending), FactorBegun(log[i].who, f), FactorConfirmed(f))
  {
    InitialInv(s0);
    RunKeepsInv(s0, steps);
    var log := Run(s0, steps).log;
    ChainOfEnrolment(log, i, log[i].who, log[i].pending, log[i].via.factor);
  }

  /** A session given at the end of a challenge was preceded by a verified password and then by a proven factor. */
  lemma ChallengeIsNeverBypassed(s0: State, steps: seq<Step>, i: nat)
    requires Initial(s0)
    requires var log := Run(s0, steps).log; i < |log| && log[i].SignedIn? && log[i].via.ByChallenge?
    ensures
      var log := Run(s0, steps).log;
      exists a, b :: 0 <= a < b < i && At(log, a, PasswordProven(log[i].who, log[i].pending)) &&
        At(log, b, FactorProven(log[i].who, log[i].pending))
  {
    InitialInv(s0);
    RunKeepsInv(s0, steps);
    var log := Run(s0, steps).log;
    ChainOfTwo(log, i, PasswordProven(log[i].who, log[i].pending), FactorProven(log[i].who, log[i].pending));
  }

  /**
   Mandate safety: a session given on a password alone was preceded by the reading of a policy that permits
   passwords, then the password, then an answer that there is no factor to ask for; and where enrolment is
   wired in, that policy did not require it at the instant of the decision.
  */
  lemma MandateIsNeverBypassed(s0: State, steps: seq<Step>, i: nat)
    requires Initial(s0)
    requires var log := Run(s0, steps).log; i < |log| && log[i].SignedIn? && log[i].via.ByPassword?
    ensures
      var log := Run(s0, steps).log;
      var f := log[i];
      && InTurn(log, i, PolicyRead(f.pending, f.via.policy), PasswordProven(f.who, f.pending),
                NoFactorFound(f.who, f.pending))
      && f.via.policy.allowsPassword
      && (s0.config.enrols ==> !GraceIsOver(f.via.policy, f.via.at * 1_000_000))
  {
    InitialInv(s0);
    RunKeepsInv(s0, steps);
    var log := Run(s0, steps).log;
    ChainOfThree(log, i, PolicyRead(log[i].pending, log[i].via.policy), PasswordProven(log[i].who, log[i].pending),
                 NoFactorFound(log[i].who, log[i].pending));
  }

  /** The user has no confirmed factor of a kind this build verifies. */
  predicate NothingToAsk(s: State, who: Who) {
    s.config.framework.Some? ==>
      forall f :: f in s.factors && s.factors[f].who == who && s.factors[f].factor.active ==>
        !(if s.factors[f].factor.kind == "webauthn" then s.config.framework.value.passkeys
          else s.factors[f].factor.kind in s.config.framework.value.codes)
  }

  predicate IsPending(s: State, factor: Id) {
    factor in s.factors && !s.factors[factor].factor.active
  }

  /**
   A user whose every factor is pending is never challenged: with no error on the way, the question leads on to
   the mandate, and past the grace to another enrolment.
  */
  lemma PendingFactorsAreNotAskedFor(s: State, r: nat, l: Luck, next: Luck)
    requires r in s.requests && s.requests[r].pc.AskFactors? && l.ok
    requires forall f :: f in s.factors && s.factors[f].who == s.requests[r].pc.who ==> !s.factors[f].factor.active
    ensures
      var who, policy := s.requests[r].pc.who, s.requests[r].pc.policy;
      var s1 := AdvanceRequest(s, r, l);
      var s2 := AdvanceRequest(s1, r, next);
      && s1.requests[r].pc == AskMandate(who, policy) && s1.challenges == s.challenges
      && (s2.requests[r].pc == Begin(who) <==> s.config.enrols && GraceIsOver(policy, s.now * 1_000_000))
  {
    var policy := s.requests[r].pc.policy;
    ForcedFromTheEndOfTheGrace(policy, false, s.now * 1_000_000);
    assert !FactorAsked(s, s.requests[r].pc.who);
  }

  /** What the history's facts mean, step by step: none is recorded unless it was so at that step. */
  lemma FactsAreTrue(s: State, r: nat, l: Luck, f: Fact)
    requires r in s.requests && f in Facts(s, s.requests[r], l)
    ensures
      var pc, pending := s.requests[r].pc, s.requests[r].pending;
      var s' := AdvanceRequest(s, r, l);
      match f
      case PolicyRead(p, policy) => p == pending && pc.Verify? && policy == l.policy && policy.allowsPassword
      case PasswordProven(who, p) => p == pending && pc.Verify? && l.ok && who == l.who
      case NoFactorFound(who, p) => p == pending && pc.AskFactors? && pc.who == who && NothingToAsk(s, who)
      case FactorProven(who, p) => p == pending && pc.Answer? && pc.who == who && l.verdict.Right?
      case FactorBegun(who, factor) =>
        factor !in s.factors && s'.factors == s.factors[factor := Owned(who, Factor(factor, "totp", false))]
      case WrongCode(key) => pc.Confirm? && pc.key == key && IsPending(s, pc.state.factor) && l.verdict.Wrong?
      case FactorConfirmed(factor) =>
        && pc.Confirm? && pc.state.factor == factor && IsPending(s, factor) && l.verdict.Right?
        && s'.factors[factor].factor.active
      case PolicyReread(who, p, policy) => p == pending && pc.LoadUser? && pc.who == who && l.ok && policy == l.policy
      case SignedIn(who, p, id, via) =>
        p == pending && pc.Issue? && pc.who == who && pc.via == via && TookEffect(s.db, s'.db, l.cookie, id, who)
  {
  }

  // No request decides before it starts.

  predicate DecidesNotBefore(pc: Pc, t: nat) {
    (pc.LoadUser? || pc.Issue?) && pc.via.ByPassword? ==> t <= pc.via.at
  }

  predicate NotBefore(s: State, t: nat) {
    && t <= s.now
    && (forall r :: r in s.requests ==> DecidesNotBefore(s.requests[r].pc, t))
    && (forall i :: 0 <= i < |s.log| && s.log[i].SignedIn? && s.log[i].via.ByPassword? ==> t <= s.log[i].via.at)
  }

  lemma {:induction false} RunStaysNotBefore(s: State, steps: seq<Step>, t: nat)
    requires NotBefore(s, t)
    ensures NotBefore(Run(s, steps), t)
    decreases |steps|
  {
    if steps != [] {
      StepStaysNotBefore(s, steps[0], t);
      RunStaysNotBefore(Apply(s, steps[0]), steps[1..], t);
    }
  }

  lemma StepStaysNotBefore(s: State, step: Step, t: nat)
    requires NotBefore(s, t)
    ensures NotBefore(Apply(s, step), t)
  {
    if step.Advance? && step.r in s.requests {
      var q, l := s.requests[step.r], step.luck;
      assert DecidesNotBefore(q.pc, t);
      assert DecidesNotBefore(Next(s, q, l), t);
    }
  }

  /** A password session rests on a policy that did not force enrolment when the run began, nor since. */
  lemma PasswordSessionReadALenientPolicy(s0: State, steps: seq<Step>, i: nat)
    requires Initial(s0) && s0.config.enrols
    requires var log := Run(s0, steps).log; i < |log| && log[i].SignedIn? && log[i].via.ByPassword?
    ensures
      var log := Run(s0, steps).log;
      exists a :: 0 <= a < |log| && log[a].PolicyRead? && !GraceIsOver(log[a].policy, s0.now * 1_000_000)
  {
    MandateIsNeverBypassed(s0, steps, i);
    RunStaysNotBefore(s0, steps, s0.now);
    var log := Run(s0, steps).log;
    var f := log[i];
    var a :| 0 <= a < i && At(log, a, PolicyRead(f.pending, f.via.policy));
    assert At(log, a, PolicyRead(f.pending, f.via.policy));
  }

  /**
   Once the grace is over for every policy that is read, and as long as enrolment is wired in, nobody
   signs in on a password alone: every session rests on a factor or a recovery code.
  */
  lemma NoPasswordSessionPastTheDeadline(s0: State, steps: seq<Step>, i: nat)
    requires Initial(s0) && s0.config.enrols && i < |Run(s0, steps).log|
    requires
      var log := Run(s0, steps).log;
      forall j :: 0 <= j < |log| && log[j].PolicyRead? ==> GraceIsOver(log[j].policy, s0.now * 1_000_000)
    ensures Run(s0, steps).log[i].SignedIn? ==> !Run(s0, steps).log[i].via.ByPassword?
  {
    var log := Run(s0, steps).log;
    if log[i].SignedIn? && log[i].via.ByPassword? {
      PasswordSessionReadALenientPolicy(s0, steps, i);
    }
  }

  // Sessions in the table, events in the audit log, sign-ins in the history.

  predicate SignsIn(f: Fact, id: Sessions.Id, who: Who) {
    f.SignedIn? && f.session == id && f.who == who
  }

  predicate SessionsAreSignIns(s: State) {
    && (forall id :: id in s.db.sessions ==>
          exists i :: 0 <= i < |s.log| && SignsIn(s.log[i], id, s.db.sessions[id].who))
    && (forall i :: 0 <= i < |s.log| && s.log[i].SignedIn? ==> s.log[i].session in s.db.sessions)
  }

  lemma IssueKeepsSignIns(s: State, r: nat, l: Luck)
    requires SessionsAreSignIns(s) && r in s.requests
    ensures SessionsAreSignIns(AdvanceRequest(s, r, l))
  {
    var q := s.requests[r];
    var s' := AdvanceRequest(s, r, l);
    forall id | id in s'.db.sessions
      ensures exists i :: 0 <= i < |s'.log| && SignsIn(s'.log[i], id, s'.db.sessions[id].who)
    {
      if id in s.db.sessions && !(q.pc.Issue? && Committed(s, q.pc.who, l) && id == l.id) {
        var i :| 0 <= i < |s.log| && SignsIn(s.log[i], id, s.db.sessions[id].who);
        assert SignsIn(s'.log[i], id, s'.db.sessions[id].who);
      } else {
        assert SignsIn(s'.log[|s.log|], id, s'.db.sessions[id].who);
      }
    }
  }

  /** Signing out and other events leave every session its sign-in. */
  lemma ChangeKeepsOwners(db: Db, c: Change, id: Sessions.Id)
    requires !c.SignIn? && id in AfterChange(db, c).sessions
    ensures id in db.sessions && AfterChange(db, c).sessions[id].who == db.sessions[id].who
  {
  }

  lemma ChangesKeepSignIns(s: State, c: Change)
    requires SessionsAreSignIns(s)
    ensures SessionsAreSignIns(Apply(s, ChangeDb(c)))
  {
    var s' := Apply(s, ChangeDb(c));
    if !c.SignIn? {
      forall id | id in s'.db.sessions
        ensures exists i :: 0 <= i < |s'.log| && SignsIn(s'.log[i], id, s'.db.sessions[id].who)
      {
        ChangeKeepsOwners(s.db, c, id);
        var i :| 0 <= i < |s.log| && SignsIn(s.log[i], id, s.db.sessions[id].who);
        assert SignsIn(s'.log[i], id, s'.db.sessions[id].who);
      }
    }
  }

  lemma {:induction false} RunKeepsSignIns(s: State, steps: seq<Step>)
    requires SessionsAreSignIns(s)
    ensures SessionsAreSignIns(Run(s, steps))
    decreases |steps|
  {
    if steps != [] {
      match steps[0] {
        case Advance(r, l) =>
          if r in s.requests {
            IssueKeepsSignIns(s, r, l);
          }
        case ChangeDb(c) => ChangesKeepSignIns(s, c);
        case _ =>
      }
      RunKeepsSignIns(Apply(s, steps[0]), steps[1..]);
    }
  }

  /**
   Every session in the table has exactly one login-success event, and a sign-in of its user in the
   history that rests on everything that way of signing in must rest on.
  */
  lemma EverySessionIsJustified(s0: State, steps: seq<Step>, id: Sessions.Id)
    requires Initial(s0) && id in Run(s0, steps).db.sessions
    ensures
      var s := Run(s0, steps);
      && OneToOne(s.db)
      && exists i :: 0 <= i < |s.log| && SignsIn(s.log[i], id, s.db.sessions[id].who) &&
           Justified(s0.config, s.log[..i], s.log[i].who, s.log[i].pending, s.log[i].via)
  {
    InitialInv(s0);
    RunKeepsInv(s0, steps);
    RunKeepsSignIns(s0, steps);
    var s := Run(s0, steps);
    var i :| 0 <= i < |s.log| && SignsIn(s.log[i], id, s.db.sessions[id].who);
    assert Justified(s0.config, s.log[..i], s.log[i].who, s.log[i].pending, s.log[i].via);
  }

  // The life of a handle.

  /** No step at all moves the expiry of a handle that is live before and after it: SET NX finds it taken. */
  lemma StepMovesNoExpiry(s: State, step: Step, key: string)
    requires Live(s.enrolments, key, s.now) && Live(Apply(s, step).enrolments, key, Apply(s, step).now)
    ensures Apply(s, step).enrolments[key].expires == s.enrolments[key].expires
  {
  }

  predicate LiveThroughout(s: State, steps: seq<Step>, key: string)
    decreases |steps|
  {
    Live(s.enrolments, key, s.now) && (steps == [] || LiveThroughout(Apply(s, steps[0]), steps[1..], key))
  }

  /** No sequence of requests moves a handle's expiry for as long as it lives. */
  lemma {:induction false} NothingMovesTheExpiry(s: State, steps: seq<Step>, key: string)
    requires LiveThroughout(s, steps, key)
    ensures Live(Run(s, steps).enrolments, key, Run(s, steps).now)
    ensures Run(s, steps).enrolments[key].expires == s.enrolments[key].expires
    decreases |steps|
  {
    if steps != [] {
      var s1 := Apply(s, steps[0]);
      NothingMovesTheExpiry(s1, steps[1..], key);
      assert Live(s1.enrolments, key, s1.now);
      StepMovesNoExpiry(s, steps[0], key);
    }
  }

  /** No request stores a new enrolment under `key` in this step. */
  predicate PutsNot(s: State, step: Step, key: string) {
    step.Advance? && step.r in s.requests && s.requests[step.r].pc.StoreEnrolment? ==> step.luck.id != key
  }

  predicate NeverPut(s: State, steps: seq<Step>, key: string)
    decreases |steps|
  {
    steps == [] || (PutsNot(s, steps[0], key) && NeverPut(Apply(s, steps[0]), steps[1..], key))
  }

  /** Attempts bring nothing back: a handle that is live at the end, and was not stored anew, was live all along. */
  lemma {:induction false} NothingRevives(s: State, steps: seq<Step>, key: string)
    requires NeverPut(s, steps, key) && Live(Run(s, steps).enrolments, key, Run(s, steps).now)
    ensures LiveThroughout(s, steps, key)
    decreases |steps|
  {
    if steps != [] {
      NothingRevives(Apply(s, steps[0]), steps[1..], key);
      assert Live(Apply(s, steps[0]).enrolments, key, Apply(s, steps[0]).now);
    }
  }

  /**
   From the moment it is stored a handle has fifteen minutes, whatever is posted to it: as long as it lives
   its expiry is that instant, and once gone only being stored anew makes it live.
  */
  lemma HandleLivesFifteenMinutes(s: State, r: nat, l: Luck, steps: seq<Step>)
    requires r in s.requests && s.requests[r].pc.StoreEnrolment? && Applied(l.fate)
    requires !Live(s.enrolments, l.id, s.now)
    ensures
      var s1 := AdvanceRequest(s, r, l);
      var s' := Run(s1, steps);
      LiveThroughout(s1, steps, l.id) ==>
        && l.id in s'.enrolments && s'.enrolments[l.id].expires == Some(s.now + 900_000)
        && s'.now < s.now + 900_000
    ensures
      var s1 := AdvanceRequest(s, r, l);
      var s' := Run(s1, steps);
      NeverPut(s1, steps, l.id) && s'.now >= s.now + 900_000 ==> !Live(s'.enrolments, l.id, s'.now)
  {
    var s1 := AdvanceRequest(s, r, l);
    var s' := Run(s1, steps);
    if NeverPut(s1, steps, l.id) && Live(s'.enrolments, l.id, s'.now) {
      NothingRevives(s1, steps, l.id);
    }
    if LiveThroughout(s1, steps, l.id) {
      NothingMovesTheExpiry(s1, steps, l.id);
    }
  }
}
