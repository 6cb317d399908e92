/** What holds in every reachable state of the sign-in system: no session without what it must rest on. */
module LoginSafety {
  import opened EnrolStore
  import opened LoginProtocol
  import opened RedisStore
  import opened Sessions
  import opened Wrappers

  // A longer log keeps everything valid.

  lemma JustifiedLater(config: Config, log: seq<Fact>, more: seq<Fact>, who: Who, pending: Id, via: Via)
    requires Justified(config, log, who, pending, via)
    ensures Justified(config, log + more, who, pending, via)
  {
    ChainGrows(log, more, Evidence(who, pending, via));
  }

  lemma EnrolledLater(log: seq<Fact>, more: seq<Fact>, pending: Id, state: EnrolState)
    ensures Enrollable(log, pending, state) ==> Enrollable(log + more, pending, state)
    ensures Proven(log, state) ==> Proven(log + more, state)
  {
    if Enrollable(log, pending, state) {
      ChainGrows(log, more, Enrolling(WhoOf(state), state.pending, state.factor));
    }
    if Proven(log, state) {
      ChainGrows(log, more, Enrolled(WhoOf(state), state.pending, state.factor));
    }
  }

  lemma RequestLater(config: Config, log: seq<Fact>, more: seq<Fact>, q: Request)
    requires ValidRequest(config, log, q)
    ensures ValidRequest(config, log + more, q)
  {
    match q.pc
    case AskFactors(who, policy) =>
      ChainGrows(log, more, [PolicyRead(q.pending, policy), PasswordProven(who, q.pending)]);
    case AskMandate(who, policy) => ChainGrows(log, more, Evidence(who, q.pending, ByPassword(policy, 0)));
    case Begin(who) => ChainGrows(log, more, [PasswordProven(who, q.pending), NoFactorFound(who, q.pending)]);
    case StoreEnrolment(who, factor) => ChainGrows(log, more, Enrolling(who, q.pending, factor));
    case Answer(_, who) => ChainGrows(log, more, [PasswordProven(who, q.pending)]);
    case Confirm(_, state) => EnrolledLater(log, more, q.pending, state);
    case Count(_, state) => EnrolledLater(log, more, q.pending, state);
    case IssueCodes(_, state) => EnrolledLater(log, more, q.pending, state);
    case Mark(_, state) => EnrolledLater(log, more, q.pending, state);
    case LoadUser(who, via) => JustifiedLater(config, log, more, who, q.pending, via);
    case Issue(who, via) => JustifiedLater(config, log, more, who, q.pending, via);
    case _ =>
  }

  lemma CellsLater(log: seq<Fact>, more: seq<Fact>, e: Cell<EnrolState>, c: Cell<Challenge>)
    ensures ValidEnrolment(log, e) ==> ValidEnrolment(log + more, e)
    ensures ValidChallenge(log, c) ==> ValidChallenge(log + more, c)
  {
    if e.value.Doc? {
      EnrolledLater(log, more, e.value.doc.pending, e.value.doc);
    }
    if c.value.Doc? && ValidChallenge(log, c) {
      ChainGrows(log, more, [PasswordProven(c.value.doc.who, c.value.doc.pending)]);
    }
  }

  // Each operation leads to a valid place.

  /** Dropping the first of two facts. */
  lemma LastOfTwo(log: seq<Fact>, a: Fact, b: Fact)
    requires Chain(log, [a, b])
    ensures Chain(log, [b])
  {
    assert [a, b][..1] == [a];
    var i :| 0 <= i < |log| && log[i] == b && Chain(log[..i], [a]);
    assert [b][..0] == [];
    assert Chain(log[..i], []);
  }

  lemma LastTwoOfThree(log: seq<Fact>, a: Fact, b: Fact, c: Fact)
    requires Chain(log, [a, b, c])
    ensures Chain(log, [b, c])
  {
    assert [a, b, c][..2] == [a, b];
    var i :| 0 <= i < |log| && log[i] == c && Chain(log[..i], [a, b]);
    LastOfTwo(log[..i], a, b);
    assert [b, c][..1] == [b];
  }

  lemma VerifyIsValid(s: State, q: Request, l: Luck)
    requires q.pc.Verify?
    ensures ValidRequest(s.config, s.log + Facts(s, q, l), q.(pc := Next(s, q, l)))
  {
    if !VerifyNext(l).Done? {
      var a, b := PolicyRead(q.pending, l.policy), PasswordProven(l.who, q.pending);
      assert s.log + Facts(s, q, l) == (s.log + [a]) + [b];
      ChainExtends(s.log, [], a);
      ChainExtends(s.log + [a], [a], b);
      assert [] + [a] == [a] && [a] + [b] == [a, b];
    }
  }

  lemma AskFactorsIsValid(s: State, q: Request, l: Luck)
    requires q.pc.AskFactors? && ValidRequest(s.config, s.log, q)
    ensures ValidRequest(s.config, s.log + Facts(s, q, l), q.(pc := Next(s, q, l)))
  {
    var who, policy := q.pc.who, q.pc.policy;
    if !AskFactorsNext(s, who, policy, l).Done? {
      var fs := [PolicyRead(q.pending, policy), PasswordProven(who, q.pending)];
      ChainExtends(s.log, fs, NoFactorFound(who, q.pending));
      assert fs + [NoFactorFound(who, q.pending)] == Evidence(who, q.pending, ByPassword(policy, 0));
    }
  }

  lemma AskMandateIsValid(s: State, q: Request, l: Luck)
    requires q.pc.AskMandate? && ValidRequest(s.config, s.log, q)
    ensures ValidRequest(s.config, s.log, q.(pc := Next(s, q, l)))
  {
    var who, policy := q.pc.who, q.pc.policy;
    LastTwoOfThree(s.log, PolicyRead(q.pending, policy), PasswordProven(who, q.pending), NoFactorFound(who, q.pending));
    assert Evidence(who, q.pending, ByPassword(policy, s.now)) == Evidence(who, q.pending, ByPassword(policy, 0));
  }

  lemma BeginIsValid(s: State, q: Request, l: Luck)
    requires q.pc.Begin? && ValidRequest(s.config, s.log, q)
    ensures ValidRequest(s.config, s.log + Facts(s, q, l), q.(pc := Next(s, q, l)))
  {
    var who := q.pc.who;
    var fs := [PasswordProven(who, q.pending), NoFactorFound(who, q.pending)];
    ChainExtends(s.log, fs, FactorBegun(who, l.id));
    assert fs + [FactorBegun(who, l.id)] == Enrolling(who, q.pending, l.id);
  }

  lemma AnswerIsValid(s: State, q: Request, l: Luck)
    requires q.pc.Answer? && ValidRequest(s.config, s.log, q)
    ensures ValidRequest(s.config, s.log + Facts(s, q, l), q.(pc := Next(s, q, l)))
  {
    var a, b := PasswordProven(q.pc.who, q.pending), FactorProven(q.pc.who, q.pending);
    ChainExtends(s.log, [a], b);
    assert [a] + [b] == [a, b];
  }

  lemma ConfirmIsValid(s: State, q: Request, l: Luck)
    requires q.pc.Confirm? && ValidRequest(s.config, s.log, q)
    ensures ValidRequest(s.config, s.log + Facts(s, q, l), q.(pc := Next(s, q, l)))
  {
    var state := q.pc.state;
    ChainExtends(s.log, Enrolling(WhoOf(state), state.pending, state.factor), FactorConfirmed(state.factor));
    EnrolledLater(s.log, Facts(s, q, l), q.pending, state);
  }

  lemma ReadsAreValid(s: State, q: Request, l: Luck)
    requires Inv(s) && (q.pc.ReadChallenge? || q.pc.ReadEnrolment?)
    ensures ValidRequest(s.config, s.log, q.(pc := Next(s, q, l)))
  {
    if q.pc.ReadChallenge? && q.pc.key in s.challenges {
      assert ValidChallenge(s.log, s.challenges[q.pc.key]);
    }
    if q.pc.ReadEnrolment? && q.pc.key in s.enrolments {
      assert ValidEnrolment(s.log, s.enrolments[q.pc.key]);
    }
  }

  lemma OthersAreValid(s: State, q: Request, l: Luck)
    requires ValidRequest(s.config, s.log, q)
    requires q.pc.Count? || q.pc.IssueCodes? || q.pc.Mark? || q.pc.LoadUser? || q.pc.StoreEnrolment? || q.pc.Issue?
    ensures ValidRequest(s.config, s.log, q.(pc := Next(s, q, l)))
  {
  }

  lemma NextIsValid(s: State, q: Request, l: Luck)
    requires Inv(s) && ValidRequest(s.config, s.log, q)
    ensures ValidRequest(s.config, s.log + Facts(s, q, l), q.(pc := Next(s, q, l)))
  {
    match q.pc
    case Verify => VerifyIsValid(s, q, l);
    case AskFactors(_, _) => AskFactorsIsValid(s, q, l);
    case AskMandate(_, _) => AskMandateIsValid(s, q, l); RequestLater(s.config, s.log, [], q.(pc := Next(s, q, l)));
    case Begin(_) => BeginIsValid(s, q, l);
    case Answer(_, _) => AnswerIsValid(s, q, l);
    case Confirm(_, _) => ConfirmIsValid(s, q, l);
    case ReadChallenge(_) => ReadsAreValid(s, q, l); RequestLater(s.config, s.log, [], q.(pc := Next(s, q, l)));
    case ReadEnrolment(_, _) => ReadsAreValid(s, q, l); RequestLater(s.config, s.log, [], q.(pc := Next(s, q, l)));
    case Spend(_) =>
    case Done =>
    case _ =>
      OthersAreValid(s, q, l);
      RequestLater(s.config, s.log, Facts(s, q, l), q.(pc := Next(s, q, l)));
  }

  // And so does each write.

  lemma EnrolmentsStayValid(s: State, q: Request, l: Luck)
    requires Inv(s) && ValidRequest(s.config, s.log, q)
    ensures forall k :: k in EnrolmentsAfter(s, q, l) ==> ValidEnrolment(s.log, EnrolmentsAfter(s, q, l)[k])
  {
  }

  lemma ChallengesStayValid(s: State, q: Request, l: Luck)
    requires Inv(s) && ValidRequest(s.config, s.log, q)
    ensures forall k :: k in ChallengesAfter(s, q, l) ==> ValidChallenge(s.log, ChallengesAfter(s, q, l)[k])
  {
    if q.pc.AskFactors? {
      LastOfTwo(s.log, PolicyRead(q.pending, q.pc.policy), PasswordProven(q.pc.who, q.pending));
    }
  }

  lemma LogStaysJustified(s: State, q: Request, l: Luck)
    requires Inv(s) && ValidRequest(s.config, s.log, q)
    ensures AllJustified(s.config, s.log + Facts(s, q, l))
  {
    var log := s.log + Facts(s, q, l);
    forall i | 0 <= i < |log| && log[i].SignedIn?
      ensures Justified(s.config, log[..i], log[i].who, log[i].pending, log[i].via)
    {
      if i < |s.log| {
        assert log[..i] == s.log[..i];
      } else {
        assert q.pc.Issue? && i == |s.log| && log[..i] == s.log;
      }
    }
  }

  lemma DbStaysOneToOne(s: State, q: Request, l: Luck)
    requires OneToOne(s.db)
    ensures OneToOne(DbAfter(s, q, l))
  {
    if q.pc.Issue? && Committed(s, q.pc.who, l) {
      IssuedStaysOneToOne(s.db, Replaced(s.db, l.cookie, q.pc.who), l.id, q.pc.who);
    }
  }

  lemma AdvanceKeepsInv(s: State, r: nat, l: Luck)
    requires Inv(s) && r in s.requests
    ensures Inv(AdvanceRequest(s, r, l))
  {
    var q := s.requests[r];
    var more := Facts(s, q, l);
    var s' := AdvanceRequest(s, r, l);
    NextIsValid(s, q, l);
    forall t | t in s'.requests ensures ValidRequest(s.config, s'.log, s'.requests[t]) {
      if t != r {
        RequestLater(s.config, s.log, more, s.requests[t]);
      }
    }
    EnrolmentsStayValid(s, q, l);
    ChallengesStayValid(s, q, l);
    var spare := Cell<Challenge>.Cell(Junk, None);
    forall k | k in s'.enrolments ensures ValidEnrolment(s'.log, s'.enrolments[k]) {
      CellsLater(s.log, more, s'.enrolments[k], spare);
    }
    forall k | k in s'.challenges ensures ValidChallenge(s'.log, s'.challenges[k]) {
      CellsLater(s.log, more, Cell<EnrolState>.Cell(Junk, None), s'.challenges[k]);
    }
    LogStaysJustified(s, q, l);
    DbStaysOneToOne(s, q, l);
  }

  lemma StepKeepsInv(s: State, step: Step)
    requires Inv(s)
    ensures Inv(Apply(s, step))
  {
    match step
    case Advance(r, l) =>
      if r in s.requests {
        AdvanceKeepsInv(s, r, l);
      }
    case ChangeDb(change) => ChangeStaysOneToOne(s.db, change);
    case _ =>
  }

  lemma {:induction false} RunKeepsInv(s: State, steps: seq<Step>)
    requires Inv(s)
    ensures Inv(Run(s, steps)) && Run(s, steps).config == s.config
    decreases |steps|
  {
    if steps != [] {
      StepKeepsInv(s, steps[0]);
      RunKeepsInv(Apply(s, steps[0]), steps[1..]);
    }
  }
}
