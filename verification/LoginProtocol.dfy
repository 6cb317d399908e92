/**
 The hosted sign-in as a step system: password steps, factor challenges and forced enrolments, any number
 of requests at once, every request advancing one database or Redis operation at a time, every operation
 able to fail.  `log` is a history of what was established when; nothing reads it.
*/
module LoginProtocol {
  import opened EnrolStore
  import opened Factors
  import opened LoginPolicy
  import opened RedisStore
  import opened Sessions
  import opened Wrappers

  /** mfa.MaxAttempts. */
  const MAX_ATTEMPTS := 5

  type Id = string

  /** How a sign-in came about; `at` is when the mandate was decided, `key` the handle an enrolment had. */
  datatype Via = ByPassword(policy: Policy, at: nat) | ByChallenge | ByEnrolment(factor: Id, key: string)

  datatype Fact =
    | PolicyRead(pending: Id, policy: Policy)
    | PasswordProven(who: Who, pending: Id)
    | NoFactorFound(who: Who, pending: Id)
    | FactorProven(who: Who, pending: Id)
    | FactorBegun(who: Who, factor: Id)
    | WrongCode(key: string)
    | FactorConfirmed(factor: Id)
    | PolicyReread(who: Who, pending: Id, policy: Policy)
    | SignedIn(who: Who, pending: Id, session: Id, via: Via)

  datatype Challenge = Challenged(who: Who, pending: Id)

  /** What the enrolment form was posted with. */
  datatype Form = Continue | Code

  datatype Pc =
    | Verify
    | AskFactors(who: Who, policy: Policy)
    | AskMandate(who: Who, policy: Policy)
    | Begin(who: Who)
    | StoreEnrolment(who: Who, factor: Id)
    | ReadChallenge(key: string)
    | Answer(key: string, who: Who)
    | ReadEnrolment(key: string, form: Form)
    | Confirm(key: string, state: EnrolState)
    | Count(key: string, state: EnrolState)
    | IssueCodes(key: string, state: EnrolState)
    | Mark(key: string, state: EnrolState)
    | LoadUser(who: Who, via: Via)
    | Issue(who: Who, via: Via)
    | Spend(key: string)
    | Done

  datatype Request = Request(pending: Id, pc: Pc)

  /** What a build is wired with: the factor framework, and the forced-enrolment flow. */
  datatype Config = Config(framework: Option<Framework>, enrols: bool)

  datatype Owned = Owned(who: Who, factor: Factor)

  datatype State = State(
    now: nat,
    config: Config,
    factors: map<Id, Owned>,
    challenges: Cells<Challenge>,
    enrolments: Cells<EnrolState>,
    requests: map<nat, Request>,
    db: Db,
    log: seq<Fact>)

  datatype Verdict = Right | Wrong | Unclear

  /** Whether recovery codes were issued, none were due, or issuing failed. */
  datatype Codes = Issued | NoneDue | CodesFailed

  /** What one operation met with; each operation reads the parts that concern it. */
  datatype Luck = Luck(ok: bool, who: Who, policy: Policy, id: Id, verdict: Verdict, codes: Codes, fate: Fate,
                       faults: Faults, cookie: Option<Id>)

  datatype Step =
    | Tick(delay: nat)
    | ChangeFactors(factors: map<Id, Owned>)
    | EvictChallenge(key: string)
    | EvictEnrolment(key: string)
    | ChangeDb(change: Change)
    | Start(r: nat, pending: Id, pc: Pc)
    | Advance(r: nat, luck: Luck)

  const CHALLENGE_TTL := 5 * 60 * 1000

  /** The factors a user holds in the table, as the framework's query lists them. */
  predicate HoldsFactor(s: State, fw: Framework, who: Who) {
    exists f :: f in s.factors && s.factors[f].who == who && Answerable(fw, s.factors[f].factor)
  }

  /** There is a framework, with something to challenge with; otherwise nothing is read. */
  predicate CanAsk(s: State) {
    s.config.framework.Some? && !Empty(s.config.framework.value)
  }

  predicate FactorAsked(s: State, who: Who) {
    s.config.framework.Some? && HoldsFactor(s, s.config.framework.value, who)
  }

  predicate IsFirst(pc: Pc) {
    pc.Verify? || pc.ReadChallenge? || pc.ReadEnrolment?
  }

  function WhoOf(state: EnrolState): Who { Who(state.user, state.org) }

  /** What a post does with the state it read. */
  function Judge(key: string, form: Form, state: EnrolState, pending: Id): Pc {
    if state.pending != pending then Done
    else if form.Continue? then
      if state.confirmed then LoadUser(WhoOf(state), ByEnrolment(state.factor, key)) else Done
    else if state.confirmed then Done
    else if state.attempts >= MAX_ATTEMPTS then Done
    else Confirm(key, state)
  }

  // One operation of each kind: what it establishes, and where the request goes next.

  function VerifyNext(l: Luck): Pc {
    if l.ok && l.policy.allowsPassword then AskFactors(l.who, l.policy) else Done
  }

  /** With an answerable factor the request ends in a challenge, or in an error; never beyond. */
  function AskFactorsNext(s: State, who: Who, policy: Policy, l: Luck): Pc {
    if CanAsk(s) && (!l.ok || FactorAsked(s, who)) then Done else AskMandate(who, policy)
  }

  /** The clock counts milliseconds, as Redis does; the mandate is nanosecond arithmetic. */
  predicate MandateForces(policy: Policy, at: nat) {
    RequireMFA(policy, false, at * MILLISECOND) == EnrolmentRequired
  }

  function AskMandateNext(s: State, who: Who, policy: Policy): Pc {
    if MandateForces(policy, s.now) && s.config.enrols then Begin(who) else Issue(who, ByPassword(policy, s.now))
  }

  function ReadChallengeNext(s: State, key: string, pending: Id, l: Luck): Pc {
    match Read(s.challenges, key, s.now)
    case Some(Doc(c)) => if s.config.framework.Some? && l.ok && c.pending == pending then Answer(key, c.who) else Done
    case _ => Done
  }

  function ReadEnrolmentNext(s: State, key: string, form: Form, pending: Id, l: Luck): Pc {
    match Lookup(s.enrolments, key, s.now, l.ok)
    case Success(state) => if s.config.enrols then Judge(key, form, state, pending) else Done
    case Failure(_) => Done
  }

  /** Only a pending factor can be confirmed; anything else fails without a verdict. */
  function ConfirmVerdict(s: State, state: EnrolState, l: Luck): Verdict {
    if state.factor in s.factors && !s.factors[state.factor].factor.active then l.verdict else Unclear
  }

  function ConfirmNext(s: State, key: string, state: EnrolState, l: Luck): Pc {
    match ConfirmVerdict(s, state, l)
    case Right => IssueCodes(key, state)
    case Wrong => Count(key, state.(attempts := state.attempts + 1))
    case Unclear => Done
  }

  function IssueCodesNext(key: string, state: EnrolState, l: Luck): Pc {
    match l.codes
    case CodesFailed => Done
    case NoneDue => LoadUser(WhoOf(state), ByEnrolment(state.factor, key))
    case Issued => Mark(key, state.(confirmed := true))
  }

  predicate Committed(s: State, who: Who, l: Luck) {
    BodySucceeds(s.db, Replaced(s.db, l.cookie, who), l.id, l.faults) && Applied(l.faults.commit)
  }

  function Next(s: State, q: Request, l: Luck): Pc {
    match q.pc
    case Verify => VerifyNext(l)
    case AskFactors(who, policy) => AskFactorsNext(s, who, policy, l)
    case AskMandate(who, policy) => AskMandateNext(s, who, policy)
    case Begin(who) => if l.ok && l.id !in s.factors then StoreEnrolment(who, l.id) else Done
    case StoreEnrolment(_, _) => Done
    case ReadChallenge(key) => ReadChallengeNext(s, key, q.pending, l)
    case Answer(_, who) => if l.verdict.Right? then LoadUser(who, ByChallenge) else Done
    case ReadEnrolment(key, form) => ReadEnrolmentNext(s, key, form, q.pending, l)
    case Confirm(key, state) => ConfirmNext(s, key, state, l)
    case Count(key, state) => if state.attempts >= MAX_ATTEMPTS then Spend(key) else Done
    case IssueCodes(key, state) => IssueCodesNext(key, state, l)
    case Mark(_, _) => Done
    case LoadUser(who, via) => if l.ok then Issue(who, via) else Done
    case Issue(who, via) =>
      if Committed(s, who, l) && l.faults.commit.Acknowledged? && via.ByEnrolment? then Spend(via.key) else Done
    case Spend(_) => Done
    case Done => Done
  }

  /** What the operation establishes. */
  function Facts(s: State, q: Request, l: Luck): seq<Fact> {
    match q.pc
    case Verify =>
      if VerifyNext(l).Done? then [] else [PolicyRead(q.pending, l.policy), PasswordProven(l.who, q.pending)]
    case AskFactors(who, policy) =>
      if AskFactorsNext(s, who, policy, l).Done? then [] else [NoFactorFound(who, q.pending)]
    case Begin(who) => if l.ok && l.id !in s.factors then [FactorBegun(who, l.id)] else []
    case Answer(_, who) => if l.verdict.Right? then [FactorProven(who, q.pending)] else []
    case Confirm(key, state) =>
      (match ConfirmVerdict(s, state, l)
       case Right => [FactorConfirmed(state.factor)]
       case Wrong => [WrongCode(key)]
       case Unclear => [])
    case LoadUser(who, _) => if l.ok then [PolicyReread(who, q.pending, l.policy)] else []
    case Issue(who, via) => if Committed(s, who, l) then [SignedIn(who, q.pending, l.id, via)] else []
    case _ => []
  }

  function FactorsAfter(s: State, q: Request, l: Luck): map<Id, Owned> {
    match q.pc
    case Begin(who) =>
      if l.ok && l.id !in s.factors then s.factors[l.id := Owned(who, Factor(l.id, TOTP, false))] else s.factors
    case Confirm(_, state) =>
      if ConfirmVerdict(s, state, l).Right?
      then
        var owned := s.factors[state.factor];
        s.factors[state.factor := owned.(factor := owned.factor.(active := true))]
      else s.factors
    case _ => s.factors
  }

  function ChallengesAfter(s: State, q: Request, l: Luck): Cells<Challenge> {
    match q.pc
    case AskFactors(who, _) =>
      if l.ok && FactorAsked(s, who) && Applied(l.fate)
      then AfterSetNX(s.challenges, l.id, Challenged(who, q.pending), s.now, CHALLENGE_TTL) else s.challenges
    case Answer(key, _) => if l.verdict.Right? && Applied(l.fate) then AfterDel(s.challenges, key) else s.challenges
    case _ => s.challenges
  }

  function EnrolmentsAfter(s: State, q: Request, l: Luck): Cells<EnrolState> {
    match q.pc
    case StoreEnrolment(who, factor) =>
      if Applied(l.fate)
      then
        var state := EnrolState(who.user, who.org, q.pending, factor, 0, false);
        AfterSetNX(s.enrolments, l.id, state, s.now, ENROLMENT_TTL)
      else s.enrolments
    case Count(key, state) => if Applied(l.fate) then AfterReplace(s.enrolments, key, state, s.now) else s.enrolments
    case Mark(key, state) => if Applied(l.fate) then AfterReplace(s.enrolments, key, state, s.now) else s.enrolments
    case Spend(key) => if Applied(l.fate) then AfterDel(s.enrolments, key) else s.enrolments
    case _ => s.enrolments
  }

  function DbAfter(s: State, q: Request, l: Luck): Db {
    match q.pc
    case Issue(who, _) =>
      if Committed(s, who, l) then Sessions.Issued(s.db, Replaced(s.db, l.cookie, who), l.id, who) else s.db
    case _ => s.db
  }

  function AdvanceRequest(s: State, r: nat, l: Luck): State
    requires r in s.requests
  {
    var q := s.requests[r];
    State(s.now, s.config, FactorsAfter(s, q, l), ChallengesAfter(s, q, l), EnrolmentsAfter(s, q, l),
          s.requests[r := q.(pc := Next(s, q, l))], DbAfter(s, q, l), s.log + Facts(s, q, l))
  }

  /** One step; a step that is not enabled changes nothing. Others change the tables, but never sign anybody in. */
  function Apply(s: State, step: Step): State {
    match step
    case Tick(delay) => s.(now := s.now + delay)
    case ChangeFactors(factors) => s.(factors := factors)
    case EvictChallenge(key) => s.(challenges := AfterDel(s.challenges, key))
    case EvictEnrolment(key) => s.(enrolments := AfterDel(s.enrolments, key))
    case ChangeDb(change) => if change.SignIn? then s else s.(db := Sessions.AfterChange(s.db, change))
    case Start(r, pending, pc) =>
      if r in s.requests || !IsFirst(pc) then s else s.(requests := s.requests[r := Request(pending, pc)])
    case Advance(r, luck) => if r in s.requests then AdvanceRequest(s, r, luck) else s
  }

  function Run(s: State, steps: seq<Step>): State
    decreases |steps|
  {
    if steps == [] then s else Run(Apply(s, steps[0]), steps[1..])
  }

  lemma RunOne(s: State, a: Step)
    ensures Run(s, [a]) == Apply(s, a)
  {
  }

  lemma RunTwo(s: State, a: Step, b: Step)
    ensures Run(s, [a, b]) == Apply(Apply(s, a), b)
  {
    assert [a, b][1..] == [b];
    RunOne(Apply(s, a), b);
  }

  lemma RunThree(s: State, a: Step, b: Step, c: Step)
    ensures Run(s, [a, b, c]) == Apply(Apply(Apply(s, a), b), c)
  {
    assert [a, b, c][1..] == [b, c];
    RunTwo(Apply(s, a), b, c);
  }

  lemma {:induction false} RunAppend(s: State, a: seq<Step>, b: seq<Step>)
    ensures Run(s, a + b) == Run(Run(s, a), b)
    decreases |a|
  {
    if a == [] {
      assert a + b == b;
    } else {
      assert (a + b)[1..] == a[1..] + b;
      RunAppend(Apply(s, a[0]), a[1..], b);
    }
  }

  predicate Initial(s: State) {
    && s.requests == map[] && s.challenges == map[] && s.enrolments == map[] && s.log == []
    && s.db == Db(map[], [])
  }

  // What has to have been established, in order.

  /** The facts `fs` stand in the log, in that order. */
  predicate Chain(log: seq<Fact>, fs: seq<Fact>)
    decreases |fs|
  {
    fs == [] || exists i :: 0 <= i < |log| && log[i] == fs[|fs| - 1] && Chain(log[..i], fs[..|fs| - 1])
  }

  lemma {:induction false} ChainGrows(log: seq<Fact>, more: seq<Fact>, fs: seq<Fact>)
    requires Chain(log, fs)
    ensures Chain(log + more, fs)
  {
    if fs != [] {
      var i :| 0 <= i < |log| && log[i] == fs[|fs| - 1] && Chain(log[..i], fs[..|fs| - 1]);
      assert (log + more)[i] == log[i] && (log + more)[..i] == log[..i];
    }
  }

  lemma ChainExtends(log: seq<Fact>, fs: seq<Fact>, f: Fact)
    requires Chain(log, fs)
    ensures Chain(log + [f], fs + [f])
  {
    var log' := log + [f];
    assert log'[|log|] == f && log'[..|log|] == log;
    assert (fs + [f])[..|fs|] == fs;
  }

  /** What each way of signing in rests on. */
  function Evidence(who: Who, pending: Id, via: Via): seq<Fact> {
    match via
    case ByPassword(policy, _) =>
      [PolicyRead(pending, policy), PasswordProven(who, pending), NoFactorFound(who, pending)]
    case ByChallenge => [PasswordProven(who, pending), FactorProven(who, pending)]
    case ByEnrolment(factor, _) => Enrolled(who, pending, factor)
  }

  function Enrolling(who: Who, pending: Id, factor: Id): seq<Fact> {
    [PasswordProven(who, pending), NoFactorFound(who, pending), FactorBegun(who, factor)]
  }

  function Enrolled(who: Who, pending: Id, factor: Id): seq<Fact> {
    Enrolling(who, pending, factor) + [FactorConfirmed(factor)]
  }

  /** The policy read in the request permits passwords, and its mandate a session without a factor. */
  predicate PolicyAllows(config: Config, via: Via) {
    via.ByPassword? ==> via.policy.allowsPassword && (config.enrols ==> !MandateForces(via.policy, via.at))
  }

  predicate Justified(config: Config, log: seq<Fact>, who: Who, pending: Id, via: Via) {
    Chain(log, Evidence(who, pending, via)) && PolicyAllows(config, via)
  }

  predicate Enrollable(log: seq<Fact>, pending: Id, state: EnrolState) {
    && Chain(log, Enrolling(WhoOf(state), state.pending, state.factor))
    && state.pending == pending
  }

  predicate Proven(log: seq<Fact>, state: EnrolState) {
    Chain(log, Enrolled(WhoOf(state), state.pending, state.factor))
  }

  predicate ValidRequest(config: Config, log: seq<Fact>, q: Request) {
    match q.pc
    case AskFactors(who, policy) =>
      policy.allowsPassword && Chain(log, [PolicyRead(q.pending, policy), PasswordProven(who, q.pending)])
    case AskMandate(who, policy) =>
      policy.allowsPassword && Chain(log, Evidence(who, q.pending, ByPassword(policy, 0)))
    case Begin(who) => Chain(log, [PasswordProven(who, q.pending), NoFactorFound(who, q.pending)])
    case StoreEnrolment(who, factor) => Chain(log, Enrolling(who, q.pending, factor))
    case Answer(_, who) => Chain(log, [PasswordProven(who, q.pending)])
    case Confirm(_, state) => Enrollable(log, q.pending, state) && !state.confirmed
    case Count(_, state) => Enrollable(log, q.pending, state) && !state.confirmed
    case IssueCodes(_, state) => Enrollable(log, q.pending, state) && Proven(log, state)
    case Mark(_, state) => Enrollable(log, q.pending, state) && Proven(log, state)
    case LoadUser(who, via) => Justified(config, log, who, q.pending, via)
    case Issue(who, via) => Justified(config, log, who, q.pending, via)
    case _ => true
  }

  predicate ValidEnrolment(log: seq<Fact>, c: Cell<EnrolState>) {
    c.value.Doc? ==>
      && Enrollable(log, c.value.doc.pending, c.value.doc)
      && (c.value.doc.confirmed ==> Proven(log, c.value.doc))
  }

  predicate ValidChallenge(log: seq<Fact>, c: Cell<Challenge>) {
    c.value.Doc? ==> Chain(log, [PasswordProven(c.value.doc.who, c.value.doc.pending)])
  }

  /** Every sign-in rests on facts that stood before it. */
  predicate AllJustified(config: Config, log: seq<Fact>) {
    forall i :: 0 <= i < |log| && log[i].SignedIn? ==>
      Justified(config, log[..i], log[i].who, log[i].pending, log[i].via)
  }

  predicate Inv(s: State) {
    && (forall r :: r in s.requests ==> ValidRequest(s.config, s.log, s.requests[r]))
    && (forall k :: k in s.enrolments ==> ValidEnrolment(s.log, s.enrolments[k]))
    && (forall k :: k in s.challenges ==> ValidChallenge(s.log, s.challenges[k]))
    && AllJustified(s.config, s.log)
    && OneToOne(s.db)
  }
}
