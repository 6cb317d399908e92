/**
 Enrolment posts about one handle, one at a time: how many wrong codes the handle admits, and how many
 sessions come of it, when the writes of those posts get through.  Everything else goes on meanwhile: time
 passes, the handle expires or is evicted, other handles, password steps and challenges run.
*/
module EnrolPosts {
  import opened LoginProtocol
  import opened LoginTheorems
  import opened RedisStore
  import opened Wrappers

  // A request handled alone, as the handler runs it.

  /** Request `r` advances, and nothing else happens. */
  function Alone(s: State, r: nat, lucks: seq<Luck>): State
    decreases |lucks|
  {
    if lucks == [] then s else Alone(Apply(s, Advance(r, lucks[0])), r, lucks[1..])
  }

  function Advances(r: nat, lucks: seq<Luck>): seq<Step> {
    seq(|lucks|, i requires 0 <= i < |lucks| => Advance(r, lucks[i]))
  }

  /** A request handled alone is one run of the step system. */
  lemma {:induction false} AloneIsARun(s: State, r: nat, lucks: seq<Luck>)
    ensures Alone(s, r, lucks) == Run(s, Advances(r, lucks))
    decreases |lucks|
  {
    if lucks != [] {
      AloneIsARun(Apply(s, Advance(r, lucks[0])), r, lucks[1..]);
      assert Advances(r, lucks)[1..] == Advances(r, lucks[1..]);
    }
  }

  /** The most operations an enrolment post can take. */
  const LONGEST := 6

  // One at a time.

  /** A request in the middle of a post about `key`. */
  predicate About(pc: Pc, key: string) {
    match pc
    case ReadEnrolment(k, _) => k == key
    case Confirm(k, _) => k == key
    case IssueCodes(k, _) => k == key
    case Mark(k, _) => k == key
    case Count(k, _) => k == key
    case Spend(k) => k == key
    case LoadUser(_, via) => via.ByEnrolment? && via.key == key
    case Issue(_, via) => via.ByEnrolment? && via.key == key
    case _ => false
  }

  predicate OneAtATime(s: State, key: string) {
    forall r, t ::
      && r in s.requests && About(s.requests[r].pc, key)
      && t in s.requests && About(s.requests[t].pc, key)
      ==> r == t
  }

  /** Every write is acknowledged, and no commit's acknowledgement is lost. */
  predicate WritesSucceed(l: Luck) {
    l.fate.Acknowledged? && !l.faults.commit.FailedApplied?
  }

  /** The step stores nothing new under `key`; if it advances a post about `key`, its write gets through. */
  predicate Smooth(s: State, step: Step, key: string) {
    && PutsNot(s, step, key)
    && (step.Advance? && step.r in s.requests && About(s.requests[step.r].pc, key) ==> WritesSucceed(step.luck))
  }

  predicate Serial(s: State, steps: seq<Step>, key: string)
    decreases |steps|
  {
    && OneAtATime(s, key)
    && (steps == [] || (Smooth(s, steps[0], key) && Serial(Apply(s, steps[0]), steps[1..], key)))
  }

  // What is counted.

  function CountWrong(log: seq<Fact>, key: string): nat {
    if log == [] then 0
    else (if log[|log| - 1] == WrongCode(key) then 1 else 0) + CountWrong(log[..|log| - 1], key)
  }

  predicate SignsInBy(f: Fact, key: string) {
    f.SignedIn? && f.via.ByEnrolment? && f.via.key == key
  }

  function CountSessions(log: seq<Fact>, key: string): nat {
    if log == [] then 0
    else (if SignsInBy(log[|log| - 1], key) then 1 else 0) + CountSessions(log[..|log| - 1], key)
  }

  lemma {:induction false} CountsGrow(log: seq<Fact>, more: seq<Fact>, key: string)
    ensures CountWrong(log + more, key) == CountWrong(log, key) + CountWrong(more, key)
    ensures CountSessions(log + more, key) == CountSessions(log, key) + CountSessions(more, key)
  {
    if more == [] {
      assert log + more == log;
    } else {
      var front := more[..|more| - 1];
      assert (log + more)[..|log + more| - 1] == log + front;
      CountsGrow(log, front, key);
    }
  }

  lemma {:induction false} NothingToCount(more: seq<Fact>, key: string)
    requires forall i :: 0 <= i < |more| ==> more[i] != WrongCode(key) && !SignsInBy(more[i], key)
    ensures CountWrong(more, key) == CountSessions(more, key) == 0
  {
    if more != [] {
      NothingToCount(more[..|more| - 1], key);
    }
  }

  // What a handle still admits.

  function Attempts(s: State, key: string): int {
    if Live(s.enrolments, key, s.now) && s.enrolments[key].value.Doc?
    then s.enrolments[key].value.doc.attempts else MAX_ATTEMPTS
  }

  function CodesLeft(attempts: int): nat {
    if attempts >= MAX_ATTEMPTS then 0 else MAX_ATTEMPTS - attempts
  }

  /** Of five wrong codes, those the stored state has not counted; none where no state is stored. */
  function Remaining(s: State, key: string): int {
    if !Live(s.enrolments, key, s.now) || !s.enrolments[key].value.Doc? then 0
    else if s.enrolments[key].value.doc.attempts >= 5 then 0
    else 5 - s.enrolments[key].value.doc.attempts
  }

  lemma RemainingIsWhatIsLeft(s: State, key: string)
    ensures Remaining(s, key) == CodesLeft(Attempts(s, key))
  {
  }

  /** A handle is stored with all five, not yet confirmed. */
  lemma StoredWithFive(s: State, r: nat, l: Luck)
    requires r in s.requests && s.requests[r].pc.StoreEnrolment? && Applied(l.fate)
    requires !Live(s.enrolments, l.id, s.now)
    ensures
      var s' := AdvanceRequest(s, r, l);
      && Remaining(s', l.id) == 5 && !s'.enrolments[l.id].value.doc.confirmed
      && s'.enrolments[l.id].value.doc.pending == s.requests[r].pending
      && s'.enrolments[l.id].value.doc.factor == s.requests[r].pc.factor
      && WhoOf(s'.enrolments[l.id].value.doc) == s.requests[r].pc.who
  {
  }

  /** A post that carries a state it read. */
  predicate Carries(pc: Pc, key: string) {
    About(pc, key) && (pc.Confirm? || pc.IssueCodes? || pc.Mark? || pc.Count?)
  }

  /** Wrong codes still possible; a post that has read the state can spend what it read, even past the expiry. */
  function CodeBudget(s: State, key: string, pc: Pc): nat {
    if Carries(pc, key) then CodesLeft(pc.state.attempts)
    else if About(pc, key) && pc.Spend? then 0
    else CodesLeft(Attempts(s, key))
  }

  function Lives(s: State, key: string): nat {
    if Live(s.enrolments, key, s.now) then 1 else 0
  }

  /** A post that can still end in a session, whatever becomes of the handle. */
  predicate Underway(pc: Pc, key: string) {
    About(pc, key) && (pc.Confirm? || pc.IssueCodes? || pc.Mark? || pc.LoadUser? || pc.Issue?)
  }

  /** Sessions still possible. */
  function SessionBudget(s: State, key: string, pc: Pc): nat {
    if Underway(pc, key) then 1 else if About(pc, key) && pc.Spend? then 0 else Lives(s, key)
  }

  /** What a post carries is no less than what is stored. */
  predicate InStep(s: State, key: string, pc: Pc) {
    && (Carries(pc, key) && !pc.Count? ==> CodesLeft(Attempts(s, key)) <= CodesLeft(pc.state.attempts))
    && (Carries(pc, key) && pc.Confirm? ==> pc.state.attempts < MAX_ATTEMPTS)
  }

  /** From `s` to `s'`, the post having gone from `pc` to `pc'`, no more was spent than there was. */
  predicate Spent(s: State, s': State, key: string, pc: Pc, pc': Pc) {
    && InStep(s', key, pc')
    && CodeBudget(s', key, pc') + CountWrong(s'.log, key) <= CodeBudget(s, key, pc) + CountWrong(s.log, key)
    && SessionBudget(s', key, pc') + CountSessions(s'.log, key) <= SessionBudget(s, key, pc) + CountSessions(s.log, key)
  }

  // One operation of a post about the handle.

  /** The budgets alone, with what the operation records counted directly. */
  predicate Pays(s: State, r: nat, key: string, l: Luck)
    requires r in s.requests
  {
    var s' := AdvanceRequest(s, r, l);
    var pc, pc' := s.requests[r].pc, s'.requests[r].pc;
    var more := Facts(s, s.requests[r], l);
    && InStep(s', key, pc') && (About(pc', key) || pc'.Done?) && |more| <= 1
    && CodeBudget(s', key, pc') + (if more == [WrongCode(key)] then 1 else 0) <= CodeBudget(s, key, pc)
    && SessionBudget(s', key, pc') + (if |more| == 1 && SignsInBy(more[0], key) then 1 else 0)
         <= SessionBudget(s, key, pc)
  }

  lemma ProvingPays(s: State, r: nat, key: string, l: Luck)
    requires r in s.requests && About(s.requests[r].pc, key) && InStep(s, key, s.requests[r].pc) && WritesSucceed(l)
    requires var pc := s.requests[r].pc; pc.ReadEnrolment? || pc.Confirm? || pc.IssueCodes?
    ensures Pays(s, r, key, l)
  {
  }

  lemma WritingPays(s: State, r: nat, key: string, l: Luck)
    requires r in s.requests && About(s.requests[r].pc, key) && InStep(s, key, s.requests[r].pc) && WritesSucceed(l)
    requires var pc := s.requests[r].pc; pc.Count? || pc.Mark? || pc.Spend?
    ensures Pays(s, r, key, l)
  {
  }

  lemma FinishingPays(s: State, r: nat, key: string, l: Luck)
    requires r in s.requests && About(s.requests[r].pc, key) && InStep(s, key, s.requests[r].pc) && WritesSucceed(l)
    requires var pc := s.requests[r].pc; pc.LoadUser? || pc.Issue?
    ensures Pays(s, r, key, l)
  {
  }

  lemma OperationSpends(s: State, r: nat, key: string, l: Luck)
    requires r in s.requests && About(s.requests[r].pc, key) && InStep(s, key, s.requests[r].pc) && WritesSucceed(l)
    ensures
      var s' := AdvanceRequest(s, r, l);
      && Spent(s, s', key, s.requests[r].pc, s'.requests[r].pc)
      && (About(s'.requests[r].pc, key) || s'.requests[r].pc.Done?)
  {
    var pc := s.requests[r].pc;
    if pc.ReadEnrolment? || pc.Confirm? || pc.IssueCodes? {
      ProvingPays(s, r, key, l);
    } else if pc.LoadUser? || pc.Issue? {
      FinishingPays(s, r, key, l);
    } else {
      WritingPays(s, r, key, l);
    }
    PaidIsSpent(s, r, key, l);
  }

  lemma PaidIsSpent(s: State, r: nat, key: string, l: Luck)
    requires r in s.requests && Pays(s, r, key, l)
    ensures Spent(s, AdvanceRequest(s, r, l), key, s.requests[r].pc, AdvanceRequest(s, r, l).requests[r].pc)
  {
    var more := Facts(s, s.requests[r], l);
    CountsGrow(s.log, more, key);
    if |more| == 1 {
      assert more == [more[0]] && more[..0] == [];
    }
  }

  // Everything else spends nothing.

  /** An operation of any other request leaves the handle as it is, and records nothing about it. */
  lemma OthersLeaveTheHandle(s: State, r: nat, key: string, l: Luck)
    requires r in s.requests && !About(s.requests[r].pc, key) && PutsNot(s, Advance(r, l), key)
    ensures
      var s' := AdvanceRequest(s, r, l);
      && !About(s'.requests[r].pc, key)
      && (key in s'.enrolments <==> key in s.enrolments)
      && (key in s.enrolments ==> s'.enrolments[key] == s.enrolments[key])
      && var more := Facts(s, s.requests[r], l);
      forall i :: 0 <= i < |more| ==> more[i] != WrongCode(key) && !SignsInBy(more[i], key)
  {
  }

  /** As long as what is live was there before, the budgets only shrink. */
  lemma ShrinkingSpendsNothing(s: State, s': State, key: string, pc: Pc)
    requires InStep(s, key, pc)
    requires Live(s'.enrolments, key, s'.now) ==>
      Live(s.enrolments, key, s.now) && s'.enrolments[key].value == s.enrolments[key].value
    requires CountWrong(s'.log, key) == CountWrong(s.log, key)
    requires CountSessions(s'.log, key) == CountSessions(s.log, key)
    ensures Spent(s, s', key, pc, pc)
  {
    assert CodesLeft(Attempts(s', key)) <= CodesLeft(Attempts(s, key));
  }

  lemma OtherRequestSpendsNothing(s: State, r: nat, key: string, l: Luck, pc: Pc)
    requires r in s.requests && !About(s.requests[r].pc, key) && PutsNot(s, Advance(r, l), key) && InStep(s, key, pc)
    ensures Spent(s, AdvanceRequest(s, r, l), key, pc, pc)
  {
    OthersLeaveTheHandle(s, r, key, l);
    CountsGrow(s.log, Facts(s, s.requests[r], l), key);
    NothingToCount(Facts(s, s.requests[r], l), key);
    ShrinkingSpendsNothing(s, AdvanceRequest(s, r, l), key, pc);
  }

  lemma OutsideSpendsNothing(s: State, step: Step, key: string, pc: Pc)
    requires !step.Advance? && InStep(s, key, pc)
    ensures Spent(s, Apply(s, step), key, pc, pc)
  {
    ShrinkingSpendsNothing(s, Apply(s, step), key, pc);
  }

  // The run.

  /** The only post about `key`, if there is one, is request `open`. */
  predicate Open(s: State, key: string, open: Option<nat>) {
    forall r :: r in s.requests && About(s.requests[r].pc, key) ==> open == Some(r)
  }

  function PcOf(s: State, open: Option<nat>): Pc {
    if open.Some? && open.value in s.requests then s.requests[open.value].pc else Done
  }

  lemma AdvanceSpends(s: State, r: nat, l: Luck, key: string, open: Option<nat>)
    requires r in s.requests && Open(s, key, open) && InStep(s, key, PcOf(s, open)) && Smooth(s, Advance(r, l), key)
    ensures
      var s' := AdvanceRequest(s, r, l);
      Open(s', key, open) && Spent(s, s', key, PcOf(s, open), PcOf(s', open))
  {
    var s' := AdvanceRequest(s, r, l);
    if About(s.requests[r].pc, key) {
      OperationSpends(s, r, key, l);
    } else {
      OthersLeaveTheHandle(s, r, key, l);
      OtherRequestSpendsNothing(s, r, key, l, PcOf(s, open));
      if open == Some(r) {
        assert !About(PcOf(s', open), key) && !About(PcOf(s, open), key);
      }
    }
  }

  lemma StartSpends(s: State, step: Step, key: string, open: Option<nat>) returns (open': Option<nat>)
    requires Open(s, key, open) && InStep(s, key, PcOf(s, open)) && OneAtATime(Apply(s, step), key)
    requires step.Start? && step.r !in s.requests && IsFirst(step.pc)
    ensures
      var s' := Apply(s, step);
      Open(s', key, open') && Spent(s, s', key, PcOf(s, open), PcOf(s', open'))
  {
    var s' := Apply(s, step);
    if About(step.pc, key) {
      open' := Some(step.r);
      OnlyTheNewOne(s, step, key);
      assert !About(PcOf(s, open), key) && step.pc.ReadEnrolment?;
      OutsideSpendsNothing(s, step, key, Done);
    } else if open == Some(step.r) {
      open' := None;
      assert PcOf(s, open) == Done;
      OutsideSpendsNothing(s, step, key, Done);
    } else {
      open' := open;
      OutsideSpendsNothing(s, step, key, PcOf(s, open));
    }
  }

  lemma StepSpends(s: State, step: Step, key: string, open: Option<nat>) returns (open': Option<nat>)
    requires Open(s, key, open) && InStep(s, key, PcOf(s, open)) && Smooth(s, step, key)
    requires OneAtATime(Apply(s, step), key)
    ensures
      var s' := Apply(s, step);
      Open(s', key, open') && Spent(s, s', key, PcOf(s, open), PcOf(s', open'))
  {
    open' := open;
    if step.Advance? {
      if step.r in s.requests {
        AdvanceSpends(s, step.r, step.luck, key, open);
      }
    } else if step.Start? && step.r !in s.requests && IsFirst(step.pc) {
      open' := StartSpends(s, step, key, open);
    } else {
      OutsideSpendsNothing(s, step, key, PcOf(s, open));
    }
  }

  /** A post that starts finds no other about the same handle. */
  lemma OnlyTheNewOne(s: State, step: Step, key: string)
    requires step.Start? && step.r !in s.requests && IsFirst(step.pc) && About(step.pc, key)
    requires OneAtATime(Apply(s, step), key)
    ensures forall r :: r in s.requests ==> !About(s.requests[r].pc, key)
    ensures Open(Apply(s, step), key, Some(step.r))
  {
    var s' := Apply(s, step);
    forall r | r in s.requests ensures !About(s.requests[r].pc, key) {
      assert s'.requests[r] == s.requests[r] && s'.requests[step.r].pc == step.pc;
    }
  }

  lemma {:induction false} RunSpends(s: State, steps: seq<Step>, key: string, open: Option<nat>)
    returns (open': Option<nat>)
    requires Open(s, key, open) && InStep(s, key, PcOf(s, open)) && Serial(s, steps, key)
    ensures
      var s' := Run(s, steps);
      Open(s', key, open') && Spent(s, s', key, PcOf(s, open), PcOf(s', open'))
    decreases |steps|
  {
    if steps == [] {
      open' := open;
    } else {
      var s1 := Apply(s, steps[0]);
      var open1 := StepSpends(s, steps[0], key, open);
      open' := RunSpends(s1, steps[1..], key, open1);
    }
  }

  /**
   However many posts arrive, one handle admits at most five wrong codes and gives at most one session, as
   long as the posts about it come one at a time and their writes get through; fewer if some attempts were
   spent before, none once it has expired.  Nothing is asked of anything else that runs.
  */
  lemma OneHandleIsBounded(s: State, key: string, steps: seq<Step>)
    requires Serial(s, steps, key) && forall r :: r in s.requests ==> !About(s.requests[r].pc, key)
    ensures
      var s' := Run(s, steps);
      && CountWrong(s'.log, key) <= CountWrong(s.log, key) + Remaining(s, key)
      && CountSessions(s'.log, key) <=
           CountSessions(s.log, key) + (if Live(s.enrolments, key, s.now) then 1 else 0)
  {
    var _ := RunSpends(s, steps, key, None);
  }
}
