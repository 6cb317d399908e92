/**
 Exactly when one handle admits no more wrong codes and no more sessions than it has left, over every run
 from a start: with no post about it at all, or with one open at a time whose writes get through.
*/
module AttemptBound {
  import opened EnrolPosts
  import opened EnrolStore
  import opened LoginProtocol
  import opened LoginReread
  import opened LoginTheorems
  import opened OverlappingPosts
  import opened RedisStore
  import opened Sessions
  import opened Wrappers

  /** The posts about `key` that are open. */
  function OpenPosts(s: State, key: string): set<nat> {
    set r | r in s.requests && About(s.requests[r].pc, key)
  }

  /** Nothing is stored anew under `key`; if writes are reliable, those of posts about it get through. */
  predicate Orderly(s: State, step: Step, key: string, reliable: bool) {
    && PutsNot(s, step, key)
    && (reliable && step.Advance? && step.r in s.requests && About(s.requests[step.r].pc, key) ==>
          WritesSucceed(step.luck))
  }

  /** At most `k` posts about `key` are open at any moment of the run. */
  predicate AtMost(s: State, steps: seq<Step>, key: string, k: nat, reliable: bool)
    decreases |steps|
  {
    && |OpenPosts(s, key)| <= k
    && (steps == [] ||
        (Orderly(s, steps[0], key, reliable) && AtMost(Apply(s, steps[0]), steps[1..], key, k, reliable)))
  }

  /** A run up to some moment at which no post about `key` is open, and a run from there. */
  predicate Fits(s0: State, before: seq<Step>, key: string, steps: seq<Step>, k: nat, reliable: bool) {
    Initial(s0) &&
    var s := Run(s0, before);
    OpenPosts(s, key) == {} && AtMost(s, steps, key, k, reliable)
  }

  ghost predicate CodesKept(k: nat, reliable: bool) {
    forall s0, before, key, steps :: Fits(s0, before, key, steps, k, reliable) ==>
      var s := Run(s0, before);
      CountWrong(Run(s, steps).log, key) <= CountWrong(s.log, key) + Remaining(s, key)
  }

  ghost predicate SessionsKept(k: nat, reliable: bool) {
    forall s0, before, key, steps :: Fits(s0, before, key, steps, k, reliable) ==>
      var s := Run(s0, before);
      CountSessions(Run(s, steps).log, key) <=
        CountSessions(s.log, key) + (if Live(s.enrolments, key, s.now) then 1 else 0)
  }

  predicate Safe(k: nat, reliable: bool) {
    k == 0 || (k == 1 && reliable)
  }

  // Where it is kept.

  lemma Subsets(a: set<nat>, b: set<nat>)
    requires a <= b
    ensures |a| <= |b|
  {
    assert |b - a| == |b| - |a|;
  }

  lemma AtMostOneIsTheOnly(open: set<nat>, r: nat, t: nat)
    requires |open| <= 1 && r in open && t in open
    ensures r == t
  {
    Subsets({r, t}, open);
    assert r != t ==> |{r, t}| == 2;
  }

  lemma NoneIsOpen(s: State, key: string)
    requires OpenPosts(s, key) == {}
    ensures forall r :: r in s.requests ==> !About(s.requests[r].pc, key)
  {
    forall r | r in s.requests ensures !About(s.requests[r].pc, key) {
      assert r !in OpenPosts(s, key);
    }
  }

  lemma FewIsOneAtATime(s: State, key: string)
    requires |OpenPosts(s, key)| <= 1
    ensures OneAtATime(s, key)
  {
    forall r, t | r in OpenPosts(s, key) && t in OpenPosts(s, key) ensures r == t {
      AtMostOneIsTheOnly(OpenPosts(s, key), r, t);
    }
    assert forall r :: r in s.requests && About(s.requests[r].pc, key) ==> r in OpenPosts(s, key);
  }

  lemma {:induction false} SafeIsSerial(s: State, steps: seq<Step>, key: string, k: nat, reliable: bool)
    requires AtMost(s, steps, key, k, reliable) && Safe(k, reliable)
    ensures Serial(s, steps, key)
    decreases |steps|
  {
    FewIsOneAtATime(s, key);
    if steps != [] {
      SafeIsSerial(Apply(s, steps[0]), steps[1..], key, k, reliable);
      if k == 0 {
        NoneIsOpen(s, key);
      }
    }
  }

  lemma SafeIsKept(k: nat, reliable: bool)
    requires Safe(k, reliable)
    ensures CodesKept(k, reliable) && SessionsKept(k, reliable)
  {
    forall s0, before, key, steps | Fits(s0, before, key, steps, k, reliable)
      ensures
        var s := Run(s0, before);
        && CountWrong(Run(s, steps).log, key) <= CountWrong(s.log, key) + Remaining(s, key)
        && CountSessions(Run(s, steps).log, key) <=
             CountSessions(s.log, key) + (if Live(s.enrolments, key, s.now) then 1 else 0)
    {
      var s := Run(s0, before);
      NoneIsOpen(s, key);
      SafeIsSerial(s, steps, key, k, reliable);
      OneHandleIsBounded(s, key, steps);
    }
  }

  // Runs that only a few posts make.

  /** A step of one of these posts, that stores nothing under `key` and, if it has to, gets its write through. */
  predicate StepOf(step: Step, posts: set<nat>, key: string, reliable: bool) {
    || (step.Start? && step.r in posts)
    || (step.Advance? && step.r in posts && step.luck.id != key && (reliable ==> WritesSucceed(step.luck)))
  }

  predicate StepsOf(steps: seq<Step>, posts: set<nat>, key: string, reliable: bool) {
    forall i :: 0 <= i < |steps| ==> StepOf(steps[i], posts, key, reliable)
  }

  lemma StepsOfAppend(a: seq<Step>, b: seq<Step>, posts: set<nat>, key: string, reliable: bool)
    requires StepsOf(a, posts, key, reliable) && StepsOf(b, posts, key, reliable)
    ensures StepsOf(a + b, posts, key, reliable)
  {
  }

  lemma {:induction false} OnlyThesePosts(s: State, steps: seq<Step>, key: string, posts: set<nat>, reliable: bool)
    requires OpenPosts(s, key) <= posts && StepsOf(steps, posts, key, reliable)
    ensures AtMost(s, steps, key, |posts|, reliable)
    decreases |steps|
  {
    Subsets(OpenPosts(s, key), posts);
    if steps != [] {
      assert StepOf(steps[0], posts, key, reliable);
      var s1 := Apply(s, steps[0]);
      forall r | r in OpenPosts(s1, key) ensures r in posts {
        assert r == steps[0].r || r in OpenPosts(s, key);
      }
      OnlyThesePosts(s1, steps[1..], key, posts, reliable);
    }
  }

  lemma {:induction false} AtMostAppend(s: State, a: seq<Step>, b: seq<Step>, key: string, k: nat, reliable: bool)
    requires AtMost(s, a, key, k, reliable) && AtMost(Run(s, a), b, key, k, reliable)
    ensures AtMost(s, a + b, key, k, reliable)
    decreases |a|
  {
    if a == [] {
      assert a + b == b;
    } else {
      assert (a + b)[1..] == a[1..] + b;
      AtMostAppend(Apply(s, a[0]), a[1..], b, key, k, reliable);
    }
  }

  /** More room and less reliability only allow more. */
  lemma {:induction false} AtMostMore(
    s: State, steps: seq<Step>, key: string, k: nat, reliable: bool, k': nat, r': bool)
    requires AtMost(s, steps, key, k, reliable) && k <= k' && (r' ==> reliable)
    ensures AtMost(s, steps, key, k', r')
    decreases |steps|
  {
    if steps != [] {
      AtMostMore(Apply(s, steps[0]), steps[1..], key, k, reliable, k', r');
    }
  }

  // A handle with one code left.

  lemma AttemptIsSpent(s: State, state: EnrolState, r: nat) returns (steps: seq<Step>)
    requires Guessable(s, "id", state) && state.attempts + 1 < MAX_ATTEMPTS && r !in s.requests
    ensures
      var s' := Run(s, steps);
      && Holding(s', "id", Counted(state)) && s'.factors == s.factors && s'.config == s.config
      && s'.requests == s.requests[r := Request(state.pending, Done)]
  {
    var read := [Start(r, state.pending, ReadEnrolment("id", Code)), Advance(r, WrongGuess())];
    var guess := [Advance(r, WrongGuess()), Advance(r, WrongGuess())];
    OneReads(s, "id", state, r);
    OneGuesses(Run(s, read), "id", state, r);
    RunAppend(s, read, guess);
    steps := read + guess;
  }

  lemma {:induction false} AttemptsAreSpent(s: State, state: EnrolState, n: nat, r: nat) returns (steps: seq<Step>)
    requires n > 0 ==> Guessable(s, "id", state)
    requires Holding(s, "id", state) && state.attempts + n < MAX_ATTEMPTS
    requires forall t :: t in s.requests ==> t < r && s.requests[t].pc.Done?
    ensures
      var s' := Run(s, steps);
      && Holding(s', "id", state.(attempts := state.attempts + n)) && s'.factors == s.factors && s'.config == s.config
      && forall t :: t in s'.requests ==> t < r + n && s'.requests[t].pc.Done?
    decreases n
  {
    if n == 0 {
      steps := [];
    } else {
      var first := AttemptIsSpent(s, state, r);
      var rest := AttemptsAreSpent(Run(s, first), Counted(state), n - 1, r + 1);
      RunAppend(s, first, rest);
      steps := first + rest;
    }
  }

  function OneLeft(): EnrolState {
    FreshEnrolment().(attempts := MAX_ATTEMPTS - 1)
  }

  /** The handle has one code left, and no post is open. */
  predicate AlmostSpent(s: State) {
    && Guessable(s, "id", OneLeft())
    && (forall t :: t in s.requests ==> t < 5 && s.requests[t].pc.Done?)
  }

  lemma AlmostSpentIsReached(s0: State) returns (steps: seq<Step>)
    requires Initial(s0) && s0.config.enrols
    ensures AlmostSpent(Run(s0, steps))
  {
    var first := EnrolmentIsReached(s0);
    var s1 := Run(s0, first);
    var rest := AttemptsAreSpent(s1, FreshEnrolment(), MAX_ATTEMPTS - 1, 1);
    RunAppend(s0, first, rest);
    steps := first + rest;
  }

  // Two wrong codes with one left.

  /** A post that has read the state checks a wrong code. */
  lemma GuessIsWrong(s: State, r: nat, state: EnrolState, l: Luck)
    requires r in s.requests && s.requests[r] == Request(state.pending, Confirm("id", state)) && l.verdict.Wrong?
    requires state.factor in s.factors && !s.factors[state.factor].factor.active
    ensures
      Apply(s, Advance(r, l)) == s.(requests := s.requests[r := Request(state.pending, Count("id", Counted(state)))],
                                    log := s.log + [WrongCode("id")])
  {
    assert ConfirmVerdict(s, state, l) == Wrong;
  }

  lemma TwoWrong(log: seq<Fact>)
    ensures CountWrong((log + [WrongCode("id")]) + [WrongCode("id")], "id") == CountWrong(log, "id") + 2
  {
    CountsGrow(log, [WrongCode("id")], "id");
    CountsGrow(log + [WrongCode("id")], [WrongCode("id")], "id");
    assert CountWrong([WrongCode("id")], "id") == 1;
  }

  function Reads(r: nat, form: Form, l: Luck): seq<Step> {
    [Start(r, PENDING, ReadEnrolment("id", form)), Advance(r, l)]
  }

  lemma ReadsAreOf(r: nat, form: Form, l: Luck, posts: set<nat>, reliable: bool)
    requires r in posts && l.id != "id" && WritesSucceed(l)
    ensures StepsOf(Reads(r, form, l), posts, "id", reliable)
  {
  }

  lemma BothRead(s: State)
    requires AlmostSpent(s)
    ensures
      var q := Request(PENDING, Confirm("id", OneLeft()));
      Run(s, Reads(5, Code, WrongGuess()) + Reads(6, Code, WrongGuess())) ==
        s.(requests := s.requests[5 := q][6 := q])
  {
    var a, b := Reads(5, Code, WrongGuess()), Reads(6, Code, WrongGuess());
    OneReads(s, "id", OneLeft(), 5);
    OneReads(Run(s, a), "id", OneLeft(), 6);
    RunAppend(s, a, b);
  }

  lemma BothGuess(s: State)
    requires 5 in s.requests && s.requests[5] == Request(PENDING, Confirm("id", OneLeft()))
    requires 6 in s.requests && s.requests[6] == Request(PENDING, Confirm("id", OneLeft()))
    requires "id" in s.factors && !s.factors["id"].factor.active
    ensures CountWrong(Run(s, [Advance(5, WrongGuess()), Advance(6, WrongGuess())]).log, "id") ==
      CountWrong(s.log, "id") + 2
  {
    var l := WrongGuess();
    RunTwo(s, Advance(5, l), Advance(6, l));
    GuessIsWrong(s, 5, OneLeft(), l);
    GuessIsWrong(Apply(s, Advance(5, l)), 6, OneLeft(), l);
    TwoWrong(s.log);
  }

  /** Two posts, whose guesses follow both readings. */
  function GuessTogether(): seq<Step> {
    var l := WrongGuess();
    (Reads(5, Code, l) + Reads(6, Code, l)) + [Advance(5, l), Advance(6, l)]
  }

  lemma GuessTogetherIsOf()
    ensures StepsOf(GuessTogether(), {5, 6}, "id", true)
  {
    var l := WrongGuess();
    ReadsAreOf(5, Code, l, {5, 6}, true);
    ReadsAreOf(6, Code, l, {5, 6}, true);
    StepsOfAppend(Reads(5, Code, l), Reads(6, Code, l), {5, 6}, "id", true);
    assert StepsOf([Advance(5, l), Advance(6, l)], {5, 6}, "id", true);
    StepsOfAppend(Reads(5, Code, l) + Reads(6, Code, l), [Advance(5, l), Advance(6, l)], {5, 6}, "id", true);
  }

  lemma GuessTogetherCounts(s: State)
    requires AlmostSpent(s)
    ensures CountWrong(Run(s, GuessTogether()).log, "id") == CountWrong(s.log, "id") + 2
  {
    var l := WrongGuess();
    var read, guess := Reads(5, Code, l) + Reads(6, Code, l), [Advance(5, l), Advance(6, l)];
    BothRead(s);
    BothGuess(Run(s, read));
    RunAppend(s, read, guess);
  }

  lemma PairIsTwo(a: nat, b: nat)
    requires a != b
    ensures |{a, b}| == 2
  {
  }

  lemma NobodyIsOpen(s: State)
    requires forall t :: t in s.requests ==> s.requests[t].pc.Done?
    ensures OpenPosts(s, "id") == {}
  {
  }

  /** Overlapping: both read before either counts. */
  lemma TwoGuessTogether(s: State)
    requires AlmostSpent(s)
    ensures AtMost(s, GuessTogether(), "id", 2, true)
    ensures CountWrong(Run(s, GuessTogether()).log, "id") == CountWrong(s.log, "id") + 2
  {
    GuessTogetherIsOf();
    NobodyIsOpen(s);
    OnlyThesePosts(s, GuessTogether(), "id", {5, 6}, true);
    PairIsTwo(5, 6);
    GuessTogetherCounts(s);
  }

  /** Everything a post writes after its wrong code is lost. */
  function LostWrites(): Luck {
    WrongGuess().(fate := FailedLost)
  }

  lemma GuessIsForgotten(s: State, r: nat)
    requires r in s.requests && s.requests[r] == Request(PENDING, Confirm("id", OneLeft()))
    requires "id" in s.factors && !s.factors["id"].factor.active
    ensures
      Run(s, [Advance(r, LostWrites()), Advance(r, LostWrites()), Advance(r, LostWrites())]) ==
        s.(requests := s.requests[r := Request(PENDING, Done)], log := s.log + [WrongCode("id")])
  {
    var l := LostWrites();
    RunThree(s, Advance(r, l), Advance(r, l), Advance(r, l));
    GuessIsWrong(s, r, OneLeft(), l);
    var s1 := Apply(s, Advance(r, l));
    var s2 := Apply(s1, Advance(r, l));
    assert s1.log + [] == s1.log;
    assert s2 == s1.(requests := s.requests[r := Request(PENDING, Spend("id"))]);
    var s3 := Apply(s2, Advance(r, l));
    assert s3 == s1.(requests := s.requests[r := Request(PENDING, Done)]);
  }

  /** A post whose wrong code leaves no trace in the store. */
  lemma PostIsForgotten(s: State) returns (steps: seq<Step>)
    requires AlmostSpent(s)
    ensures StepsOf(steps, {5}, "id", false)
    ensures Run(s, steps) ==
      s.(requests := s.requests[5 := Request(PENDING, Done)], log := s.log + [WrongCode("id")])
  {
    var read, lost := Reads(5, Code, WrongGuess()), Advance(5, LostWrites());
    OneReads(s, "id", OneLeft(), 5);
    var s1 := Run(s, read);
    GuessIsForgotten(s1, 5);
    assert s1.requests[5 := Request(PENDING, Done)] == s.requests[5 := Request(PENDING, Done)];
    RunAppend(s, read, [lost, lost, lost]);
    ReadsAreOf(5, Code, WrongGuess(), {5}, false);
    steps := read + [lost, lost, lost];
  }

  lemma PostGuesses(s: State) returns (steps: seq<Step>)
    requires Guessable(s, "id", OneLeft()) && 6 !in s.requests
    ensures StepsOf(steps, {6}, "id", false)
    ensures Run(s, steps).log == s.log + [WrongCode("id")]
  {
    var read, guess := Reads(6, Code, WrongGuess()), Advance(6, WrongGuess());
    OneReads(s, "id", OneLeft(), 6);
    GuessIsWrong(Run(s, read), 6, OneLeft(), WrongGuess());
    RunOne(Run(s, read), guess);
    RunAppend(s, read, [guess]);
    ReadsAreOf(6, Code, WrongGuess(), {6}, false);
    steps := read + [guess];
  }

  /** One after the other, but the first one's count and delete are lost. */
  lemma TwoGuessInTurn(s: State) returns (steps: seq<Step>)
    requires AlmostSpent(s)
    ensures AtMost(s, steps, "id", 1, false)
    ensures CountWrong(Run(s, steps).log, "id") == CountWrong(s.log, "id") + 2
  {
    var first := PostIsForgotten(s);
    var s1 := Run(s, first);
    var second := PostGuesses(s1);
    TwoWrong(s.log);
    RunAppend(s, first, second);
    assert OpenPosts(s, "id") == OpenPosts(s1, "id") == {};
    OnlyThesePosts(s, first, "id", {5}, false);
    OnlyThesePosts(s1, second, "id", {6}, false);
    AtMostAppend(s, first, second, "id", 1, false);
    steps := first + second;
  }

  // Two sessions from one handle.

  /** A confirmed enrolment, nobody signed in, and no post open. */
  predicate Confirmed(s: State) {
    && Holding(s, "id", FreshEnrolment().(confirmed := true)) && s.config.enrols && s.db.sessions == map[]
    && (forall t :: t in s.requests ==> t < 2 && s.requests[t].pc.Done?)
  }

  lemma ConfirmedIsReached(s0: State) returns (steps: seq<Step>)
    requires Initial(s0) && s0.config.enrols
    ensures Confirmed(Run(s0, steps))
  {
    var first := EnrolmentIsReached(s0);
    var s1 := Run(s0, first);
    var read := Reads(1, Code, Goes(FORCED));
    EnrolmentIsRead(s1);
    var rest := CodeIsMarked(Run(s1, read));
    RunAppend(s1, read, rest);
    RunAppend(s0, first, read + rest);
    steps := first + (read + rest);
  }

  /** A right code, recovery codes shown, and the state marked. */
  lemma CodeIsMarked(s: State) returns (steps: seq<Step>)
    requires 1 in s.requests && s.requests[1] == Request(PENDING, Confirm("id", FreshEnrolment()))
    requires Holding(s, "id", FreshEnrolment()) && "id" in s.factors && !s.factors["id"].factor.active
    ensures
      var s' := Run(s, steps);
      && Holding(s', "id", FreshEnrolment().(confirmed := true)) && s'.config == s.config && s'.db == s.db
      && s'.requests == s.requests[1 := Request(PENDING, Done)]
  {
    var next := Advance(1, Goes(FORCED).(codes := Codes.Issued));
    steps := [next, next, next];
    RunThree(s, next, next, next);
    var s1 := Apply(s, next);
    assert s1.requests == s.requests[1 := Request(PENDING, IssueCodes("id", FreshEnrolment()))];
    var s2 := Apply(s1, next);
    assert s2.requests == s.requests[1 := Request(PENDING, Mark("id", FreshEnrolment().(confirmed := true)))];
    assert s2.enrolments == s.enrolments;
  }

  const BY_HANDLE := ByEnrolment("id", "id")

  /** Works throughout, except that a write to the enrolment store has the fate given. */
  function Signs(session: Id, fate: Fate): Luck {
    Goes(FORCED).(id := session, fate := fate)
  }

  lemma ContinueIsRead(s: State, r: nat, session: Id)
    requires Holding(s, "id", FreshEnrolment().(confirmed := true)) && s.config.enrols && r !in s.requests
    ensures Run(s, Reads(r, Continue, Signs(session, Acknowledged))) ==
      s.(requests := s.requests[r := Request(PENDING, LoadUser(SOMEBODY, BY_HANDLE))])
  {
    var l := Signs(session, Acknowledged);
    RunTwo(s, Start(r, PENDING, ReadEnrolment("id", Continue)), Advance(r, l));
    var s1 := Apply(s, Start(r, PENDING, ReadEnrolment("id", Continue)));
    assert Lookup(s1.enrolments, "id", s1.now, true) == Success(FreshEnrolment().(confirmed := true));
    assert s1.log + [] == s.log;
    assert s1.requests[r := Request(PENDING, LoadUser(SOMEBODY, BY_HANDLE))] ==
      s.requests[r := Request(PENDING, LoadUser(SOMEBODY, BY_HANDLE))];
  }

  /** What a post that may continue leaves: its session and its facts, and the handle still to be spent. */
  predicate GaveSession(s: State, s': State, r: nat, session: Id) {
    && s'.requests == s.requests[r := Request(PENDING, Spend("id"))]
    && s'.db.sessions.Keys == s.db.sessions.Keys + {session}
    && s'.enrolments == s.enrolments && s'.now == s.now && s'.config == s.config
    && CountSessions(s'.log, "id") == CountSessions(s.log, "id") + 1
  }

  lemma ContinueLeaves(s: State, r: nat, session: Id, fate: Fate)
    requires r in s.requests && s.requests[r] == Request(PENDING, LoadUser(SOMEBODY, BY_HANDLE))
    requires session !in s.db.sessions
    ensures
      var s' := Run(s, Finish(r, Signs(session, fate), Signs(session, fate)));
      && s'.requests == s.requests[r := Request(PENDING, Spend("id"))]
      && s'.db.sessions.Keys == s.db.sessions.Keys + {session}
      && s'.enrolments == s.enrolments && s'.now == s.now && s'.config == s.config
  {
    var l := Signs(session, fate);
    RunTwo(s, Advance(r, l), Advance(r, l));
    var s1 := Apply(s, Advance(r, l));
    assert s1.requests == s.requests[r := Request(PENDING, Issue(SOMEBODY, BY_HANDLE))];
    assert s1.db == s.db && s1.enrolments == s.enrolments;
    var s2 := Apply(s1, Advance(r, l));
    assert s2.requests == s.requests[r := Request(PENDING, Spend("id"))];
  }

  lemma ContinueSignsIn(s: State, r: nat, session: Id, fate: Fate)
    requires r in s.requests && s.requests[r] == Request(PENDING, LoadUser(SOMEBODY, BY_HANDLE))
    requires session !in s.db.sessions
    ensures GaveSession(s, Run(s, Finish(r, Signs(session, fate), Signs(session, fate))), r, session)
  {
    ContinueLeaves(s, r, session, fate);
    StoppedIff(s, r, Signs(session, fate), Signs(session, fate));
    var more := [PolicyReread(SOMEBODY, PENDING, FORCED), SignedIn(SOMEBODY, PENDING, session, BY_HANDLE)];
    CountsGrow(s.log, more, "id");
    OneSession(more);
  }

  lemma OneSession(more: seq<Fact>)
    requires |more| == 2 && !SignsInBy(more[0], "id") && SignsInBy(more[1], "id")
    ensures CountSessions(more, "id") == 1
  {
    assert more[..1] == [more[0]] && more[..1][..0] == [];
    assert CountSessions(more[..1], "id") == 0;
  }

  lemma FinishIsOf(r: nat, l: Luck, posts: set<nat>, reliable: bool)
    requires r in posts && l.id != "id" && (reliable ==> WritesSucceed(l))
    ensures StepsOf(Finish(r, l, l), posts, "id", reliable)
  {
  }

  lemma BothContinue(s: State)
    requires Confirmed(s)
    ensures
      var q := Request(PENDING, LoadUser(SOMEBODY, BY_HANDLE));
      Run(s, Reads(2, Continue, Signs("first", Acknowledged)) + Reads(3, Continue, Signs("second", Acknowledged))) ==
        s.(requests := s.requests[2 := q][3 := q])
  {
    var a, b := Reads(2, Continue, Signs("first", Acknowledged)), Reads(3, Continue, Signs("second", Acknowledged));
    ContinueIsRead(s, 2, "first");
    ContinueIsRead(Run(s, a), 3, "second");
    RunAppend(s, a, b);
  }

  lemma BothSignIn(s: State)
    requires 2 in s.requests && s.requests[2] == Request(PENDING, LoadUser(SOMEBODY, BY_HANDLE))
    requires 3 in s.requests && s.requests[3] == Request(PENDING, LoadUser(SOMEBODY, BY_HANDLE))
    requires s.db.sessions == map[]
    ensures
      var l, m := Signs("first", Acknowledged), Signs("second", Acknowledged);
      CountSessions(Run(s, Finish(2, l, l) + Finish(3, m, m)).log, "id") == CountSessions(s.log, "id") + 2
  {
    var l, m := Signs("first", Acknowledged), Signs("second", Acknowledged);
    ContinueSignsIn(s, 2, "first", Acknowledged);
    ContinueSignsIn(Run(s, Finish(2, l, l)), 3, "second", Acknowledged);
    RunAppend(s, Finish(2, l, l), Finish(3, m, m));
  }

  /** Two posts, whose sessions follow both readings. */
  function ContinueTogether(): seq<Step> {
    var l, m := Signs("first", Acknowledged), Signs("second", Acknowledged);
    (Reads(2, Continue, l) + Reads(3, Continue, m)) + (Finish(2, l, l) + Finish(3, m, m))
  }

  lemma ContinueTogetherIsOf()
    ensures StepsOf(ContinueTogether(), {2, 3}, "id", true)
  {
    var l, m := Signs("first", Acknowledged), Signs("second", Acknowledged);
    ReadsAreOf(2, Continue, l, {2, 3}, true);
    ReadsAreOf(3, Continue, m, {2, 3}, true);
    FinishIsOf(2, l, {2, 3}, true);
    FinishIsOf(3, m, {2, 3}, true);
    StepsOfAppend(Reads(2, Continue, l), Reads(3, Continue, m), {2, 3}, "id", true);
    StepsOfAppend(Finish(2, l, l), Finish(3, m, m), {2, 3}, "id", true);
    StepsOfAppend(
      Reads(2, Continue, l) + Reads(3, Continue, m), Finish(2, l, l) + Finish(3, m, m), {2, 3}, "id", true);
  }

  lemma ContinueTogetherCounts(s: State)
    requires Confirmed(s)
    ensures CountSessions(Run(s, ContinueTogether()).log, "id") == CountSessions(s.log, "id") + 2
  {
    var l, m := Signs("first", Acknowledged), Signs("second", Acknowledged);
    var read, finish := Reads(2, Continue, l) + Reads(3, Continue, m), Finish(2, l, l) + Finish(3, m, m);
    BothContinue(s);
    BothSignIn(Run(s, read));
    RunAppend(s, read, finish);
  }

  /** Overlapping: both read the confirmed state before either spends the handle. */
  lemma TwoContinueTogether(s: State)
    requires Confirmed(s)
    ensures AtMost(s, ContinueTogether(), "id", 2, true)
    ensures CountSessions(Run(s, ContinueTogether()).log, "id") == CountSessions(s.log, "id") + 2
  {
    ContinueTogetherIsOf();
    NobodyIsOpen(s);
    OnlyThesePosts(s, ContinueTogether(), "id", {2, 3}, true);
    PairIsTwo(2, 3);
    ContinueTogetherCounts(s);
  }

  /** A continuing post, from its reading to its session. */
  lemma PostSignsIn(s: State, r: nat, session: Id, fate: Fate) returns (steps: seq<Step>)
    requires Holding(s, "id", FreshEnrolment().(confirmed := true)) && s.config.enrols && r !in s.requests
    requires session !in s.db.sessions && session != "id"
    ensures StepsOf(steps, {r}, "id", false)
    ensures GaveSession(s, Run(s, steps), r, session)
  {
    var read := Reads(r, Continue, Signs(session, Acknowledged));
    var finish := Finish(r, Signs(session, fate), Signs(session, fate));
    ContinueIsRead(s, r, session);
    var s1 := Run(s, read);
    ContinueSignsIn(s1, r, session, fate);
    assert s1.requests[r := Request(PENDING, Spend("id"))] == s.requests[r := Request(PENDING, Spend("id"))];
    RunAppend(s, read, finish);
    ReadsAreOf(r, Continue, Signs(session, Acknowledged), {r}, false);
    FinishIsOf(r, Signs(session, fate), {r}, false);
    steps := read + finish;
  }

  /** A continuing post that leaves the handle as it found it. */
  lemma SessionIsForgotten(s: State) returns (steps: seq<Step>)
    requires Confirmed(s)
    ensures StepsOf(steps, {2}, "id", false)
    ensures
      var s' := Run(s, steps);
      && s'.requests == s.requests[2 := Request(PENDING, Done)] && s'.db.sessions.Keys == {"first"}
      && s'.enrolments == s.enrolments && s'.now == s.now && s'.config == s.config
      && CountSessions(s'.log, "id") == CountSessions(s.log, "id") + 1
  {
    var first := PostSignsIn(s, 2, "first", FailedLost);
    var lost := Advance(2, Signs("first", FailedLost));
    DeleteIsLost(Run(s, first), 2, "first");
    RunAppend(s, first, [lost]);
    assert StepOf(lost, {2}, "id", false);
    StepsOfAppend(first, [lost], {2}, "id", false);
    steps := first + [lost];
  }

  /** One after the other, but the first one's delete is lost. */
  lemma TwoContinueInTurn(s: State) returns (steps: seq<Step>)
    requires Confirmed(s)
    ensures AtMost(s, steps, "id", 1, false)
    ensures CountSessions(Run(s, steps).log, "id") == CountSessions(s.log, "id") + 2
  {
    var first := SessionIsForgotten(s);
    var s1 := Run(s, first);
    var second := PostSignsIn(s1, 3, "second", Acknowledged);
    RunAppend(s, first, second);
    NobodyIsOpen(s);
    NobodyIsOpen(s1);
    OnlyThesePosts(s, first, "id", {2}, false);
    OnlyThesePosts(s1, second, "id", {3}, false);
    AtMostAppend(s, first, second, "id", 1, false);
    steps := first + second;
  }

  lemma DeleteIsLost(s: State, r: nat, session: Id)
    requires r in s.requests && s.requests[r] == Request(PENDING, Spend("id"))
    ensures Run(s, [Advance(r, Signs(session, FailedLost))]) ==
      s.(requests := s.requests[r := Request(PENDING, Done)])
  {
    var l := Signs(session, FailedLost);
    RunOne(s, Advance(r, l));
    assert EnrolmentsAfter(s, s.requests[r], l) == s.enrolments;
    assert s.log + Facts(s, s.requests[r], l) == s.log;
  }

  // The exact condition.

  lemma Breaks(k: nat, reliable: bool)
    requires !Safe(k, reliable)
    ensures !CodesKept(k, reliable) && !SessionsKept(k, reliable)
  {
    var s0 := State(0, Config(None, true), map[], map[], map[], map[], Db(map[], []), []);
    CodesBreak(s0, k, reliable);
    SessionsBreak(s0, k, reliable);
  }

  lemma CodesBreak(s0: State, k: nat, reliable: bool)
    requires Initial(s0) && s0.config.enrols && !Safe(k, reliable)
    ensures !CodesKept(k, reliable)
  {
    var before := AlmostSpentIsReached(s0);
    var s := Run(s0, before);
    assert OpenPosts(s, "id") == {} && Remaining(s, "id") == 1;
    var steps := GuessTogether();
    if k == 1 {
      steps := TwoGuessInTurn(s);
    } else {
      TwoGuessTogether(s);
      AtMostMore(s, steps, "id", 2, true, k, reliable);
    }
    assert Fits(s0, before, "id", steps, k, reliable);
  }

  lemma SessionsBreak(s0: State, k: nat, reliable: bool)
    requires Initial(s0) && s0.config.enrols && !Safe(k, reliable)
    ensures !SessionsKept(k, reliable)
  {
    var before := ConfirmedIsReached(s0);
    var s := Run(s0, before);
    assert OpenPosts(s, "id") == {};
    var steps := ContinueTogether();
    if k == 1 {
      steps := TwoContinueInTurn(s);
    } else {
      TwoContinueTogether(s);
      AtMostMore(s, steps, "id", 2, true, k, reliable);
    }
    assert Fits(s0, before, "id", steps, k, reliable);
  }

  /**
   Over all runs from a start, with at most `k` posts about a handle open at once and their writes reliable or
   not: the bound on its wrong codes and the bound on its sessions are kept if and only if there are no posts
   at all, or one at a time with reliable writes.
  */
  lemma BoundKeptIff(k: nat, reliable: bool)
    ensures CodesKept(k, reliable) <==> Safe(k, reliable)
    ensures SessionsKept(k, reliable) <==> Safe(k, reliable)
  {
    if Safe(k, reliable) {
      SafeIsKept(k, reliable);
    } else {
      Breaks(k, reliable);
    }
  }
}
