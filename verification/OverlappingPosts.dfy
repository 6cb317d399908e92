/**
 How far the bound fails for overlapping posts: reading the attempts and writing them back are two commands,
 so posts that overlap overwrite each other's count, however many there are.
*/
module OverlappingPosts {
  import opened EnrolPosts
  import opened EnrolStore
  import opened LoginPolicy
  import opened LoginProtocol
  import opened RedisStore
  import opened Sessions
  import opened Wrappers

  /** Everything works and the code is wrong. */
  function WrongGuess(): Luck {
    Luck(true, Who("", ""), Policy(true, false, None), "", Wrong, NoneDue, Acknowledged,
         Faults(true, true, true, true, Acknowledged), None)
  }

  predicate Holding(s: State, key: string, state: EnrolState) {
    Live(s.enrolments, key, s.now) && s.enrolments[key].value == Doc(state)
  }

  /** A live, unconfirmed enrolment with attempts left, and its pending factor. */
  predicate Guessable(s: State, key: string, state: EnrolState) {
    && Holding(s, key, state) && Identified(state) && !state.confirmed && state.attempts < MAX_ATTEMPTS
    && s.config.enrols && state.factor in s.factors && !s.factors[state.factor].factor.active
  }

  /** Requests 0 to n-1 have all read the same state and are about to check their codes. */
  predicate Waiting(s: State, key: string, state: EnrolState, n: nat) {
    forall r :: 0 <= r < n ==> r in s.requests && s.requests[r] == Request(state.pending, Confirm(key, state))
  }

  /** One more post reads the state. */
  lemma OneReads(s: State, key: string, state: EnrolState, r: nat)
    requires Guessable(s, key, state) && r !in s.requests
    ensures Run(s, [Start(r, state.pending, ReadEnrolment(key, Code)), Advance(r, WrongGuess())]) ==
      s.(requests := s.requests[r := Request(state.pending, Confirm(key, state))])
  {
    var a, b := Start(r, state.pending, ReadEnrolment(key, Code)), Advance(r, WrongGuess());
    RunTwo(s, a, b);
    var s1 := Apply(s, a);
    assert s1.requests[r] == Request(state.pending, ReadEnrolment(key, Code));
    assert Lookup(s1.enrolments, key, s1.now, true) == Success(state);
    assert ReadEnrolmentNext(s1, key, Code, state.pending, WrongGuess()) == Confirm(key, state);
    assert s1.log + [] == s.log;
    assert s1.requests[r := Request(state.pending, Confirm(key, state))] ==
      s.requests[r := Request(state.pending, Confirm(key, state))];
  }

  lemma {:induction false} AllRead(s: State, key: string, state: EnrolState, n: nat) returns (steps: seq<Step>)
    requires Guessable(s, key, state) && s.requests == map[]
    ensures
      var s' := Run(s, steps);
      && s' == s.(requests := s'.requests) && Waiting(s', key, state, n)
      && forall r :: r in s'.requests ==> r < n
    decreases n
  {
    if n == 0 {
      steps := [];
    } else {
      var before := AllRead(s, key, state, n - 1);
      var s1 := Run(s, before);
      var more := [Start(n - 1, state.pending, ReadEnrolment(key, Code)), Advance(n - 1, WrongGuess())];
      OneReads(s1, key, state, n - 1);
      RunAppend(s, before, more);
      steps := before + more;
    }
  }

  function Counted(state: EnrolState): EnrolState {
    state.(attempts := state.attempts + 1)
  }

  /** After one guess: the count is one more than what that post read, whatever was counted meanwhile. */
  predicate Guessed(s: State, s': State, key: string, state: EnrolState, r: nat) {
    && s'.requests == s.requests[r := Request(state.pending, Done)]
    && s'.factors == s.factors && s'.now == s.now && s'.config == s.config && s'.log == s.log + [WrongCode(key)]
    && Holding(s', key, Counted(state))
  }

  lemma OneGuesses(s: State, key: string, state: EnrolState, r: nat)
    requires Live(s.enrolments, key, s.now) && state.attempts + 1 < MAX_ATTEMPTS
    requires state.factor in s.factors && !s.factors[state.factor].factor.active
    requires r in s.requests && s.requests[r] == Request(state.pending, Confirm(key, state))
    ensures Guessed(s, Run(s, [Advance(r, WrongGuess()), Advance(r, WrongGuess())]), key, state, r)
  {
    var a := Advance(r, WrongGuess());
    RunTwo(s, a, a);
    var s1 := Apply(s, a);
    assert ConfirmVerdict(s, state, WrongGuess()) == Wrong;
    assert s1.requests[r] == Request(state.pending, Count(key, Counted(state)));
    assert s1.enrolments == s.enrolments && s1.log == s.log + [WrongCode(key)];
    var s2 := Apply(s1, a);
    assert s2.requests[r] == Request(state.pending, Done);
    assert s2.enrolments == AfterReplace(s.enrolments, key, Counted(state), s.now);
    assert s1.log + [] == s1.log;
    assert s2.requests == s.requests[r := Request(state.pending, Done)];
  }

  lemma {:induction false} AllGuess(s: State, key: string, state: EnrolState, n: nat) returns (steps: seq<Step>)
    requires Live(s.enrolments, key, s.now) && state.attempts + 1 < MAX_ATTEMPTS
    requires state.factor in s.factors && !s.factors[state.factor].factor.active
    requires Waiting(s, key, state, n)
    ensures
      var s' := Run(s, steps);
      CountWrong(s'.log, key) == CountWrong(s.log, key) + n && (n > 0 ==> Holding(s', key, Counted(state)))
    ensures n == 0 ==> steps == []
    decreases n
  {
    if n == 0 {
      steps := [];
    } else {
      var first := [Advance(n - 1, WrongGuess()), Advance(n - 1, WrongGuess())];
      OneGuesses(s, key, state, n - 1);
      var s1 := Run(s, first);
      CountsGrow(s.log, [WrongCode(key)], key);
      var rest := AllGuess(s1, key, state, n - 1);
      RunAppend(s, first, rest);
      steps := first + rest;
    }
  }

  /**
   However many wrong codes one names, overlapping posts can try that many against one handle with every
   write succeeding, and the handle is still there afterwards with one attempt counted.
  */
  lemma OverlapHasNoBound(s: State, key: string, state: EnrolState, n: nat) returns (steps: seq<Step>)
    requires Guessable(s, key, state) && state.attempts + 1 < MAX_ATTEMPTS && s.requests == map[] && n > 0
    ensures
      var s' := Run(s, steps);
      CountWrong(s'.log, key) == CountWrong(s.log, key) + n && Holding(s', key, Counted(state))
  {
    var first := AllRead(s, key, state, n);
    var rest := AllGuess(Run(s, first), key, state, n);
    RunAppend(s, first, rest);
    steps := first + rest;
  }
}
