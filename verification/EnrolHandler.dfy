/**
 The enrolment post as the handler runs it, over the stores it holds.  What it leaves in them is what the
 step system's request leaves when it is advanced alone, so everything proved of requests is true of it.
*/
module EnrolHandler {
  import opened EnrolPosts
  import opened EnrolStore
  import opened LoginProtocol
  import opened RedisStore
  import opened Sessions

  datatype Page = Gone | ServerError | WrongCodePage | CodesPage | SignedInPage

  /** The encoded length of a 32-byte handle; a cookie of any other length is no handle. */
  const HANDLE_LENGTH := 43

  lemma {:induction false} DoneIsStill(s: State, r: nat, lucks: seq<Luck>)
    requires r in s.requests && s.requests[r].pc.Done?
    ensures Alone(s, r, lucks) == s
    decreases |lucks|
  {
    if lucks != [] {
      assert s.requests[r := s.requests[r]] == s.requests;
      assert s.log + [] == s.log;
      DoneIsStill(s, r, lucks[1..]);
    }
  }

  /** The first operation, then the rest. */
  lemma OneThenTheRest(s: State, lucks: seq<Luck>)
    requires 0 in s.requests && lucks != []
    ensures
      var s' := AdvanceRequest(s, 0, lucks[0]);
      && Alone(s, 0, lucks) == Alone(s', 0, lucks[1..])
      && (s'.requests[0].pc.Done? ==> Alone(s, 0, lucks) == s')
  {
    if AdvanceRequest(s, 0, lucks[0]).requests[0].pc.Done? {
      DoneIsStill(AdvanceRequest(s, 0, lucks[0]), 0, lucks[1..]);
    }
  }

  /** Reading changes nothing but the request. */
  lemma ReadingLeavesTheStores(s: State, q: Request, l: Luck)
    requires s.requests == map[0 := q] && q.pc.ReadEnrolment?
    ensures AdvanceRequest(s, 0, l) ==
      s.(requests := map[0 := q.(pc := ReadEnrolmentNext(s, q.pc.key, q.pc.form, q.pending, l))])
  {
    assert s.log + [] == s.log;
  }

  /** A right code activates the factor, and leads on to the recovery codes. */
  lemma ConfirmingActivates(s: State, q: Request, l: Luck)
    requires s.requests == map[0 := q] && q.pc.Confirm? && ConfirmVerdict(s, q.pc.state, l).Right?
    ensures
      var f := q.pc.state.factor;
      AdvanceRequest(s, 0, l) ==
        s.(requests := map[0 := q.(pc := IssueCodes(q.pc.key, q.pc.state))],
           factors := s.factors[f := s.factors[f].(factor := s.factors[f].factor.(active := true))],
           log := s.log + [FactorConfirmed(f)])
  {
  }

  lemma WrongCodeGoesOnToCount(s: State, q: Request, l: Luck)
    requires s.requests == map[0 := q] && q.pc.Confirm? && ConfirmVerdict(s, q.pc.state, l).Wrong?
    ensures
      var counted := q.pc.state.(attempts := q.pc.state.attempts + 1);
      AdvanceRequest(s, 0, l) ==
        s.(requests := map[0 := q.(pc := Count(q.pc.key, counted))], log := s.log + [WrongCode(q.pc.key)])
  {
  }

  lemma NoVerdictEnds(s: State, q: Request, l: Luck)
    requires s.requests == map[0 := q] && q.pc.Confirm? && ConfirmVerdict(s, q.pc.state, l).Unclear?
    ensures AdvanceRequest(s, 0, l) == s.(requests := map[0 := q.(pc := Done)])
  {
    assert s.log + [] == s.log;
  }

  lemma CodesLeaveTheStores(s: State, q: Request, l: Luck)
    requires s.requests == map[0 := q] && q.pc.IssueCodes?
    ensures AdvanceRequest(s, 0, l) == s.(requests := map[0 := q.(pc := IssueCodesNext(q.pc.key, q.pc.state, l))])
  {
    assert s.log + [] == s.log;
  }

  lemma LoadingLeavesTheStores(s: State, q: Request, l: Luck)
    requires s.requests == map[0 := q] && q.pc.LoadUser?
    ensures
      var s' := AdvanceRequest(s, 0, l);
      s' == s.(requests := map[0 := q.(pc := if l.ok then Issue(q.pc.who, q.pc.via) else Done)], log := s'.log)
  {
  }

  lemma IssuingTouchesTheDatabase(s: State, q: Request, l: Luck)
    requires s.requests == map[0 := q] && q.pc.Issue? && q.pc.via.ByEnrolment?
    ensures
      var s' := AdvanceRequest(s, 0, l);
      s' == s.(requests := map[0 := q.(pc := if Committed(s, q.pc.who, l) && l.faults.commit.Acknowledged?
                                             then Spend(q.pc.via.key) else Done)],
               db := DbAfter(s, q, l), log := s'.log)
  {
  }

  lemma SpendingTouchesTheHandle(s: State, q: Request, l: Luck)
    requires s.requests == map[0 := q] && q.pc.Spend?
    ensures AdvanceRequest(s, 0, l) ==
      s.(requests := map[0 := q.(pc := Done)],
         enrolments := if Applied(l.fate) then AfterDel(s.enrolments, q.pc.key) else s.enrolments)
  {
    assert s.log + [] == s.log;
  }

  /** The transaction that makes the session goes through, and the handler hears of it. */
  predicate Signs(l: Luck, db: Db, who: Who) {
    GoesThrough(db, l.cookie, l.id, who, l.faults)
  }

  class Handler {
    const config: Config
    const enrolments: Enrolments
    const db: Database
    var factors: map<Id, Owned>

    constructor (config: Config, enrolments: Enrolments, db: Database, factors: map<Id, Owned>)
      ensures this.config == config && this.enrolments == enrolments && this.db == db && this.factors == factors
    {
      this.config, this.enrolments, this.db, this.factors := config, enrolments, db, factors;
    }

    /** The stores, with one request in the step system. */
    ghost function World(q: Request, log: seq<Fact>): State
      reads this, enrolments.client, db
    {
      State(enrolments.client.now, config, factors, map[], enrolments.client.cells, map[0 := q], db.Committed(), log)
    }

    /** The stores are as `s` has them. */
    ghost predicate Holds(s: State)
      reads this, enrolments.client, db
    {
      s.now == enrolments.client.now && s.factors == factors && s.enrolments == enrolments.client.cells &&
      s.db == db.Committed()
    }

    // What each part of a post leaves, spelled out.

    /** The session is made and the handle deleted; nothing else changes, and a failed delete is ignored. */
    twostate predicate Completed(page: Page, state: EnrolState, handle: string, l: seq<Luck>)
      requires |l| >= 3
      reads this, enrolments.client, db
    {
      var who, key := Who(state.user, state.org), enrolments.Key(handle);
      var cells := old(enrolments.client.cells);
      if l[0].ok && Signs(l[1], old(db.Committed()), who) then
        && page == SignedInPage && TookEffect(old(db.Committed()), db.Committed(), l[1].cookie, l[1].id, who)
        && enrolments.client.cells == (if l[2].fate == FailedLost then cells else cells - {key})
      else page == ServerError && enrolments.client.cells == cells
    }

    /** One attempt more, the expiry where it was; after the fifth the handle is deleted. */
    twostate predicate Counted(page: Page, state: EnrolState, handle: string, l: seq<Luck>)
      requires |l| >= 2
      reads this, enrolments.client
    {
      var key, cells := enrolments.Key(handle), old(enrolments.client.cells);
      var written :=
        if l[0].fate == FailedLost || !Live(cells, key, enrolments.client.now) then cells
        else cells[key := Cell(Doc(state.(attempts := state.attempts + 1)), cells[key].expires)];
      if state.attempts + 1 >= 5 then
        page == Gone && enrolments.client.cells == (if l[1].fate == FailedLost then written else written - {key})
      else page == WrongCodePage && enrolments.client.cells == written
    }

    /** With codes to show the state is only marked, and nobody is signed in yet; with none due the post completes. */
    twostate predicate CodesGiven(page: Page, state: EnrolState, handle: string, l: seq<Luck>)
      requires |l| >= 4
      reads this, enrolments.client, db
    {
      var key, cells := enrolments.Key(handle), old(enrolments.client.cells);
      match l[0].codes
      case CodesFailed =>
        page == ServerError && enrolments.client.cells == cells && db.Committed() == old(db.Committed())
      case NoneDue => Completed(page, state, handle, l[1..])
      case Issued =>
        && db.Committed() == old(db.Committed())
        && var live := Live(cells, key, enrolments.client.now);
           page == (if l[1].fate == Acknowledged && live then CodesPage else ServerError) &&
           enrolments.client.cells ==
             if l[1].fate == FailedLost || !live then cells
             else cells[key := Cell(Doc(state.(confirmed := true)), cells[key].expires)]
    }

    /** A code for the pending factor the state names; anything else is an error that changes nothing. */
    twostate predicate Judged(page: Page, state: EnrolState, handle: string, l: seq<Luck>)
      requires |l| >= 5
      reads this, enrolments.client, db
    {
      var f, before := state.factor, old(factors);
      if f !in before || before[f].factor.active || l[0].verdict.Unclear? then page == ServerError && NothingChanged()
      else if l[0].verdict.Wrong? then
        Counted(page, state, handle, l[1..]) && factors == before && db.Committed() == old(db.Committed())
      else
        && factors == before[f := before[f].(factor := before[f].factor.(active := true))]
        && CodesGiven(page, state, handle, l[1..])
    }

    twostate predicate NothingChanged()
      reads this, enrolments.client, db
    {
      && factors == old(factors) && enrolments.client.cells == old(enrolments.client.cells)
      && db.Committed() == old(db.Committed())
    }

    /** The post has a handle, and the state stored under it can be read and is for this request. */
    ghost predicate Readable(pending: Id, handle: string, l: Luck)
      reads this, enrolments.client
    {
      && |handle| == 43 && config.enrols && l.ok
      && Live(enrolments.client.cells, enrolments.Key(handle), enrolments.client.now)
      && var v := enrolments.client.cells[enrolments.Key(handle)].value;
         v.Doc? && v.doc.user != "" && v.doc.org != "" && v.doc.factor != "" && v.doc.pending == pending
    }

    /** What a state for this request allows: to finish once confirmed, and to be confirmed while codes are left. */
    twostate predicate Acted(page: Page, state: EnrolState, handle: string, form: Form, l: seq<Luck>)
      requires |l| >= 5
      reads this, enrolments.client, db
    {
      match form
      case Continue =>
        if state.confirmed then factors == old(factors) && Completed(page, state, handle, l)
        else page == Gone && NothingChanged()
      case Code =>
        if state.confirmed || state.attempts >= 5 then page == Gone && NothingChanged()
        else Judged(page, state, handle, l)
    }

    /** Issue the session, then spend the handle; a failed delete is ignored. */
    method Complete(pending: Id, state: EnrolState, handle: string, lucks: seq<Luck>, ghost log: seq<Fact>)
      returns (page: Page)
      requires |lucks| >= 3
      modifies enrolments.client`cells, db
      ensures
        var q := Request(pending, LoadUser(WhoOf(state), ByEnrolment(state.factor, enrolments.Key(handle))));
        Holds(Alone(old(World(q, log)), 0, lucks))
      ensures Completed(page, state, handle, lucks)
    {
      ghost var q := Request(pending, LoadUser(WhoOf(state), ByEnrolment(state.factor, enrolments.Key(handle))));
      ghost var s0 := World(q, log);
      OneThenTheRest(s0, lucks);
      LoadingLeavesTheStores(s0, q, lucks[0]);
      if !lucks[0].ok {
        return ServerError;
      }
      ghost var s1 := AdvanceRequest(s0, 0, lucks[0]);
      OneThenTheRest(s1, lucks[1..]);
      IssuingTouchesTheDatabase(s1, s1.requests[0], lucks[1]);
      var ok := db.Issue(lucks[1].cookie, lucks[1].id, WhoOf(state), lucks[1].faults);
      if !ok {
        return ServerError;
      }
      ghost var s2 := AdvanceRequest(s1, 0, lucks[1]);
      OneThenTheRest(s2, lucks[2..]);
      SpendingTouchesTheHandle(s2, s2.requests[0], lucks[2]);
      var _ := enrolments.Delete(handle, lucks[2].fate);
      return SignedInPage;
    }

    method Submit(pending: Id, handle: string, form: Form, lucks: seq<Luck>) returns (page: Page)
      requires |lucks| >= LONGEST
      modifies this, enrolments.client`cells, db
      ensures |handle| == HANDLE_LENGTH ==>
        Holds(Alone(old(World(Request(pending, ReadEnrolment(enrolments.Key(handle), form)), [])), 0, lucks))
      ensures
        if old(Readable(pending, handle, lucks[0]))
        then Acted(page, old(enrolments.client.cells)[enrolments.Key(handle)].value.doc, handle, form, lucks[1..])
        else page == Gone && NothingChanged()
    {
      if |handle| != HANDLE_LENGTH {
        return Gone;
      }
      if !config.enrols {
        ghost var q := Request(pending, ReadEnrolment(enrolments.Key(handle), form));
        OneThenTheRest(World(q, []), lucks);
        ReadingLeavesTheStores(World(q, []), q, lucks[0]);
        return Gone;
      }
      ghost var q := Request(pending, ReadEnrolment(enrolments.Key(handle), form));
      ghost var s0 := World(q, []);
      OneThenTheRest(s0, lucks);
      ReadingLeavesTheStores(s0, q, lucks[0]);
      var got := enrolments.Get(handle, lucks[0].ok);
      if got.Failure? || got.value.pending != pending {
        return Gone;
      }
      page := Act(pending, got.value, handle, form, lucks[1..]);
    }

    /** What a state for this request allows: finish, prove the factor, or start again. */
    method Act(pending: Id, state: EnrolState, handle: string, form: Form, lucks: seq<Luck>) returns (page: Page)
      requires |lucks| >= 5 && state.pending == pending
      modifies this, enrolments.client`cells, db
      ensures
        var pc := Judge(enrolments.Key(handle), form, state, pending);
        Holds(Alone(old(World(Request(pending, pc), [])), 0, lucks))
      ensures Acted(page, state, handle, form, lucks)
    {
      ghost var s0 := World(Request(pending, Done), []);
      DoneIsStill(s0, 0, lucks);
      if form.Continue? {
        if !state.confirmed {
          return Gone;
        }
        page := Complete(pending, state, handle, lucks, []);
        return;
      }
      if state.confirmed || state.attempts >= MAX_ATTEMPTS {
        return Gone;
      }
      page := Prove(pending, state, handle, lucks);
    }

    /** Check the code; count a wrong one; on a right one give recovery codes or finish. */
    method Prove(pending: Id, state: EnrolState, handle: string, lucks: seq<Luck>) returns (page: Page)
      requires |lucks| >= 5
      modifies this, enrolments.client`cells, db
      ensures Holds(Alone(old(World(Request(pending, Confirm(enrolments.Key(handle), state)), [])), 0, lucks))
      ensures Judged(page, state, handle, lucks)
    {
      var confirmable := state.factor in factors && !factors[state.factor].factor.active;
      if confirmable && lucks[0].verdict.Right? {
        page := Activate(pending, state, handle, lucks);
      } else {
        page := Refuse(pending, state, handle, lucks);
      }
    }

    /** A wrong code is counted; a factor that is not pending, or no verdict, is an error. */
    method Refuse(pending: Id, state: EnrolState, handle: string, lucks: seq<Luck>) returns (page: Page)
      requires |lucks| >= 5
      requires !(state.factor in factors && !factors[state.factor].factor.active && lucks[0].verdict.Right?)
      modifies enrolments.client`cells
      ensures Holds(Alone(old(World(Request(pending, Confirm(enrolments.Key(handle), state)), [])), 0, lucks))
      ensures Judged(page, state, handle, lucks)
    {
      if state.factor in factors && !factors[state.factor].factor.active && lucks[0].verdict.Wrong? {
        page := MeetWrongCode(pending, state, handle, lucks);
      } else {
        ghost var q := Request(pending, Confirm(enrolments.Key(handle), state));
        OneThenTheRest(World(q, []), lucks);
        NoVerdictEnds(World(q, []), q, lucks[0]);
        page := ServerError;
      }
    }

    method MeetWrongCode(pending: Id, state: EnrolState, handle: string, lucks: seq<Luck>) returns (page: Page)
      requires |lucks| >= 3 && lucks[0].verdict.Wrong?
      requires state.factor in factors && !factors[state.factor].factor.active
      modifies enrolments.client`cells
      ensures Holds(Alone(old(World(Request(pending, Confirm(enrolments.Key(handle), state)), [])), 0, lucks))
      ensures Counted(page, state, handle, lucks[1..])
    {
      ghost var q := Request(pending, Confirm(enrolments.Key(handle), state));
      ghost var s0 := World(q, []);
      OneThenTheRest(s0, lucks);
      WrongCodeGoesOnToCount(s0, q, lucks[0]);
      ghost var s1 := AdvanceRequest(s0, 0, lucks[0]);
      assert s1 == World(s1.requests[0], s1.log);
      page := CountWrongCode(pending, state, handle, lucks[1..], s1.log);
    }

    method Activate(pending: Id, state: EnrolState, handle: string, lucks: seq<Luck>) returns (page: Page)
      requires |lucks| >= 5 && lucks[0].verdict.Right?
      requires state.factor in factors && !factors[state.factor].factor.active
      modifies this, enrolments.client`cells, db
      ensures Holds(Alone(old(World(Request(pending, Confirm(enrolments.Key(handle), state)), [])), 0, lucks))
      ensures Judged(page, state, handle, lucks)
    {
      ghost var q := Request(pending, Confirm(enrolments.Key(handle), state));
      ghost var s0 := World(q, []);
      OneThenTheRest(s0, lucks);
      ConfirmingActivates(s0, q, lucks[0]);
      var owned := factors[state.factor];
      factors := factors[state.factor := owned.(factor := owned.factor.(active := true))];
      ghost var s1 := AdvanceRequest(s0, 0, lucks[0]);
      assert s1 == World(s1.requests[0], s1.log);
      page := GiveCodes(pending, state, handle, lucks[1..], s1.log);
    }

    method GiveCodes(pending: Id, state: EnrolState, handle: string, lucks: seq<Luck>, ghost log: seq<Fact>)
      returns (page: Page)
      requires |lucks| >= 4
      modifies enrolments.client`cells, db
      ensures Holds(Alone(old(World(Request(pending, IssueCodes(enrolments.Key(handle), state)), log)), 0, lucks))
      ensures CodesGiven(page, state, handle, lucks)
    {
      ghost var q := Request(pending, IssueCodes(enrolments.Key(handle), state));
      ghost var s0 := World(q, log);
      OneThenTheRest(s0, lucks);
      CodesLeaveTheStores(s0, q, lucks[0]);
      match lucks[0].codes
      case CodesFailed =>
        return ServerError;
      case NoneDue =>
        page := Complete(pending, state, handle, lucks[1..], log);
      case Issued =>
        OneThenTheRest(AdvanceRequest(s0, 0, lucks[0]), lucks[1..]);
        var ok := enrolments.Replace(handle, state.(confirmed := true), lucks[1].fate);
        return if ok then CodesPage else ServerError;
    }

    /** Write the attempt down without moving the expiry, and drop the handle after the last one. */
    method CountWrongCode(pending: Id, state: EnrolState, handle: string, lucks: seq<Luck>, ghost log: seq<Fact>)
      returns (page: Page)
      requires |lucks| >= 2
      modifies enrolments.client`cells
      ensures
        var counted := state.(attempts := state.attempts + 1);
        Holds(Alone(old(World(Request(pending, Count(enrolments.Key(handle), counted)), log)), 0, lucks))
      ensures Counted(page, state, handle, lucks)
    {
      var counted := state.(attempts := state.attempts + 1);
      ghost var s0 := World(Request(pending, Count(enrolments.Key(handle), counted)), log);
      OneThenTheRest(s0, lucks);
      var _ := enrolments.Replace(handle, counted, lucks[0].fate);
      if counted.attempts >= MAX_ATTEMPTS {
        OneThenTheRest(AdvanceRequest(s0, 0, lucks[0]), lucks[1..]);
        var _ := enrolments.Delete(handle, lucks[1].fate);
        return Gone;
      }
      return WrongCodePage;
    }
  }
}
