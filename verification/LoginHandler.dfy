/**
 The password step and the challenge step as the handler runs them, over the stores it holds.  As with the
 enrolment post, what each leaves behind is what its request leaves in the step system, advanced alone.
*/
module LoginHandler {
  import opened EnrolHandler
  import opened EnrolPosts
  import opened EnrolStore
  import opened Factors
  import opened LoginPolicy
  import opened LoginProtocol
  import opened RedisStore
  import opened Sessions
  import opened Wrappers
  import Base64
  import PasswordHash
  import UserStore

  datatype Answered = Refused | Failed | FactorAwaited | EnrolmentShown | SessionGiven

  /** One operation of the only request there is. */
  lemma OnlyRequest(s: State, q: Request, l: Luck)
    requires s.requests == map[0 := q]
    ensures
      var s' := AdvanceRequest(s, 0, l);
      && s'.requests == map[0 := q.(pc := Next(s, q, l))]
      && s'.now == s.now && s'.config == s.config
  {
  }

  /** What was typed, and what the password step meets with. */
  datatype Attempt = Attempt(
    kdf: PasswordHash.Kdf, address: string, password: Base64.Bytes, org: Id, current: PasswordHash.Params,
    admits: UserStore.User -> bool, salt: Option<Base64.Bytes>, now: int, up: bool, stores: bool)

  /** The typed password opens the stored hash of an active, admitted user at that address. */
  predicate Verified(p: Attempt, rows: UserStore.Rows, user: Id) {
    && p.up && 0 < |p.address| <= 320 && user in rows
    && rows[user].address == p.address && rows[user].active && p.admits(rows[user])
    && UserStore.Matches(p.kdf, rows[user].hash, p.password)
  }

  /** A right password may bring the row a new hash, whatever else becomes of the sign-in. */
  function AfterPassword(p: Attempt, rows: UserStore.Rows, verified: Luck): UserStore.Rows
    requires p.salt.Some? ==> |p.salt.value| == p.current.saltLength
  {
    var user := verified.who.user;
    if verified.ok && user in rows
    then
      var row := UserStore.AfterSignIn(p.kdf, rows[user], p.password, p.current, p.salt, p.now, p.stores);
      rows[user := row]
    else rows
  }

  // What decides the password step, spelled out.

  /** The build has something to challenge with. */
  predicate Challenges(c: Config) {
    c.framework.Some? && (c.framework.value.codes != {} || c.framework.value.passkeys)
  }

  /** The user has a confirmed factor of a kind this build verifies. */
  predicate HasFactor(c: Config, factors: map<Id, Owned>, who: Who) {
    && c.framework.Some?
    && exists f :: f in factors && factors[f].who == who && factors[f].factor.active &&
         (if factors[f].factor.kind == "webauthn" then c.framework.value.passkeys
          else factors[f].factor.kind in c.framework.value.codes)
  }

  /** The clock counts milliseconds, the policy nanoseconds. */
  predicate Forced(c: Config, policy: Policy, now: nat) {
    c.enrols && GraceIsOver(policy, now * 1_000_000)
  }

  /** A pending factor is stored, and the state that names it. */
  predicate Enrols(begin: Luck, store: Luck, factors: map<Id, Owned>, cells: Cells<EnrolState>, now: nat) {
    begin.ok && begin.id !in factors && store.fate == Acknowledged && !Live(cells, store.id, now)
  }

  predicate Stores(l: Luck, cells: Cells<Challenge>, now: nat) {
    l.fate == Acknowledged && !Live(cells, l.id, now)
  }

  /** Asking the list a user's factors were read into is asking the table. */
  lemma ListedFactors(factors: map<Id, Owned>, fw: Framework, who: Who, list: seq<Factor>)
    requires forall f :: f in list <==> exists id :: id in factors && factors[id].who == who && factors[id].factor == f
    ensures HoldsAnswerable(fw, list) <==>
      exists id :: id in factors && factors[id].who == who && Answerable(fw, factors[id].factor)
  {
    if HoldsAnswerable(fw, list) {
      var i :| 0 <= i < |list| && Answerable(fw, list[i]);
      assert list[i] in list;
    }
    if id :| id in factors && factors[id].who == who && Answerable(fw, factors[id].factor) {
      assert factors[id].factor in list;
    }
  }

  lemma AskedIsHasFactor(s: State, who: Who)
    ensures FactorAsked(s, who) <==> HasFactor(s.config, s.factors, who)
    ensures CanAsk(s) <==> Challenges(s.config)
    ensures FactorAsked(s, who) ==> CanAsk(s)
  {
    if HasFactor(s.config, s.factors, who) {
      var fw := s.config.framework.value;
      var f :| f in s.factors && s.factors[f].who == who && s.factors[f].factor.active &&
        (if s.factors[f].factor.kind == "webauthn" then fw.passkeys else s.factors[f].factor.kind in fw.codes);
      assert Answerable(fw, s.factors[f].factor);
    }
  }

  class SignIn {
    const config: Config
    const challenges: Redis<Challenge>
    const enrolments: Enrolments
    const db: Database
    var factors: map<Id, Owned>

    constructor (config: Config, challenges: Redis<Challenge>, enrolments: Enrolments, db: Database)
      ensures this.config == config && this.challenges == challenges && this.enrolments == enrolments && this.db == db
      ensures factors == map[]
    {
      this.config, this.challenges, this.enrolments, this.db := config, challenges, enrolments, db;
      factors := map[];
    }

    /** Both stores are one Redis, with one clock. */
    ghost predicate OneClock()
      reads challenges, enrolments.client
    {
      challenges.now == enrolments.client.now
    }

    ghost function World(q: Request, log: seq<Fact>): State
      reads this, challenges, enrolments.client, db
    {
      State(enrolments.client.now, config, factors, challenges.cells, enrolments.client.cells, map[0 := q],
            db.Committed(), log)
    }

    ghost predicate Holds(s: State)
      reads this, challenges, enrolments.client, db
    {
      && s.now == enrolments.client.now && s.factors == factors && s.challenges == challenges.cells
      && s.enrolments == enrolments.client.cells && s.db == db.Committed()
    }

    /** A user's factors, as the framework reads them. */
    method FactorsOf(who: Who) returns (list: seq<Factor>)
      ensures forall f :: f in list <==> exists id :: id in factors && factors[id].who == who && factors[id].factor == f
    {
      list := [];
      var todo := factors.Keys;
      while todo != {}
        invariant todo <= factors.Keys
        invariant forall f :: f in list <==>
          exists id :: id in factors && id !in todo && factors[id].who == who && factors[id].factor == f
        decreases |todo|
      {
        var id :| id in todo;
        todo := todo - {id};
        if factors[id].who == who {
          list := list + [factors[id].factor];
        }
      }
    }

    /** The policy first, then the password; `l` supplies the parts of the luck that say nothing about either. */
    method CheckPassword(p: Attempt, users: UserStore.Table, policy: Option<Policy>, l: Luck) returns (verified: Luck)
      requires UserStore.AddressesAreUnique(users.rows) && (p.salt.Some? ==> |p.salt.value| == p.current.saltLength)
      modifies users
      ensures verified.ok <==>
        && policy.Some? && policy.value.allowsPassword
        && exists u :: u in old(users.rows) && Verified(p, old(users.rows), u)
      ensures verified.ok ==>
        policy == Some(verified.policy) && verified.who.org == p.org && Verified(p, old(users.rows), verified.who.user)
      ensures users.rows == AfterPassword(p, old(users.rows), verified)
    {
      verified := l.(ok := false);
      if policy.Some? && policy.value.allowsPassword {
        var user := users.SignIn(p.kdf, p.address, p.password, p.current, p.admits, p.salt, p.now, p.up, p.stores);
        if user.Some? {
          verified := l.(ok := true, who := Who(user.value, p.org), policy := policy.value);
        }
      }
    }

    /**
     The password step.  `policy` is None when it cannot be read; `handle` is the one a forced enrolment would
     be stored under.  The luck of the verification is what the users table made of it: `verified` says that
     the stored hash matched on an active, admitted row.
    */
    method Authenticate(p: Attempt, users: UserStore.Table, policy: Option<Policy>, pending: Id, handle: string,
                        rest: seq<Luck>)
      returns (a: Answered, verified: Luck)
      requires OneClock() && |rest| >= 4 && rest[3].id == enrolments.Key(handle)
      requires UserStore.AddressesAreUnique(users.rows) && (p.salt.Some? ==> |p.salt.value| == p.current.saltLength)
      modifies this, challenges`cells, enrolments.client`cells, db, users
      ensures Holds(Alone(old(World(Request(pending, Verify), [])), 0, [verified] + rest))
      ensures a.Refused? <==>
        !(&& policy.Some? && policy.value.allowsPassword
          && exists u :: u in old(users.rows) && Verified(p, old(users.rows), u))
      ensures !a.Refused? ==>
        && policy == Some(verified.policy) && verified.who.org == p.org
        && Verified(p, old(users.rows), verified.who.user)
        && Decided(a, verified.who, verified.policy, pending, rest)
      ensures a.Refused? ==>
        && db.Committed() == old(db.Committed()) && factors == old(factors)
        && challenges.cells == old(challenges.cells) && enrolments.client.cells == old(enrolments.client.cells)
      ensures users.rows == AfterPassword(p, old(users.rows), verified)
    {
      verified := CheckPassword(p, users, policy, rest[0]);
      ghost var q := Request(pending, Verify);
      ghost var s0 := World(q, []);
      var l := [verified] + rest;
      OneThenTheRest(s0, l);
      OnlyRequest(s0, q, verified);
      if !verified.ok {
        return Refused, verified;
      }
      ghost var s1 := AdvanceRequest(s0, 0, verified);
      assert s1 == World(s1.requests[0], s1.log) && l[1..] == rest;
      a := DecideFactor(pending, verified.who, verified.policy, handle, rest, s1.log);
    }

    /** The framework's question; `up` says that the factors can be read and a challenge prepared. */
    method AskFramework(who: Who, up: bool) returns (r: Result<Decision, Undecided>)
      ensures r.Failure? <==> Challenges(config) && !up
      ensures r.Success? ==> (r.value.Challenge? <==> up && HasFactor(config, factors, who))
    {
      var list := FactorsOf(who);
      if config.framework.Some? {
        ListedFactors(factors, config.framework.value, who, list);
        HoldsAnswerableIff(config.framework.value, list);
      }
      r := Required(config.framework, if up then Some(list) else None, up, up, true, None);
    }

    /** What the mandate makes of a user without a factor, and nothing else besides. */
    twostate predicate Followed(a: Answered, who: Who, policy: Policy, pending: Id, l: seq<Luck>)
      requires |l| >= 3
      reads this, challenges, enrolments.client, db
    {
      && (if Forced(config, policy, enrolments.client.now)
          then a == if old(Enrols(l[1], l[2], factors, enrolments.client.cells, enrolments.client.now))
                    then EnrolmentShown else Failed
          else a == if Signs(l[1], old(db.Committed()), who) then SessionGiven else Failed)
      && (a.SessionGiven? ==>
            && TookEffect(old(db.Committed()), db.Committed(), l[1].cookie, l[1].id, who)
            && factors == old(factors) && enrolments.client.cells == old(enrolments.client.cells))
      && (a.EnrolmentShown? ==>
            && db.Committed() == old(db.Committed())
            && factors == old(factors)[l[1].id := Owned(who, Factor(l[1].id, "totp", false))]
            && enrolments.client.cells == old(enrolments.client.cells)[
                 l[2].id := Cell(Doc(EnrolState(who.user, who.org, pending, l[1].id, 0, false)),
                                 Some(enrolments.client.now + 900_000))])
    }

    /** What becomes of a sign-in whose password is right: a factor to prove, an enrolment, a session or an error. */
    twostate predicate Decided(a: Answered, who: Who, policy: Policy, pending: Id, l: seq<Luck>)
      requires |l| >= 4
      reads this, challenges, enrolments.client, db
    {
      if Challenges(config) && !l[0].ok then a == Failed && db.Committed() == old(db.Committed())
      else if HasFactor(config, old(factors), who) then
        && a == (if old(Stores(l[0], challenges.cells, challenges.now)) then FactorAwaited else Failed)
        && db.Committed() == old(db.Committed()) && factors == old(factors)
        && enrolments.client.cells == old(enrolments.client.cells)
        && (a.FactorAwaited? ==>
              challenges.cells ==
                old(challenges.cells)[l[0].id := Cell(Doc(Challenged(who, pending)), Some(challenges.now + 300_000))])
      else challenges.cells == old(challenges.cells) && Followed(a, who, policy, pending, l[1..])
    }

    /** With a factor to ask for, a challenge and nothing more; a failure to find out refuses. */
    method DecideFactor(pending: Id, who: Who, policy: Policy, handle: string, l: seq<Luck>, ghost log: seq<Fact>)
      returns (a: Answered)
      requires OneClock() && |l| >= 4 && l[3].id == enrolments.Key(handle)
      modifies this, challenges`cells, enrolments.client`cells, db
      ensures Holds(Alone(old(World(Request(pending, AskFactors(who, policy)), log)), 0, l))
      ensures Decided(a, who, policy, pending, l)
    {
      var decision := AskFramework(who, l[0].ok);
      if decision.Failure? || decision.value.Challenge? {
        a := StartChallenge(pending, who, policy, decision.Success?, l, log);
        return;
      }
      ghost var q := Request(pending, AskFactors(who, policy));
      ghost var s0 := World(q, log);
      AskedIsHasFactor(s0, who);
      OneThenTheRest(s0, l);
      OnlyRequest(s0, q, l[0]);
      ghost var s1 := AdvanceRequest(s0, 0, l[0]);
      assert s1 == World(s1.requests[0], s1.log);
      a := FollowMandate(pending, who, policy, handle, l[1..], s1.log);
    }

    method StartChallenge(pending: Id, who: Who, policy: Policy, up: bool, l: seq<Luck>, ghost log: seq<Fact>)
      returns (a: Answered)
      requires OneClock() && |l| >= 4 && up == l[0].ok
      requires if up then HasFactor(config, factors, who) else Challenges(config)
      modifies challenges`cells
      ensures Holds(Alone(old(World(Request(pending, AskFactors(who, policy)), log)), 0, l))
      ensures a == if up && old(Stores(l[0], challenges.cells, challenges.now)) then FactorAwaited else Failed
      ensures a.FactorAwaited? ==>
        challenges.cells ==
          old(challenges.cells)[l[0].id := Cell(Doc(Challenged(who, pending)), Some(challenges.now + 300_000))]
    {
      ghost var q := Request(pending, AskFactors(who, policy));
      ghost var s0 := World(q, log);
      AskedIsHasFactor(s0, who);
      OneThenTheRest(s0, l);
      OnlyRequest(s0, q, l[0]);
      if !up {
        return Failed;
      }
      var ok, wrote := challenges.SetNX(l[0].id, Challenged(who, pending), CHALLENGE_TTL, l[0].fate);
      return if ok && wrote then FactorAwaited else Failed;
    }

    /** No factor: the organization's mandate decides between an enrolment and a session. */
    method FollowMandate(pending: Id, who: Who, policy: Policy, handle: string, l: seq<Luck>, ghost log: seq<Fact>)
      returns (a: Answered)
      requires |l| >= 3 && l[2].id == enrolments.Key(handle)
      modifies this, enrolments.client`cells, db
      ensures Holds(Alone(old(World(Request(pending, AskMandate(who, policy)), log)), 0, l))
      ensures Followed(a, who, policy, pending, l)
    {
      ghost var q := Request(pending, AskMandate(who, policy));
      ghost var s0 := World(q, log);
      OneThenTheRest(s0, l);
      OnlyRequest(s0, q, l[0]);
      ghost var s1 := AdvanceRequest(s0, 0, l[0]);
      assert s1 == World(s1.requests[0], s1.log);
      ForcedFromTheEndOfTheGrace(policy, false, enrolments.client.now * 1_000_000);
      if MandateForces(policy, enrolments.client.now) && config.enrols {
        a := BeginEnrolment(pending, who, handle, l[1..], s1.log);
      } else {
        a := IssueSession(pending, who, ByPassword(policy, enrolments.client.now), l[1..], s1.log);
      }
    }

    /** A pending factor, then the state that names it. */
    method BeginEnrolment(pending: Id, who: Who, handle: string, l: seq<Luck>, ghost log: seq<Fact>)
      returns (a: Answered)
      requires |l| >= 2 && l[1].id == enrolments.Key(handle)
      modifies this, enrolments.client`cells
      ensures Holds(Alone(old(World(Request(pending, Begin(who)), log)), 0, l))
      ensures a == if old(Enrols(l[0], l[1], factors, enrolments.client.cells, enrolments.client.now))
                   then EnrolmentShown else Failed
      ensures a.EnrolmentShown? ==>
        && factors == old(factors)[l[0].id := Owned(who, Factor(l[0].id, "totp", false))]
        && enrolments.client.cells == old(enrolments.client.cells)[
             l[1].id := Cell(Doc(EnrolState(who.user, who.org, pending, l[0].id, 0, false)),
                             Some(enrolments.client.now + 900_000))]
    {
      ghost var q := Request(pending, Begin(who));
      ghost var s0 := World(q, log);
      OneThenTheRest(s0, l);
      OnlyRequest(s0, q, l[0]);
      if !l[0].ok || l[0].id in factors {
        return Failed;
      }
      factors := factors[l[0].id := Owned(who, Factor(l[0].id, TOTP, false))];
      ghost var s1 := AdvanceRequest(s0, 0, l[0]);
      assert s1 == World(s1.requests[0], s1.log);
      OneThenTheRest(s1, l[1..]);
      OnlyRequest(s1, s1.requests[0], l[1]);
      var ok := enrolments.Put(handle, EnrolState(who.user, who.org, pending, l[0].id, 0, false), l[1].fate);
      return if ok then EnrolmentShown else Failed;
    }

    method IssueSession(pending: Id, who: Who, via: Via, l: seq<Luck>, ghost log: seq<Fact>) returns (a: Answered)
      requires |l| >= 1 && !via.ByEnrolment?
      modifies db
      ensures Holds(Alone(old(World(Request(pending, Issue(who, via)), log)), 0, l))
      ensures a == if Signs(l[0], old(db.Committed()), who) then SessionGiven else Failed
      ensures a.SessionGiven? ==> TookEffect(old(db.Committed()), db.Committed(), l[0].cookie, l[0].id, who)
    {
      ghost var q := Request(pending, Issue(who, via));
      ghost var s0 := World(q, log);
      OneThenTheRest(s0, l);
      OnlyRequest(s0, q, l[0]);
      var ok := db.Issue(l[0].cookie, l[0].id, who, l[0].faults);
      return if ok then SessionGiven else Failed;
    }

    /** A right answer: the challenge is deleted, and a session made if the user loads and the transaction commits. */
    twostate predicate Finished(a: Answered, who: Who, key: string, l: seq<Luck>)
      requires |l| >= 3
      reads challenges, db
    {
      && a == (if l[1].ok && Signs(l[2], old(db.Committed()), who) then SessionGiven else Failed)
      && (a.SessionGiven? ==> TookEffect(old(db.Committed()), db.Committed(), l[2].cookie, l[2].id, who))
      && challenges.cells ==
           if l[0].fate == FailedLost then old(challenges.cells)
           else map k | k in old(challenges.cells) && k != key :: old(challenges.cells)[k]
    }

    /** The challenge step: the stored challenge says who, and for which request; the answer comes before anything. */
    method SubmitChallenge(pending: Id, key: string, l: seq<Luck>) returns (a: Answered)
      requires OneClock() && |l| >= 4
      modifies challenges`cells, db
      ensures Holds(Alone(old(World(Request(pending, ReadChallenge(key)), [])), 0, l))
      ensures
        var found := config.framework.Some? && l[0].ok && Live(old(challenges.cells), key, challenges.now) &&
                     var v := old(challenges.cells)[key].value; v.Doc? && v.doc.pending == pending;
        && (found && l[1].verdict.Right? ==>
              Finished(a, old(challenges.cells)[key].value.doc.who, key, l[1..]))
        && (!(found && l[1].verdict.Right?) ==>
              a == Refused && db.Committed() == old(db.Committed()) && challenges.cells == old(challenges.cells))
    {
      ghost var q := Request(pending, ReadChallenge(key));
      ghost var s0 := World(q, []);
      OneThenTheRest(s0, l);
      OnlyRequest(s0, q, l[0]);
      if config.framework.None? {
        return Refused;
      }
      var reply := challenges.Get(key, l[0].ok);
      if !reply.Found? || !reply.value.Doc? || reply.value.doc.pending != pending {
        return Refused;
      }
      ghost var s1 := AdvanceRequest(s0, 0, l[0]);
      assert s1 == World(s1.requests[0], s1.log);
      a := AnswerChallenge(pending, key, reply.value.doc.who, l[1..], s1.log);
    }

    /** Only a right answer goes on; it spends the challenge first, and a failure to delete it is ignored. */
    method AnswerChallenge(pending: Id, key: string, who: Who, l: seq<Luck>, ghost log: seq<Fact>) returns (a: Answered)
      requires |l| >= 3
      modifies challenges`cells, db
      ensures Holds(Alone(old(World(Request(pending, Answer(key, who)), log)), 0, l))
      ensures l[0].verdict.Right? ==> Finished(a, who, key, l)
      ensures !l[0].verdict.Right? ==>
        a == Refused && db.Committed() == old(db.Committed()) && challenges.cells == old(challenges.cells)
    {
      ghost var q := Request(pending, Answer(key, who));
      ghost var s0 := World(q, log);
      OneThenTheRest(s0, l);
      OnlyRequest(s0, q, l[0]);
      if !l[0].verdict.Right? {
        return Refused;
      }
      var _ := challenges.Del(key, l[0].fate);
      ghost var before := old(challenges.cells);
      assert (map k | k in before && k != key :: before[k]) == before - {key};
      ghost var s1 := AdvanceRequest(s0, 0, l[0]);
      assert s1 == World(s1.requests[0], s1.log);
      a := FinishChallenge(pending, who, l[1..], s1.log);
    }

    /** The user and the policy are read again before the session is made. */
    method FinishChallenge(pending: Id, who: Who, l: seq<Luck>, ghost log: seq<Fact>) returns (a: Answered)
      requires |l| >= 2
      modifies db
      ensures Holds(Alone(old(World(Request(pending, LoadUser(who, ByChallenge)), log)), 0, l))
      ensures a == if l[0].ok && Signs(l[1], old(db.Committed()), who) then SessionGiven else Failed
      ensures a.SessionGiven? ==> TookEffect(old(db.Committed()), db.Committed(), l[1].cookie, l[1].id, who)
    {
      ghost var q := Request(pending, LoadUser(who, ByChallenge));
      ghost var s0 := World(q, log);
      OneThenTheRest(s0, l);
      OnlyRequest(s0, q, l[0]);
      if !l[0].ok {
        return Failed;
      }
      ghost var s1 := AdvanceRequest(s0, 0, l[0]);
      assert s1 == World(s1.requests[0], s1.log);
      a := IssueSession(pending, who, ByChallenge, l[1..], s1.log);
    }
  }
}
