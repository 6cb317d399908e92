/**
 Creating a session and recording that it was created, in one transaction.  The three ways of signing in
 all end here.
*/
module Sessions {
  import opened RedisStore
  import opened Wrappers

  type Id = string

  datatype Who = Who(user: Id, org: Id)

  datatype Session = Session(who: Who, revoked: bool)

  datatype Event = LoginSucceeded(session: Id, who: Who) | OtherEvent(name: string)

  /** The sessions table and the audit log, as one committed state. */
  datatype Db = Db(sessions: map<Id, Session>, audit: seq<Event>)

  /** Which step of the transaction fails, if one does, and how the commit ends. */
  datatype Faults = Faults(begins: bool, revokes: bool, creates: bool, audits: bool, commit: Fate)

  predicate BodySucceeds(db: Db, previous: Option<Id>, id: Id, f: Faults) {
    && f.begins && (previous.Some? ==> f.revokes) && f.creates && id !in db.sessions && f.audits
  }

  /** The session this browser had, if it belongs to the same user and is still live. */
  function Replaced(db: Db, cookie: Option<Id>, who: Who): Option<Id> {
    if cookie.Some? && cookie.value in db.sessions && !db.sessions[cookie.value].revoked &&
       db.sessions[cookie.value].who.user == who.user
    then cookie else None
  }

  function Revoked(sessions: map<Id, Session>, id: Id): map<Id, Session> {
    if id in sessions then sessions[id := sessions[id].(revoked := true)] else sessions
  }

  /** The committed state when the whole transaction goes through. */
  function Issued(db: Db, previous: Option<Id>, id: Id, who: Who): Db {
    var sessions := if previous.Some? then Revoked(db.sessions, previous.value) else db.sessions;
    Db(sessions[id := Session(who, false)], db.audit + [LoginSucceeded(id, who)])
  }

  /** The browser's session is live and belongs to the user who is signing in. */
  predicate IsMine(sessions: map<Id, Session>, cookie: Option<Id>, who: Who) {
    && cookie.Some? && cookie.value in sessions
    && !sessions[cookie.value].revoked && sessions[cookie.value].who.user == who.user
  }

  /** The transaction goes through, and whoever asked for it hears so. */
  predicate GoesThrough(db: Db, cookie: Option<Id>, id: Id, who: Who, f: Faults) {
    && f.begins && f.creates && f.audits && f.commit == Acknowledged
    && (IsMine(db.sessions, cookie, who) ==> f.revokes) && id !in db.sessions
  }

  /**
   What a sign-in that takes effect leaves: one new live session and its event; the session this browser had is
   revoked if it was the user's own, and every other session is exactly as it was.
  */
  predicate TookEffect(before: Db, after: Db, cookie: Option<Id>, id: Id, who: Who) {
    && id !in before.sessions && after.sessions.Keys == before.sessions.Keys + {id}
    && after.sessions[id] == Session(who, false)
    && (forall s :: s in before.sessions ==>
          after.sessions[s] ==
            if cookie == Some(s) && IsMine(before.sessions, cookie, who) then Session(before.sessions[s].who, true)
            else before.sessions[s])
    && after.audit == before.audit + [LoginSucceeded(id, who)]
  }

  class Database {
    var sessions: map<Id, Session>
    var audit: seq<Event>

    ghost function Committed(): Db
      reads this
    {
      Db(sessions, audit)
    }

    /** `id` is the new session's.  A failed step rolls back everything the transaction did. */
    method Issue(cookie: Option<Id>, id: Id, who: Who, f: Faults) returns (ok: bool)
      modifies this
      ensures
        var previous := Replaced(old(Committed()), cookie, who);
        var body := BodySucceeds(old(Committed()), previous, id, f);
        && ok == (body && f.commit.Acknowledged?)
        && Committed() == if body && Applied(f.commit) then Issued(old(Committed()), previous, id, who)
                          else old(Committed())
      ensures
        var took := f.begins && f.creates && f.audits && (IsMine(old(sessions), cookie, who) ==> f.revokes) &&
                    id !in old(sessions) && f.commit != FailedLost;
        && ok == (took && f.commit == Acknowledged)
        && (if took then TookEffect(old(Committed()), Committed(), cookie, id, who)
            else Committed() == old(Committed()))
    {
      if !f.begins {
        return false;
      }
      var sessionsBefore, auditBefore := sessions, audit;
      var previous := Replaced(Db(sessions, audit), cookie, who);
      if previous.Some? {
        if !f.revokes {
          return false;
        }
        sessions := Revoked(sessions, previous.value);
      }
      if !f.creates || id in sessions {
        sessions := sessionsBefore;
        return false;
      }
      sessions := sessions[id := Session(who, false)];
      if !f.audits {
        sessions := sessionsBefore;
        return false;
      }
      audit := audit + [LoginSucceeded(id, who)];
      if !Applied(f.commit) {
        sessions, audit := sessionsBefore, auditBefore;
      }
      ok := f.commit.Acknowledged?;
    }
  }

  // Sessions and login-success events, one to one.

  predicate Records(db: Db, i: int, id: Id) {
    0 <= i < |db.audit| && db.audit[i].LoginSucceeded? && db.audit[i].session == id
  }

  /** Every session has exactly one event, which names its user, and every event has its session. */
  predicate OneToOne(db: Db) {
    && (forall id :: id in db.sessions ==> exists i :: 0 <= i < |db.audit| && Records(db, i, id))
    && (forall i, j :: 0 <= i < j < |db.audit| && db.audit[i].LoginSucceeded? && db.audit[j].LoginSucceeded? ==>
          db.audit[i].session != db.audit[j].session)
    && (forall i :: 0 <= i < |db.audit| && db.audit[i].LoginSucceeded? ==>
          db.audit[i].session in db.sessions && db.sessions[db.audit[i].session].who == db.audit[i].who)
  }

  datatype Change =
    | SignIn(cookie: Option<Id>, id: Id, who: Who, faults: Faults)
    | SignOut(id: Id)
    | Audit(name: string)

  function AfterChange(db: Db, c: Change): Db {
    match c
    case SignIn(cookie, id, who, f) =>
      var previous := Replaced(db, cookie, who);
      if BodySucceeds(db, previous, id, f) && Applied(f.commit) then Issued(db, previous, id, who) else db
    case SignOut(id) => db.(sessions := Revoked(db.sessions, id))
    case Audit(name) => db.(audit := db.audit + [OtherEvent(name)])
  }

  function AfterChanges(db: Db, changes: seq<Change>): Db
    decreases |changes|
  {
    if changes == [] then db else AfterChanges(AfterChange(db, changes[0]), changes[1..])
  }

  lemma IssuedStaysOneToOne(db: Db, previous: Option<Id>, id: Id, who: Who)
    requires OneToOne(db) && id !in db.sessions && (previous.Some? ==> previous.value in db.sessions)
    ensures OneToOne(Issued(db, previous, id, who))
  {
    var db' := Issued(db, previous, id, who);
    forall s | s in db'.sessions ensures exists i :: 0 <= i < |db'.audit| && Records(db', i, s) {
      if s == id {
        assert Records(db', |db.audit|, s);
      } else {
        var i :| 0 <= i < |db.audit| && Records(db, i, s);
        assert Records(db', i, s);
      }
    }
  }

  lemma SignOutStaysOneToOne(db: Db, id: Id)
    requires OneToOne(db)
    ensures OneToOne(db.(sessions := Revoked(db.sessions, id)))
  {
    var db' := db.(sessions := Revoked(db.sessions, id));
    forall s | s in db'.sessions ensures exists i :: 0 <= i < |db'.audit| && Records(db', i, s) {
      var i :| 0 <= i < |db.audit| && Records(db, i, s);
      assert Records(db', i, s);
    }
  }

  lemma AuditStaysOneToOne(db: Db, name: string)
    requires OneToOne(db)
    ensures OneToOne(db.(audit := db.audit + [OtherEvent(name)]))
  {
    var db' := db.(audit := db.audit + [OtherEvent(name)]);
    forall s | s in db'.sessions ensures exists i :: 0 <= i < |db'.audit| && Records(db', i, s) {
      var i :| 0 <= i < |db.audit| && Records(db, i, s);
      assert Records(db', i, s);
    }
  }

  lemma ChangeStaysOneToOne(db: Db, c: Change)
    requires OneToOne(db)
    ensures OneToOne(AfterChange(db, c))
  {
    match c
    case SignIn(cookie, id, who, f) =>
      var previous := Replaced(db, cookie, who);
      if BodySucceeds(db, previous, id, f) {
        IssuedStaysOneToOne(db, previous, id, who);
      }
    case SignOut(id) => SignOutStaysOneToOne(db, id);
    case Audit(name) => AuditStaysOneToOne(db, name);
  }

  /** The same, of every change: what a sign-in needs and leaves, and that signing out revokes one session. */
  lemma ChangesOneByOne(db: Db, c: Change)
    ensures c.SignIn? ==>
      var f := c.faults;
      if f.begins && f.creates && f.audits && (IsMine(db.sessions, c.cookie, c.who) ==> f.revokes) &&
         c.id !in db.sessions && f.commit != FailedLost
      then TookEffect(db, AfterChange(db, c), c.cookie, c.id, c.who) else AfterChange(db, c) == db
    ensures c.SignOut? ==>
      var after := AfterChange(db, c);
      && after.audit == db.audit && after.sessions.Keys == db.sessions.Keys
      && (forall s :: s in db.sessions ==>
            after.sessions[s] == if s == c.id then Session(db.sessions[s].who, true) else db.sessions[s])
    ensures c.Audit? ==> AfterChange(db, c) == Db(db.sessions, db.audit + [OtherEvent(c.name)])
  {
  }

  /** A revoked session stays revoked, whoever signs in or out afterwards. */
  lemma {:induction false} RevokedForGood(db: Db, changes: seq<Change>, id: Id)
    requires id in db.sessions && db.sessions[id].revoked
    ensures id in AfterChanges(db, changes).sessions && AfterChanges(db, changes).sessions[id].revoked
    decreases |changes|
  {
    if changes != [] {
      ChangesOneByOne(db, changes[0]);
      RevokedForGood(AfterChange(db, changes[0]), changes[1..], id);
    }
  }

  // One browser.

  datatype Attempt = Attempt(id: Id, faults: Faults)

  /** The attempt's transaction takes effect. */
  predicate Commits(db: Db, cookie: Option<Id>, who: Who, a: Attempt) {
    BodySucceeds(db, Replaced(db, cookie, who), a.id, a.faults) && Applied(a.faults.commit)
  }

  /** The browser is told of its session only by an answer. */
  function Cookie(db: Db, cookie: Option<Id>, who: Who, a: Attempt): Option<Id> {
    if Commits(db, cookie, who, a) && a.faults.commit == Acknowledged then Some(a.id) else cookie
  }

  function Signed(db: Db, cookie: Option<Id>, who: Who, a: Attempt): Db {
    AfterChange(db, SignIn(cookie, a.id, who, a.faults))
  }

  /** One user signing in again and again from one browser. */
  function Browse(db: Db, cookie: Option<Id>, who: Who, attempts: seq<Attempt>): (Db, Option<Id>)
    decreases |attempts|
  {
    if attempts == [] then (db, cookie)
    else Browse(Signed(db, cookie, who, attempts[0]), Cookie(db, cookie, who, attempts[0]), who, attempts[1..])
  }

  /** Some transaction takes effect without the browser hearing of it, under an id it does not hold by chance. */
  predicate Unheard(db: Db, cookie: Option<Id>, who: Who, attempts: seq<Attempt>)
    decreases |attempts|
  {
    attempts != [] &&
    (|| (&& Commits(db, cookie, who, attempts[0]) && attempts[0].faults.commit == FailedApplied
         && cookie != Some(attempts[0].id))
     || Unheard(Signed(db, cookie, who, attempts[0]), Cookie(db, cookie, who, attempts[0]), who, attempts[1..]))
  }

  /** Every live session but those in `start` is the one the cookie names. */
  predicate OnlyTheCookies(start: Db, db: Db, cookie: Option<Id>) {
    forall s :: s in db.sessions && s !in start.sessions && !db.sessions[s].revoked ==> cookie == Some(s)
  }

  predicate Orphan(start: Db, db: Db, cookie: Option<Id>, s: Id) {
    s in db.sessions && s !in start.sessions && !db.sessions[s].revoked && cookie != Some(s)
  }

  /** A live session the browser does not hold is found by none of its sign-ins. */
  lemma {:induction false} OrphanStays(
    start: Db, db: Db, cookie: Option<Id>, who: Who, attempts: seq<Attempt>, s: Id)
    requires Orphan(start, db, cookie, s)
    ensures
      var (db', cookie') := Browse(db, cookie, who, attempts);
      Orphan(start, db', cookie', s)
    decreases |attempts|
  {
    if attempts != [] {
      var a := attempts[0];
      ChangesOneByOne(db, SignIn(cookie, a.id, who, a.faults));
      OrphanStays(start, Signed(db, cookie, who, a), Cookie(db, cookie, who, a), who, attempts[1..], s);
    }
  }

  /** The sessions made in this browser are this user's, so the one it holds is found and replaced. */
  predicate Own(start: Db, db: Db, cookie: Option<Id>, who: Who) {
    && (forall s :: s in start.sessions ==> s in db.sessions)
    && (forall s :: s in db.sessions && s !in start.sessions ==> db.sessions[s].who == who)
  }

  /**
   However often a user signs in from one browser, and whatever fails, at most one of the sessions made there is
   live and the browser holds it: exactly when no commit takes effect unheard.
  */
  lemma {:induction false} OneLiveSessionABrowserIff(
    start: Db, db: Db, cookie: Option<Id>, who: Who, attempts: seq<Attempt>)
    requires Own(start, db, cookie, who) && OnlyTheCookies(start, db, cookie)
    ensures
      var (db', cookie') := Browse(db, cookie, who, attempts);
      OnlyTheCookies(start, db', cookie') <==> !Unheard(db, cookie, who, attempts)
    decreases |attempts|
  {
    if attempts != [] {
      var a := attempts[0];
      ChangesOneByOne(db, SignIn(cookie, a.id, who, a.faults));
      var db1, cookie1 := Signed(db, cookie, who, a), Cookie(db, cookie, who, a);
      if Commits(db, cookie, who, a) && a.faults.commit == FailedApplied && cookie != Some(a.id) {
        assert Orphan(start, db1, cookie1, a.id);
        OrphanStays(start, db1, cookie1, who, attempts[1..], a.id);
      } else {
        OneLiveSessionABrowserIff(start, db1, cookie1, who, attempts[1..]);
      }
    }
  }

  /** Whatever fails, and whatever else is signed out or audited, sessions and events stay one to one. */
  lemma {:induction false} SessionsAndAuditAgree(db: Db, changes: seq<Change>)
    requires OneToOne(db)
    ensures OneToOne(AfterChanges(db, changes))
    decreases |changes|
  {
    if changes != [] {
      ChangeStaysOneToOne(db, changes[0]);
      SessionsAndAuditAgree(AfterChange(db, changes[0]), changes[1..]);
    }
  }
}
