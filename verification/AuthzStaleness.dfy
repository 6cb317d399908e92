/** What a decision may have been made from, in every run of the protocol. */
module AuthzStaleness {
  import opened AuthzKeys
  import opened GrantSql
  import opened Decisions
  import opened AuthzHandler
  import opened AuthzProtocol

  predicate HasDecided(s: State, r: nat) {
    r in s.readers && s.readers[r].pc.Decided? && s.readers[r].keys.Some? && s.readers[r].definitions.Some?
  }

  /**
   How old an input may be when it is used at `at`: for a cached one the TTL and the time between the
   writing reader's snapshot and its SET, and for both the time since this reader got it.
  */
  function Age<T>(s: State, h: Held<T>, at: nat): int {
    (if h.cached then s.ttl + (h.origin.landedAt - h.origin.snapAt) else 0) + (at - h.gotAt)
  }

  /**
   Bounded staleness.  Whatever was lost, delayed, evicted or changed behind the service's back, each
   input of a decision is what the database said at one instant, and that instant is within its age.
  */
  lemma BoundedStaleness(s0: State, steps: seq<Step>, r: nat)
    requires Initial(s0) && r in Run(s0, steps).readers && Run(s0, steps).readers[r].pc.Decided?
    ensures
      var s := Run(s0, steps);
      HasDecided(s, r) &&
      var rd := s.readers[r];
      var k, d := rd.keys.value, rd.definitions.value;
      && rd.pc.decision == Decide(rd.request, Assemble(k.value.0, d.value))
      && InForce(s.db, k.origin.version, k.origin.snapAt)
      && k.value == GrantsAt(s.db[k.origin.version].db, rd.user, rd.project)
      && k.origin.snapAt <= rd.pc.at
      && rd.pc.at - k.origin.snapAt <=
           (if k.cached then s.ttl + (k.origin.landedAt - k.origin.snapAt) else 0) + (rd.pc.at - k.gotAt)
      && InForce(s.db, d.origin.version, d.origin.snapAt)
      && d.value == DefinitionsIn(s.db[d.origin.version].db, rd.project)
      && d.origin.snapAt <= rd.pc.at
      && rd.pc.at - d.origin.snapAt <=
           (if d.cached then s.ttl + (d.origin.landedAt - d.origin.snapAt) else 0) + (rd.pc.at - d.gotAt)
  {
    InitialInv(s0);
    RunKeepsInv(s0, steps);
    assert ValidReader(Run(s0, steps), Run(s0, steps).readers[r]);
  }

  /**
   A cached check answers as one without a cache would, once the database has stood still for the age
   of both inputs: version `v` had been in force for longer than either input can be old.
  */
  lemma CachedRefinesUncached(s0: State, steps: seq<Step>, r: nat, v: nat)
    requires Initial(s0) && r in Run(s0, steps).readers && Run(s0, steps).readers[r].pc.Decided?
    requires HasDecided(Run(s0, steps), r)
    requires
      var s := Run(s0, steps);
      var rd := s.readers[r];
      && InForce(s.db, v, rd.pc.at)
      && s.db[v].at < rd.pc.at - Age(s, rd.keys.value, rd.pc.at)
      && s.db[v].at < rd.pc.at - Age(s, rd.definitions.value, rd.pc.at)
      && (v + 1 < |s.db| ==> rd.pc.at < s.db[v + 1].at)
    ensures
      var s := Run(s0, steps);
      var rd := s.readers[r];
      var uncached := Uncached(s.db[v].db, rd.user, rd.project);
      rd.pc.decision == Decide(rd.request, Assemble(uncached.keys, uncached.definitions))
  {
    BoundedStaleness(s0, steps, r);
    RunKeepsInvFromInitial(s0, steps);
    var s := Run(s0, steps);
    var rd := s.readers[r];
    OnlyOneInForce(s, v, rd.pc.at, rd.keys.value.origin.version, rd.keys.value.origin.snapAt);
    OnlyOneInForce(s, v, rd.pc.at, rd.definitions.value.origin.version, rd.definitions.value.origin.snapAt);
  }

  lemma RunKeepsInvFromInitial(s0: State, steps: seq<Step>)
    requires Initial(s0)
    ensures Inv(Run(s0, steps))
  {
    InitialInv(s0);
    RunKeepsInv(s0, steps);
  }

  lemma LaterIsLater(s: State, i: nat, j: nat)
    requires ValidDb(s)
    ensures i < j < |s.db| ==> s.db[i + 1].at <= s.db[j].at
  {
  }

  lemma OnlyOneInForce(s: State, v: nat, at: nat, i: nat, t: nat)
    requires ValidDb(s) && InForce(s.db, v, at) && InForce(s.db, i, t)
    requires s.db[v].at < t <= at && (v + 1 < |s.db| ==> at < s.db[v + 1].at)
    ensures i == v
  {
    LaterIsLater(s, i, v);
    LaterIsLater(s, v, i);
  }

  /**
   Every allow has a witness: the role it names was conferred by the user's row in one snapshot, by an
   active grant that delegates it when the row is delegated, and carried the permission in the roles
   used.  Nothing Redis did can allow what no snapshot allowed; and a deny means there was no such role.
  */
  lemma EveryAllowHasAWitness(s0: State, steps: seq<Step>, r: nat)
    requires Initial(s0) && r in Run(s0, steps).readers && Run(s0, steps).readers[r].pc.Decided?
    ensures
      var s := Run(s0, steps);
      HasDecided(s, r) &&
      var rd := s.readers[r];
      var held, roles := rd.keys.value.origin.version, rd.definitions.value.origin.version;
      && held < |s.db| && roles < |s.db|
      && (rd.pc.decision.allowed ==>
            Witness(s.db[held].db, s.db[roles].db, rd, rd.pc.decision.matchedPolicy))
      && (!rd.pc.decision.allowed ==> forall k :: !Witness(s.db[held].db, s.db[roles].db, rd, k))
  {
    BoundedStaleness(s0, steps, r);
    var s := Run(s0, steps);
    var rd := s.readers[r];
    var k, d := rd.keys.value, rd.definitions.value;
    DecisionHasAWitness(rd.request, k.value.0, d.value);
    forall x
      ensures Witness(s.db[k.origin.version].db, s.db[d.origin.version].db, rd, x) <==>
              Carries(k.value.0, d.value, Permission(rd.request), x)
    {
      var roles := s.db[d.origin.version].db;
      HoldingIsWhatTheRowConfers(s.db[k.origin.version].db, rd.user, rd.project, x);
      DefinitionsAreTheRows(if rd.project in roles.roles then roles.roles[rd.project] else [], x);
    }
  }

  predicate Witness(held: Database, roles: Database, rd: Reader, k: string) {
    && Confers(held, rd.user, rd.project, k)
    && Defines(roles, rd.project, k, rd.request.resourceType + ":" + rd.request.action)
  }

  /** A row delegated through a revoked grant, or one the tenant cannot see, confers nothing at all. */
  lemma RevokedGrantConfersNothing(db: Database, user: Id, project: Id)
    requires (user, project) in db.userGrants && db.userGrants[(user, project)].via.Some?
    requires
      var g := db.userGrants[(user, project)].via.value;
      g !in db.projectGrants || db.projectGrants[g].status == Revoked
    ensures HoldingOf(db, user, project).keys == []
  {
    var row := db.userGrants[(user, project)];
    if row.via.value !in db.projectGrants {
      var none := Intersection(row.roleKeys, []);
      if none != [] {
        IntersectionIsMembership(row.roleKeys, [], none[0]);
      }
    }
  }
}
