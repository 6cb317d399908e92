/** The authorization check: cached inputs, read-through on a miss, and the decision (authz/handler.go). */
module AuthzHandler {
  import opened Wrappers
  import opened RedisStore
  import opened AuthzKeys
  import opened AuthzCache
  import opened GrantSql
  import opened Decisions

  /** What every operation of one check does: true for a reply, false for an error. */
  datatype Faults = Faults(
    projectOf: bool, getKeys: bool, getGen: bool, getRoles: bool, begin: bool,
    queryKeys: bool, readGen: bool, setKeys: Fate, queryRoles: bool, setRoles: Fate, commit: bool)

  /** The two inputs of a decision, and whether the subject is known, which only a log line uses. */
  datatype Inputs = Inputs(keys: seq<string>, definitions: Definitions, known: bool)

  /** A held key without a definition is dropped. */
  function Assemble(keys: seq<string>, definitions: Definitions): seq<Grant> {
    if keys == [] then []
    else
      (if keys[0] in definitions then [Grant(keys[0], definitions[keys[0]])] else []) +
      Assemble(keys[1..], definitions)
  }

  /** `k` is held, defined, and carries the permission asked about. */
  predicate Carries(keys: seq<string>, definitions: Definitions, permission: string, k: string) {
    k in keys && k in definitions && permission in definitions[k]
  }

  lemma {:induction false} AssembleKeepsDefinedKeys(keys: seq<string>, definitions: Definitions, g: Grant)
    ensures g in Assemble(keys, definitions) <==>
            g.roleKey in keys && g.roleKey in definitions && definitions[g.roleKey] == g.permissionKeys
  {
    if keys != [] {
      AssembleKeepsDefinedKeys(keys[1..], definitions, g);
      assert keys == [keys[0]] + keys[1..];
    }
  }

  /** Key by key, in the order of the keys: nothing for one without a definition, and its own for any other. */
  lemma {:induction false} AssembleKeyByKey(a: seq<string>, b: seq<string>, definitions: Definitions, k: string)
    ensures Assemble(a + b, definitions) == Assemble(a, definitions) + Assemble(b, definitions)
    ensures Assemble([k], definitions) == if k in definitions then [Grant(k, definitions[k])] else []
  {
    if a == [] {
      assert a + b == b;
    } else {
      assert (a + b)[1..] == a[1..] + b;
      AssembleKeyByKey(a[1..], b, definitions, k);
    }
  }

  /** An allow names a role that is held, defined, and carries the permission; without one it is a deny. */
  lemma DecisionHasAWitness(req: Request, keys: seq<string>, definitions: Definitions)
    ensures
      var d := Decide(req, Assemble(keys, definitions));
      && (d.allowed <==> exists k :: Carries(keys, definitions, req.resourceType + ":" + req.action, k))
      && (d.allowed ==> Carries(keys, definitions, req.resourceType + ":" + req.action, d.matchedPolicy))
  {
    var grants := Assemble(keys, definitions);
    DecideNamesTheFirstCarrier(req, grants);
    if Decide(req, grants).allowed {
      var i :| 0 <= i < |grants| && Permission(req) in grants[i].permissionKeys &&
        (forall j :: 0 <= j < i ==> Permission(req) !in grants[j].permissionKeys) &&
        Names(Decide(req, grants), grants[i].roleKey, Permission(req));
      assert grants[i] in grants;
      AssembleKeepsDefinedKeys(keys, definitions, grants[i]);
      assert Carries(keys, definitions, Permission(req), grants[i].roleKey);
    } else if k :| Carries(keys, definitions, Permission(req), k) {
      AssembleKeepsDefinedKeys(keys, definitions, Grant(k, definitions[k]));
      assert false;
    }
  }

  /** What the database alone says: the check of a deployment without a cache. */
  function Uncached(db: Database, user: Id, project: Id): Inputs {
    var held := HoldingOf(db, user, project);
    Inputs(held.keys, DefinitionsIn(db, project), held.known)
  }

  /** The cache after the read transaction: each missing input that was read was offered to it. */
  function Filled(
    caching: bool, cells: Cells<Entry>, now: nat, ttl: nat, db: Database, org: Id, user: Id, project: Id, f: Faults,
    missing: bool, rolesMissing: bool): Cells<Entry>
  {
    if !caching || !f.begin || (missing && !f.queryKeys) then cells
    else
      var held := HoldingOf(db, user, project);
      var cells1 :=
        if missing then AfterPutGrants(cells, now, ttl, org, user, project, held.keys, held.via, f.readGen, f.setKeys)
        else cells;
      if rolesMissing && f.queryRoles
      then AfterPutRoles(cells1, now, ttl, org, project, DefinitionsIn(db, project), f.setRoles)
      else cells1
  }

  /** The answer of one check and the cache it leaves, for a given pattern of failures. */
  function ReadThrough(
    caching: bool, cells: Cells<Entry>, now: nat, ttl: nat, db: Database, org: Id, user: Id, project: Id, f: Faults)
    : (Option<Inputs>, Cells<Entry>)
  {
    var hit := if caching then LookupGrants(cells, now, org, user, project, f.getKeys, f.getGen) else None;
    var hitRoles := if caching then LookupRoles(cells, now, org, project, f.getRoles) else None;
    if hit.Some? && hitRoles.Some? then (Some(Inputs(hit.value.0, hitRoles.value, true)), cells)
    else
      var cells' := Filled(caching, cells, now, ttl, db, org, user, project, f, hit.None?, hitRoles.None?);
      if !f.begin || (hit.None? && !f.queryKeys) || (hitRoles.None? && !f.queryRoles) || !f.commit then (None, cells')
      else
        var uncached := Uncached(db, user, project);
        (Some(Inputs(
           if hit.Some? then hit.value.0 else uncached.keys,
           if hitRoles.Some? then hitRoles.value else uncached.definitions,
           hit.Some? || uncached.known)),
         cells')
  }

  /** A failure to reach an answer, reported as 503 and never as a decision. */
  datatype Unavailable = Unavailable

  /** The loop that pairs each held key with what it carries. */
  method Collect(roleKeys: seq<string>, definitions: Definitions) returns (out: seq<Grant>)
    ensures out == Assemble(roleKeys, definitions)
    ensures forall g :: g in out ==> g.roleKey in roleKeys && g.roleKey in definitions
  {
    out := [];
    for n := 0 to |roleKeys|
      invariant out + Assemble(roleKeys[n..], definitions) == Assemble(roleKeys, definitions)
      invariant forall g :: g in out ==> g.roleKey in roleKeys && g.roleKey in definitions
    {
      var key := roleKeys[n];
      assert roleKeys[n..] == [key] + roleKeys[n + 1..];
      if key in definitions {
        out := out + [Grant(key, definitions[key])];
      }
    }
  }

  /** Without a cache the inputs are the row's keys and the project's roles as the database has them. */
  lemma UncachedMeans(db: Database, user: Id, project: Id, permission: string)
    ensures
      var inputs := Uncached(db, user, project);
      forall k :: Carries(inputs.keys, inputs.definitions, permission, k) <==>
        Confers(db, user, project, k) && Defines(db, project, k, permission)
  {
    var inputs := Uncached(db, user, project);
    forall k
      ensures Carries(inputs.keys, inputs.definitions, permission, k) <==>
        Confers(db, user, project, k) && Defines(db, project, k, permission)
    {
      HoldingIsWhatTheRowConfers(db, user, project, k);
      DefinitionsAreTheRows(if project in db.roles then db.roles[project] else [], k);
    }
  }

  class Handler {
    const cache: Cache?

    constructor (cache: Cache?)
      ensures this.cache == cache
    {
      this.cache := cache;
    }

    ghost function CacheCells(): Cells<Entry>
      reads this, if cache == null then {} else {cache.client}
    {
      if cache == null then map[] else cache.client.cells
    }

    ghost function Clock(): nat
      reads this, if cache == null then {} else {cache.client}
    {
      if cache == null then 0 else cache.client.now
    }

    ghost function Ttl(): nat {
      if cache == null then 0 else cache.ttl
    }

    /** The body of the read transaction: fill each missing input, then write it to the cache. */
    method Fill(db: Database, org: Id, subject: Id, project: Id, f: Faults, missing: bool, rolesMissing: bool)
      returns (ok: bool, held: Holding, definitions: Definitions)
      modifies if cache == null then {} else {cache.client}
      ensures ok == (f.begin && (missing ==> f.queryKeys) && (rolesMissing ==> f.queryRoles) && f.commit)
      ensures ok && missing ==> held == HoldingOf(db, subject, project)
      ensures ok && rolesMissing ==> definitions == DefinitionsIn(db, project)
      ensures CacheCells() ==
        Filled(cache != null, old(CacheCells()), Clock(), Ttl(), db, org, subject, project, f, missing, rolesMissing)
      ensures Clock() == old(Clock())
    {
      ok, held, definitions := false, Holding([], None, false), map[];
      if !f.begin {
        return;
      }
      if missing {
        if !f.queryKeys {
          return;
        }
        held := HoldingOf(db, subject, project);
        if cache != null {
          cache.PutRoleKeys(org, subject, project, held.keys, held.via, f.readGen, f.setKeys);
        }
      }
      if rolesMissing {
        if !f.queryRoles {
          return;
        }
        definitions := ReadRoleDefinitions(if project in db.roles then db.roles[project] else []);
        if cache != null {
          cache.PutRoles(org, project, definitions, f.setRoles);
        }
      }
      ok := f.commit;
    }

    method GrantsFor(db: Database, org: Id, client: Id, subject: Id, f: Faults)
      returns (r: Result<(seq<Grant>, bool), Unavailable>)
      modifies if cache == null then {} else {cache.client}
      ensures client !in db.applications || !f.projectOf ==> r.Failure? && CacheCells() == old(CacheCells())
      ensures client in db.applications && f.projectOf ==>
        var (inputs, cells) := ReadThrough(
          cache != null, old(CacheCells()), Clock(), Ttl(), db, org, subject, db.applications[client], f);
        && CacheCells() == cells
        && r == if inputs.None? then Failure(Unavailable)
                else Success((Assemble(inputs.value.keys, inputs.value.definitions), inputs.value.known))
      ensures Clock() == old(Clock())
    {
      if client !in db.applications || !f.projectOf {
        return Failure(Unavailable);
      }
      var project := db.applications[client];

      var roleKeys, via, cachedKeys := [], None, false;
      var cachedRoles: Option<Definitions> := None;
      if cache != null {
        roleKeys, via, cachedKeys := cache.RoleKeys(org, subject, project, f.getKeys, f.getGen);
        cachedRoles := cache.Roles(org, project, f.getRoles);
      }
      var known := cachedKeys;
      var definitions := if cachedRoles.Some? then cachedRoles.value else map[];

      if !cachedKeys || cachedRoles.None? {
        var ok, held, read := Fill(db, org, subject, project, f, !cachedKeys, cachedRoles.None?);
        if !ok {
          return Failure(Unavailable);
        }
        if !cachedKeys {
          roleKeys, via, known := held.keys, held.via, held.known;
        }
        if cachedRoles.None? {
          definitions := read;
        }
      }

      var out := Collect(roleKeys, definitions);
      return Success((out, known));
    }

    /** No caching handler's failure becomes a decision, and no decision is made from anything but the two inputs. */
    method CheckAuthorization(db: Database, org: Id, client: Id, req: Request, f: Faults)
      returns (r: Result<Decision, Unavailable>)
      modifies if cache == null then {} else {cache.client}
      ensures client !in db.applications || !f.projectOf ==> r.Failure?
      ensures client in db.applications && f.projectOf ==>
        var inputs := ReadThrough(
          cache != null, old(CacheCells()), Clock(), Ttl(), db, org, req.subjectUserId, db.applications[client], f).0;
        r == if inputs.None? then Failure(Unavailable)
             else Success(Decide(req, Assemble(inputs.value.keys, inputs.value.definitions)))
      ensures r.Success? && cache == null ==>
        var inputs := Uncached(db, req.subjectUserId, db.applications[client]);
        r.value == Decide(req, Assemble(inputs.keys, inputs.definitions))
      ensures r.Success? ==>
        var inputs := ReadThrough(
          cache != null, old(CacheCells()), Clock(), Ttl(), db, org, req.subjectUserId, db.applications[client], f)
          .0.value;
        r.value.allowed <==>
          exists k :: Carries(inputs.keys, inputs.definitions, req.resourceType + ":" + req.action, k)
      ensures r.Success? && cache == null ==>
        var project := db.applications[client];
        r.value.allowed <==> exists k ::
          Confers(db, req.subjectUserId, project, k) &&
          Defines(db, project, k, req.resourceType + ":" + req.action)
    {
      var grants := GrantsFor(db, org, client, req.subjectUserId, f);
      if grants.Failure? {
        return Failure(Unavailable);
      }
      DecisionHasAWitness(
        req, ReadThrough(cache != null, old(CacheCells()), Clock(), Ttl(), db, org, req.subjectUserId,
                         db.applications[client], f).0.value.keys,
        ReadThrough(cache != null, old(CacheCells()), Clock(), Ttl(), db, org, req.subjectUserId,
                    db.applications[client], f).0.value.definitions);
      UncachedMeans(db, req.subjectUserId, db.applications[client], req.resourceType + ":" + req.action);
      return Success(Decide(req, grants.value.0));
    }
  }
}
