/**
 The authorization cache (authz/cache.go): what it stores, what a lookup answers under every pattern
 of Redis failures, and what a write or an invalidation leaves behind.

 The functions are the specification; class `Cache` is the code.
*/
module AuthzCache {
  import opened Wrappers
  import opened RedisStore
  import opened AuthzKeys
  import GrantSql

  /**
   The two documents, each wrapped with the time it was written.  `via` is the Project Grant the keys
   came through, None for a direct grant.
  */
  datatype Entry =
    | GrantsEntry(at: nat, keys: seq<string>, via: Option<GrantId>, gen: int)
    | RolesEntry(at: nat, roles: GrantSql.Definitions)

  /** Milliseconds. */
  const DEFAULT_TTL: nat := 30_000
  const GENERATION_TTL: nat := 86_400_000

  /** The grants document under the user's key; unreachable, missing and undecodable are all misses. */
  function FetchGrants(cells: Cells<Entry>, now: nat, org: Id, user: Id, project: Id, up: bool): Option<Entry> {
    if !up then None
    else
      match Read(cells, KeyOf(GrantsOf(org, user, project)), now)
      case Some(Doc(e)) => if e.GrantsEntry? then Some(e) else None
      case _ => None
  }

  /** A grant's revocation counter: 0 when missing, -1 when it cannot be read. */
  function Generation(cells: Cells<Entry>, now: nat, grant: GrantId, up: bool): int {
    if !up then -1
    else
      match Read(cells, KeyOf(GenerationOf(grant)), now)
      case None => 0
      case Some(Int(n)) => n
      case Some(_) => -1
  }

  /** The role keys and the grant they came through, when the cache may answer. */
  function LookupGrants(cells: Cells<Entry>, now: nat, org: Id, user: Id, project: Id, up: bool, genUp: bool)
    : Option<(seq<string>, Option<GrantId>)>
  {
    match FetchGrants(cells, now, org, user, project, up)
    case None => None
    case Some(e) =>
      if e.GrantsEntry? && (e.via.Some? ==> Generation(cells, now, e.via.value, genUp) == e.gen)
      then Some((e.keys, e.via))
      else None
  }

  function LookupRoles(cells: Cells<Entry>, now: nat, org: Id, project: Id, up: bool): Option<GrantSql.Definitions> {
    if !up then None
    else
      match Read(cells, KeyOf(RolesOf(org, project)), now)
      case Some(Doc(e)) => if e.RolesEntry? then Some(e.roles) else None
      case _ => None
  }

  /** The document a grants write stores, or None when its generation could not be read. */
  function GrantsDocument(cells: Cells<Entry>, now: nat, keys: seq<string>, via: Option<GrantId>, genUp: bool)
    : Option<Entry>
  {
    if via.None? then Some(GrantsEntry(now, keys, None, 0))
    else
      var gen := Generation(cells, now, via.value, genUp);
      if gen < 0 then None else Some(GrantsEntry(now, keys, via, gen))
  }

  function AfterPutGrants(
    cells: Cells<Entry>, now: nat, ttl: nat, org: Id, user: Id, project: Id,
    keys: seq<string>, via: Option<GrantId>, genUp: bool, fate: Fate): Cells<Entry>
  {
    match GrantsDocument(cells, now, keys, via, genUp)
    case None => cells
    case Some(doc) =>
      if Applied(fate) then AfterSet(cells, KeyOf(GrantsOf(org, user, project)), doc, now, ttl) else cells
  }

  function AfterPutRoles(
    cells: Cells<Entry>, now: nat, ttl: nat, org: Id, project: Id, roles: GrantSql.Definitions, fate: Fate)
    : Cells<Entry>
  {
    if Applied(fate) then AfterSet(cells, KeyOf(RolesOf(org, project)), RolesEntry(now, roles), now, ttl) else cells
  }

  /** INCR, then EXPIRE only when the INCR was acknowledged (authz/cache.go:336-348). */
  function AfterInvalidateGrant(cells: Cells<Entry>, now: nat, grant: GrantId, incr: Fate, expire: Fate): Cells<Entry> {
    var key := KeyOf(GenerationOf(grant));
    var held := Read(cells, key, now);
    var cells' := if Applied(incr) then AfterIncr(cells, key, now) else cells;
    if incr.Acknowledged? && (held.None? || held.value.Int?) && Applied(expire)
    then AfterExpire(cells', key, now, GENERATION_TTL)
    else cells'
  }

  class Cache {
    const client: Redis<Entry>
    const ttl: nat

    constructor (client: Redis<Entry>)
      ensures this.client == client && ttl == 30_000
    {
      this.client := client;
      ttl := DEFAULT_TTL;
    }

    method GetGeneration(grant: GrantId, up: bool) returns (n: int)
      ensures n == Generation(client.cells, client.now, grant, up)
    {
      var reply := client.Get(KeyOf(GenerationOf(grant)), up);
      match reply
      case Absent => return 0;
      case Unreachable => return -1;
      case Found(v) => return if v.Int? then v.n else -1;
    }

    method RoleKeys(org: Id, user: Id, project: Id, up: bool, genUp: bool)
      returns (keys: seq<string>, via: Option<GrantId>, ok: bool)
      ensures ok == LookupGrants(client.cells, client.now, org, user, project, up, genUp).Some?
      ensures ok ==> Some((keys, via)) == LookupGrants(client.cells, client.now, org, user, project, up, genUp)
      ensures !ok ==> keys == [] && via == None
    {
      var reply := client.Get(KeyOf(GrantsOf(org, user, project)), up);
      if !reply.Found? || !reply.value.Doc? || !reply.value.doc.GrantsEntry? {
        return [], None, false;
      }
      var value := reply.value.doc;
      if value.via.Some? {
        var current := GetGeneration(value.via.value, genUp);
        if current != value.gen {
          return [], None, false;
        }
      }
      return value.keys, value.via, true;
    }

    method Roles(org: Id, project: Id, up: bool) returns (roles: Option<GrantSql.Definitions>)
      ensures roles == LookupRoles(client.cells, client.now, org, project, up)
    {
      var reply := client.Get(KeyOf(RolesOf(org, project)), up);
      if !reply.Found? || !reply.value.Doc? || !reply.value.doc.RolesEntry? {
        return None;
      }
      return Some(reply.value.doc.roles);
    }

    method PutRoleKeys(
      org: Id, user: Id, project: Id, keys: seq<string>, via: Option<GrantId>, genUp: bool, fate: Fate)
      modifies client`cells
      ensures client.cells ==
        AfterPutGrants(old(client.cells), client.now, ttl, org, user, project, keys, via, genUp, fate)
    {
      var gen := 0;
      if via.Some? {
        gen := GetGeneration(via.value, genUp);
        if gen < 0 {
          return;
        }
      }
      var _ := client.Set(
        KeyOf(GrantsOf(org, user, project)), GrantsEntry(client.now, keys, via, gen), ttl, fate);
    }

    method PutRoles(org: Id, project: Id, roles: GrantSql.Definitions, fate: Fate)
      modifies client`cells
      ensures client.cells == AfterPutRoles(old(client.cells), client.now, ttl, org, project, roles, fate)
    {
      var _ := client.Set(KeyOf(RolesOf(org, project)), RolesEntry(client.now, roles), ttl, fate);
    }

    /** `ok` false is what is counted and logged: until the entry expires it may still be served. */
    method InvalidateUser(org: Id, user: Id, project: Id, fate: Fate) returns (ok: bool)
      modifies client`cells
      ensures ok == fate.Acknowledged?
      ensures Applied(fate) ==>
        client.cells == AfterDel(old(client.cells), KeyOf(GrantsOf(org, user, project))) &&
        LookupGrants(client.cells, client.now, org, user, project, true, true) == None
      ensures !Applied(fate) ==> client.cells == old(client.cells)
    {
      ok := client.Del(KeyOf(GrantsOf(org, user, project)), fate);
    }

    method InvalidateProjectRoles(org: Id, project: Id, fate: Fate) returns (ok: bool)
      modifies client`cells
      ensures ok == fate.Acknowledged?
      ensures Applied(fate) ==>
        client.cells == AfterDel(old(client.cells), KeyOf(RolesOf(org, project))) &&
        LookupRoles(client.cells, client.now, org, project, true) == None
      ensures !Applied(fate) ==> client.cells == old(client.cells)
    {
      ok := client.Del(KeyOf(RolesOf(org, project)), fate);
    }

    method InvalidateGrant(grant: GrantId, incr: Fate, expire: Fate)
      modifies client`cells
      ensures client.cells == AfterInvalidateGrant(old(client.cells), client.now, grant, incr, expire)
    {
      var ok := client.Incr(KeyOf(GenerationOf(grant)), incr);
      if !ok {
        return;
      }
      client.Expire(KeyOf(GenerationOf(grant)), GENERATION_TTL, expire);
    }
  }

  /**
   A cached delegated entry stops matching at once when its grant's counter is incremented, and a
   direct one, a roles entry and every other grant's entries keep answering as before.
  */
  lemma InvalidateGrantRetiresExactlyItsEntries(
    cells: Cells<Entry>, now: nat, grant: GrantId, expire: Fate, org: Id, user: Id, project: Id)
    requires Generation(cells, now, grant, true) >= 0
    ensures
      var cells' := AfterInvalidateGrant(cells, now, grant, Acknowledged, expire);
      var before := LookupGrants(cells, now, org, user, project, true, true);
      && Generation(cells', now, grant, true) == Generation(cells, now, grant, true) + 1
      && (before.Some? && before.value.1 == Some(grant) ==>
            LookupGrants(cells', now, org, user, project, true, true) == None)
      && (before.Some? && before.value.1 != Some(grant) ==>
            LookupGrants(cells', now, org, user, project, true, true) == before)
      && LookupRoles(cells', now, org, project, true) == LookupRoles(cells, now, org, project, true)
  {
    KeysIdentifySubjects(GenerationOf(grant), GrantsOf(org, user, project));
    KeysIdentifySubjects(GenerationOf(grant), RolesOf(org, project));
    var held := FetchGrants(cells, now, org, user, project, true);
    if held.Some? && held.value.GrantsEntry? && held.value.via.Some? {
      KeysIdentifySubjects(GenerationOf(grant), GenerationOf(held.value.via.value));
    }
  }

  /** With both commands acknowledged the counter reads one more for a whole day: 24 hours of milliseconds. */
  lemma InvalidateGrantLastsADay(cells: Cells<Entry>, now: nat, grant: GrantId, t: nat)
    requires Generation(cells, now, grant, true) >= 0
    ensures
      var after := AfterInvalidateGrant(cells, now, grant, Acknowledged, Acknowledged);
      now <= t < now + 86_400_000 ==> Generation(after, t, grant, true) == Generation(cells, now, grant, true) + 1
    ensures
      var after := AfterInvalidateGrant(cells, now, grant, Acknowledged, Acknowledged);
      t >= now + 86_400_000 ==> Generation(after, t, grant, true) == 0
  {
  }

  /** A stored document answers for its whole TTL and no longer, whatever was stored before. */
  lemma StoredAnswersForItsTtl(
    cells: Cells<Entry>, now: nat, ttl: nat, org: Id, user: Id, project: Id, keys: seq<string>,
    roles: GrantSql.Definitions, t: nat)
    requires t >= now
    ensures
      var after := AfterPutGrants(cells, now, ttl, org, user, project, keys, None, true, Acknowledged);
      LookupGrants(after, t, org, user, project, true, true) == if t < now + ttl then Some((keys, None)) else None
    ensures
      var after := AfterPutRoles(cells, now, ttl, org, project, roles, Acknowledged);
      LookupRoles(after, t, org, project, true) == if t < now + ttl then Some(roles) else None
  {
  }

  /** A delegated one answers for its TTL too, as long as its grant's counter reads what it did. */
  lemma DelegatedAnswersWhileItsCounterStands(
    cells: Cells<Entry>, now: nat, ttl: nat, org: Id, user: Id, project: Id, keys: seq<string>, grant: GrantId, t: nat)
    requires t >= now && Generation(cells, now, grant, true) >= 0
    ensures
      var after := AfterPutGrants(cells, now, ttl, org, user, project, keys, Some(grant), true, Acknowledged);
      LookupGrants(after, t, org, user, project, true, true) ==
        if t < now + ttl && Generation(cells, t, grant, true) == Generation(cells, now, grant, true)
        then Some((keys, Some(grant))) else None
  {
    KeysIdentifySubjects(GenerationOf(grant), GrantsOf(org, user, project));
  }

  /** With a counter that cannot be read nothing is stored, and no delegated entry is answered. */
  lemma UnreadableCounterStoresNothing(
    cells: Cells<Entry>, now: nat, ttl: nat, org: Id, user: Id, project: Id, keys: seq<string>, grant: GrantId,
    fate: Fate)
    ensures AfterPutGrants(cells, now, ttl, org, user, project, keys, Some(grant), false, fate) == cells
    ensures
      var held := FetchGrants(cells, now, org, user, project, true);
      held.Some? && held.value.GrantsEntry? && held.value.via.Some? && held.value.gen >= 0 ==>
        LookupGrants(cells, now, org, user, project, true, false) == None
  {
  }
}
