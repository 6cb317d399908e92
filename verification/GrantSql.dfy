/**
 The rows the authorization check reads, as the tenant of the check sees them, and the roles a
 `user_grants` row confers (grantsql/grantsql.go:33-43).
*/
module GrantSql {
  import opened Wrappers
  import opened AuthzKeys

  datatype Status = Active | Revoked

  datatype ProjectGrant = ProjectGrant(grantedRoleKeys: seq<string>, status: Status)

  /** `via` is `project_grant_id`: None for a direct grant. */
  datatype UserGrant = UserGrant(roleKeys: seq<string>, via: Option<GrantId>)

  datatype RoleRow = RoleRow(key: string, permissionKeys: seq<string>)

  datatype Database = Database(
    applications: map<Id, Id>,
    users: set<Id>,
    userGrants: map<(Id, Id), UserGrant>,
    projectGrants: map<GrantId, ProjectGrant>,
    roles: map<Id, seq<RoleRow>>)

  // ORDER BY k, by code point.

  predicate AtMost(a: string, b: string) {
    a == "" || (b != "" && (a[0] < b[0] || (a[0] == b[0] && AtMost(a[1..], b[1..]))))
  }

  lemma {:induction false} AtMostIsTotal(a: string, b: string)
    ensures AtMost(a, b) || AtMost(b, a)
  {
    if a != "" && b != "" && a[0] == b[0] {
      AtMostIsTotal(a[1..], b[1..]);
    }
  }

  /** The first character that differs decides, and a prefix comes first. */
  lemma {:induction false} AtMostIsByCodePoint(a: string, b: string)
    ensures AtMost(a, b) <==>
      a <= b || exists i :: 0 <= i < |a| && i < |b| && a[..i] == b[..i] && a[i] < b[i]
  {
    if a != "" && b != "" && a[0] == b[0] {
      AtMostIsByCodePoint(a[1..], b[1..]);
      assert a <= b <==> a[1..] <= b[1..];
      forall i | 0 <= i < |a[1..]| && i < |b[1..]|
        ensures a[1..][..i] == b[1..][..i] <==> a[..i + 1] == b[..i + 1]
      {
        assert a[..i + 1] == [a[0]] + a[1..][..i] && b[..i + 1] == [b[0]] + b[1..][..i];
        assert a[1..][..i] == a[..i + 1][1..] && b[1..][..i] == b[..i + 1][1..];
      }
      if i :| 0 <= i < |a[1..]| && i < |b[1..]| && a[1..][..i] == b[1..][..i] && a[1..][i] < b[1..][i] {
        assert a[..i + 1] == b[..i + 1] && a[i + 1] < b[i + 1];
      }
      if i :| 0 <= i < |a| && i < |b| && a[..i] == b[..i] && a[i] < b[i] {
        assert i > 0 && a[1..][..i - 1] == b[1..][..i - 1] && a[1..][i - 1] < b[1..][i - 1];
      }
    } else if a != "" && b != "" {
      assert a[..0] == b[..0];
      if a[0] > b[0] {
        forall i | 0 < i < |a| && i < |b| ensures a[..i] != b[..i] {
          assert a[..i][0] == a[0] && b[..i][0] == b[0];
        }
      }
    }
  }

  function Insert(k: string, sorted: seq<string>): seq<string> {
    if sorted == [] || AtMost(k, sorted[0]) then [k] + sorted else [sorted[0]] + Insert(k, sorted[1..])
  }

  function OrderBy(keys: seq<string>): seq<string> {
    if keys == [] then [] else Insert(keys[0], OrderBy(keys[1..]))
  }

  predicate Ordered(keys: seq<string>) {
    forall i :: 0 <= i < |keys| - 1 ==> AtMost(keys[i], keys[i + 1])
  }

  lemma {:induction false} InsertKeepsOrder(k: string, sorted: seq<string>)
    requires Ordered(sorted)
    ensures multiset(Insert(k, sorted)) == multiset(sorted) + multiset{k}
    ensures Ordered(Insert(k, sorted))
    ensures Insert(k, sorted)[0] == k || (sorted != [] && Insert(k, sorted)[0] == sorted[0])
  {
    if sorted == [] || AtMost(k, sorted[0]) {
    } else {
      AtMostIsTotal(k, sorted[0]);
      assert sorted == [sorted[0]] + sorted[1..];
      InsertKeepsOrder(k, sorted[1..]);
      var rest := Insert(k, sorted[1..]);
      assert forall i :: 0 <= i < |rest| ==> ([sorted[0]] + rest)[i + 1] == rest[i];
      assert AtMost(sorted[0], rest[0]);
      forall i | 0 <= i < |[sorted[0]] + rest| - 1
        ensures AtMost(([sorted[0]] + rest)[i], ([sorted[0]] + rest)[i + 1])
      {
        if i > 0 {
          assert AtMost(rest[i - 1], rest[i]);
        }
      }
    }
  }

  /** ORDER BY rearranges the keys and loses, adds and repeats none. */
  lemma {:induction false} OrderByPermutes(keys: seq<string>)
    ensures multiset(OrderBy(keys)) == multiset(keys)
    ensures Ordered(OrderBy(keys))
  {
    if keys != [] {
      OrderByPermutes(keys[1..]);
      InsertKeepsOrder(keys[0], OrderBy(keys[1..]));
      assert keys == [keys[0]] + keys[1..];
    }
  }

  function Intersection(keys: seq<string>, granted: seq<string>): seq<string> {
    if keys == [] then []
    else (if keys[0] in granted then [keys[0]] else []) + Intersection(keys[1..], granted)
  }

  /**
   The SQL CASE, or None for the NULL of a user without a row.  A project grant the tenant cannot see
   leaves the joined columns NULL: `status <> 'active'` is then not true and `k = ANY (NULL)` never
   is, so the last branch runs and confers nothing.
  */
  function EffectiveRoleKeys(db: Database, user: Id, project: Id): Option<seq<string>> {
    if (user, project) !in db.userGrants then None
    else
      var row := db.userGrants[(user, project)];
      match row.via
      case None => Some(row.roleKeys)
      case Some(g) =>
        if g !in db.projectGrants then Some(OrderBy(Intersection(row.roleKeys, [])))
        else if db.projectGrants[g].status != Active then Some([])
        else Some(OrderBy(Intersection(row.roleKeys, db.projectGrants[g].grantedRoleKeys)))
  }

  /** `via` is None, an empty string in the source, for a direct grant and for no grant. */
  datatype Holding = Holding(keys: seq<string>, via: Option<GrantId>, known: bool)

  /** What `readRoleKeys` returns (authz/handler.go:230-248). */
  function HoldingOf(db: Database, user: Id, project: Id): Holding {
    var keys := match EffectiveRoleKeys(db, user, project) case None => [] case Some(keys) => keys;
    var via := if (user, project) in db.userGrants then db.userGrants[(user, project)].via else None;
    Holding(keys, via, user in db.users)
  }

  lemma {:induction false} IntersectionIsMembership(keys: seq<string>, granted: seq<string>, k: string)
    ensures k in Intersection(keys, granted) <==> k in keys && k in granted
  {
    if keys != [] {
      IntersectionIsMembership(keys[1..], granted, k);
      assert keys == [keys[0]] + keys[1..];
    }
  }

  /** Key by key, in the order of the row: kept when the grant delegates it, as often as the row has it. */
  lemma {:induction false} IntersectionKeyByKey(a: seq<string>, b: seq<string>, granted: seq<string>, k: string)
    ensures Intersection(a + b, granted) == Intersection(a, granted) + Intersection(b, granted)
    ensures Intersection([k], granted) == if k in granted then [k] else []
  {
    if a == [] {
      assert a + b == b;
    } else {
      var all, rest := a + b, a[1..];
      assert all[0] == a[0] && all[1..] == rest + b;
      IntersectionKeyByKey(rest, b, granted, k);
      var first := if a[0] in granted then [a[0]] else [];
      assert Intersection(a, granted) == first + Intersection(rest, granted);
      assert Intersection(all, granted) == first + Intersection(rest + b, granted);
    }
  }

  /** The row confers `k`: it names it and, when delegated, an active grant delegates it now. */
  predicate Confers(db: Database, user: Id, project: Id, k: string) {
    (user, project) in db.userGrants &&
    var row := db.userGrants[(user, project)];
    k in row.roleKeys &&
    (row.via.Some? ==>
      var g := row.via.value;
      g in db.projectGrants && db.projectGrants[g].status == Active && k in db.projectGrants[g].grantedRoleKeys)
  }

  /** The keys a check reads are exactly the ones the row confers at that instant. */
  lemma HoldingIsWhatTheRowConfers(db: Database, user: Id, project: Id, k: string)
    ensures k in HoldingOf(db, user, project).keys <==> Confers(db, user, project, k)
    ensures HoldingOf(db, user, project).via.Some? <==>
      (user, project) in db.userGrants && db.userGrants[(user, project)].via.Some?
    ensures HoldingOf(db, user, project).via.Some? ==>
      HoldingOf(db, user, project).via == db.userGrants[(user, project)].via
    ensures HoldingOf(db, user, project).known <==> user in db.users
    ensures (user, project) in db.userGrants ==>
      if db.userGrants[(user, project)].via.None?
      then HoldingOf(db, user, project).keys == db.userGrants[(user, project)].roleKeys
      else Ordered(HoldingOf(db, user, project).keys)
  {
    if (user, project) in db.userGrants && db.userGrants[(user, project)].via.Some? {
      var row := db.userGrants[(user, project)];
      var granted :=
        if row.via.value in db.projectGrants then db.projectGrants[row.via.value].grantedRoleKeys else [];
      var kept := Intersection(row.roleKeys, granted);
      IntersectionIsMembership(row.roleKeys, granted, k);
      OrderByPermutes(kept);
      assert k in OrderBy(kept) <==> k in multiset(OrderBy(kept));
      assert k in kept <==> k in multiset(kept);
      if row.via.value !in db.projectGrants {
        IntersectionIsMembership(row.roleKeys, [], k);
      }
    }
  }

  type Definitions = map<string, seq<string>>

  function DefinitionsOf(rows: seq<RoleRow>): Definitions {
    if rows == [] then map[]
    else DefinitionsOf(rows[..|rows| - 1])[rows[|rows| - 1].key := rows[|rows| - 1].permissionKeys]
  }

  /** A role is defined by its row, and if there were several by the last of them. */
  lemma {:induction false} DefinitionsAreTheRows(rows: seq<RoleRow>, k: string)
    ensures k in DefinitionsOf(rows) <==> exists i :: LastRowOf(rows, k, i)
    ensures forall i :: LastRowOf(rows, k, i) ==>
      k in DefinitionsOf(rows) && DefinitionsOf(rows)[k] == rows[i].permissionKeys
  {
    if rows != [] {
      var n := |rows| - 1;
      DefinitionsAreTheRows(rows[..n], k);
      if rows[n].key == k {
        assert LastRowOf(rows, k, n);
      } else {
        assert forall i :: LastRowOf(rows, k, i) <==> LastRowOf(rows[..n], k, i);
      }
    }
  }

  predicate LastRowOf(rows: seq<RoleRow>, k: string, i: int) {
    0 <= i < |rows| && rows[i].key == k && forall j :: i < j < |rows| ==> rows[j].key != k
  }

  /** The project has a role `k`, and its row carries the permission. */
  predicate Defines(db: Database, project: Id, k: string, permission: string) {
    project in db.roles &&
    exists i :: 0 <= i < |db.roles[project]| && LastRowOf(db.roles[project], k, i) &&
      permission in db.roles[project][i].permissionKeys
  }

  /** What `readRoleDefinitions` returns for a project. */
  function DefinitionsIn(db: Database, project: Id): Definitions {
    DefinitionsOf(if project in db.roles then db.roles[project] else [])
  }

  /** The row loop (authz/handler.go:260-272); the unique index on (project_id, key) makes it lossless. */
  method ReadRoleDefinitions(rows: seq<RoleRow>) returns (out: Definitions)
    ensures out == DefinitionsOf(rows)
    ensures (forall i, j :: 0 <= i < j < |rows| ==> rows[i].key != rows[j].key) ==>
              forall i :: 0 <= i < |rows| ==> rows[i].key in out && out[rows[i].key] == rows[i].permissionKeys
    ensures forall k :: k in out ==> exists i :: 0 <= i < |rows| && rows[i].key == k && rows[i].permissionKeys == out[k]
  {
    out := map[];
    for n := 0 to |rows|
      invariant out == DefinitionsOf(rows[..n])
      invariant (forall i, j :: 0 <= i < j < |rows| ==> rows[i].key != rows[j].key) ==>
                  forall i :: 0 <= i < n ==> rows[i].key in out && out[rows[i].key] == rows[i].permissionKeys
      invariant forall k :: k in out ==> exists i :: 0 <= i < n && rows[i].key == k && rows[i].permissionKeys == out[k]
    {
      assert rows[..n + 1][..n] == rows[..n];
      ghost var before := out;
      out := out[rows[n].key := rows[n].permissionKeys];
    }
    assert rows[..|rows|] == rows;
  }
}
