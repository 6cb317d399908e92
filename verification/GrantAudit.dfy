/**
 Changing what roles a user holds in a project, with the audit record of each change in the same
 transaction: grant, replace and revoke, and the trail they leave.
*/
module GrantAudit {
  import opened RedisStore
  import opened Wrappers

  type Id = string

  type Key = string

  datatype Place = Place(user: Id, project: Id)

  /** `via` is the project grant a delegated row came through. */
  datatype Row = Row(keys: seq<Key>, via: Option<Id>)

  datatype Event = Assigned(place: Place, added: seq<Key>, removed: seq<Key>) | Revoked(place: Place, removed: seq<Key>)

  /** What the transactions commit: the user_grants table and the audit log. */
  datatype Store = Store(rows: map<Place, Row>, events: seq<Event>)

  /** What the tenant sees besides: its users, its projects' roles, the active grants to it with their keys. */
  datatype Tenant = Tenant(users: set<Id>, roles: map<Id, set<Key>>, delegated: map<Id, set<Key>>)

  datatype Fault =
    | NoCaller | SelfService | NotFound
    | NoKeys | TooManyKeys | ListedTwice(index: nat, first: nat)
    | UnknownRole(key: Key) | NotDelegated(key: Key) | GrantRevoked | AlreadyGranted
    | Unavailable

  // The shape of a list of keys.

  const MAX_KEYS := 64

  predicate Distinct(keys: seq<Key>) {
    forall i, j :: 0 <= i < j < |keys| ==> keys[i] != keys[j]
  }

  function IndexOf(keys: seq<Key>, k: Key): (i: nat)
    requires k in keys
    ensures i < |keys| && keys[i] == k && k !in keys[..i]
  {
    if keys[0] == k then 0
    else
      var i := IndexOf(keys[1..], k) + 1;
      assert keys[..i] == [keys[0]] + keys[1..][..i - 1];
      i
  }

  /** The first key that repeats an earlier one, and where it stood before. */
  function FirstRepeat(keys: seq<Key>): (r: Option<(nat, nat)>)
    ensures r.None? <==> Distinct(keys)
    ensures r.Some? ==>
      && r.value.1 < r.value.0 < |keys| && keys[r.value.1] == keys[r.value.0]
      && Distinct(keys[..r.value.0])
  {
    if keys == [] then None
    else
      var front, last := keys[..|keys| - 1], keys[|keys| - 1];
      match FirstRepeat(front)
      case Some((i, first)) =>
        assert front[..i] == keys[..i];
        Some((i, first))
      case None => if last in front then Some((|keys| - 1, IndexOf(front, last))) else None
  }

  function KeyFault(keys: seq<Key>): Option<Fault> {
    if keys == [] then Some(NoKeys)
    else if |keys| > MAX_KEYS then Some(TooManyKeys)
    else
      match FirstRepeat(keys)
      case Some((i, first)) => Some(ListedTwice(i, first))
      case None => None
  }

  lemma RepeatIsFirst(keys: seq<Key>, i: nat, first: nat)
    requires first < i < |keys| && keys[first] == keys[i] && Distinct(keys[..i])
    ensures FirstRepeat(keys) == Some((i, first))
  {
    assert !Distinct(keys);
    var (j, g) := FirstRepeat(keys).value;
    DistinctBelow(keys, i);
    DistinctBelow(keys, j);
    OnePairRepeatsFirst(keys, i, first, j, g);
  }

  lemma OnePairRepeatsFirst(keys: seq<Key>, i: nat, first: nat, j: nat, g: nat)
    requires first < i < |keys| && keys[first] == keys[i] && forall a, b :: 0 <= a < b < i ==> keys[a] != keys[b]
    requires g < j < |keys| && keys[g] == keys[j] && forall a, b :: 0 <= a < b < j ==> keys[a] != keys[b]
    ensures i == j && first == g
  {
  }

  lemma DistinctBelow(keys: seq<Key>, n: nat)
    requires n <= |keys| && Distinct(keys[..n])
    ensures forall a, b :: 0 <= a < b < n ==> keys[a] != keys[b]
  {
    forall a, b | 0 <= a < b < n ensures keys[a] != keys[b] {
      assert keys[..n][a] == keys[a] && keys[..n][b] == keys[b];
    }
  }

  method ValidateKeys(keys: seq<Key>) returns (fault: Option<Fault>)
    ensures fault == KeyFault(keys)
    ensures fault == Some(NoKeys) <==> |keys| == 0
    ensures fault == Some(TooManyKeys) <==> |keys| > 64
    ensures fault.None? <==> 0 < |keys| <= 64 && Distinct(keys)
  {
    if |keys| == 0 {
      return Some(NoKeys);
    }
    if |keys| > MAX_KEYS {
      return Some(TooManyKeys);
    }
    var seen: map<Key, nat> := map[];
    for i := 0 to |keys|
      invariant Distinct(keys[..i])
      invariant forall k :: k in seen <==> k in keys[..i]
      invariant forall k :: k in seen ==> seen[k] < i && keys[seen[k]] == k
    {
      if keys[i] in seen {
        RepeatIsFirst(keys, i, seen[keys[i]]);
        return Some(ListedTwice(i, seen[keys[i]]));
      }
      assert keys[i] !in keys[..i];
      seen := seen[keys[i] := i];
      assert keys[..i + 1] == keys[..i] + [keys[i]];
    }
    assert keys[..|keys|] == keys;
    return None;
  }

  // What changed between two lists.

  /** The keys of `a` that are not in `b`, in the order of `a`. */
  function Minus(a: seq<Key>, b: seq<Key>): seq<Key> {
    if a == [] then []
    else Minus(a[..|a| - 1], b) + (if a[|a| - 1] in b then [] else [a[|a| - 1]])
  }

  method Difference(before: seq<Key>, after: seq<Key>) returns (added: seq<Key>, removed: seq<Key>)
    ensures added == Minus(after, before) && removed == Minus(before, after)
  {
    var had, has: set<Key> := {}, {};
    for i := 0 to |before|
      invariant forall k :: k in had <==> k in before[..i]
    {
      had := had + {before[i]};
    }
    for i := 0 to |after|
      invariant forall k :: k in has <==> k in after[..i]
    {
      has := has + {after[i]};
    }
    added, removed := [], [];
    for i := 0 to |after|
      invariant added == Minus(after[..i], before)
    {
      assert after[..i + 1][..i] == after[..i];
      if after[i] !in had {
        added := added + [after[i]];
      }
    }
    for i := 0 to |before|
      invariant removed == Minus(before[..i], after)
    {
      assert before[..i + 1][..i] == before[..i];
      if before[i] !in has {
        removed := removed + [before[i]];
      }
    }
    assert after[..|after|] == after && before[..|before|] == before;
  }

  function Keys(list: seq<Key>): set<Key> {
    set k | k in list
  }

  lemma {:induction false} MinusIsDifference(a: seq<Key>, b: seq<Key>)
    ensures Keys(Minus(a, b)) == Keys(a) - Keys(b)
    ensures Distinct(a) ==> Distinct(Minus(a, b))
  {
    if a != [] {
      var front, last := a[..|a| - 1], a[|a| - 1];
      MinusIsDifference(front, b);
      assert a == front + [last];
      assert Keys(a) == Keys(front) + {last};
      assert Keys(Minus(a, b)) == Keys(Minus(front, b)) + (if last in b then {} else {last});
      if Distinct(a) {
        assert last !in front;
        assert last !in Keys(Minus(front, b));
      }
    }
  }

  /** Key by key, in the order of the list: kept when it is not in the other. */
  lemma {:induction false} MinusKeyByKey(a: seq<Key>, c: seq<Key>, b: seq<Key>, k: Key)
    ensures Minus(a + c, b) == Minus(a, b) + Minus(c, b)
    ensures Minus([k], b) == if k in b then [] else [k]
  {
    assert [k][..0] == [];
    if c == [] {
      assert a + c == a;
    } else {
      var front := c[..|c| - 1];
      assert (a + c)[..|a + c| - 1] == a + front;
      MinusKeyByKey(a, front, b, k);
    }
  }

  /** Taking away the removed and adding the added turns one set into the other, with nothing listed in vain. */
  lemma DifferenceReplays(before: seq<Key>, after: seq<Key>)
    ensures
      var added, removed := Keys(Minus(after, before)), Keys(Minus(before, after));
      && (Keys(before) - removed) + added == Keys(after)
      && removed <= Keys(before) && added !! Keys(before)
  {
    MinusIsDifference(after, before);
    MinusIsDifference(before, after);
  }

  // The database's own checks on a row.

  function FirstMissing(keys: seq<Key>, known: set<Key>): Option<Key> {
    if keys == [] then None else if keys[0] !in known then Some(keys[0]) else FirstMissing(keys[1..], known)
  }

  /** The triggers and constraints on inserting or updating the row at `place`. */
  function RowFault(t: Tenant, place: Place, row: Row): Option<Fault> {
    if place.project !in t.roles then Some(NotFound)
    else if row.via.None? then
      match FirstMissing(row.keys, t.roles[place.project])
      case Some(k) => Some(UnknownRole(k))
      case None => None
    else if row.via.value !in t.delegated then Some(GrantRevoked)
    else
      match FirstMissing(row.keys, t.delegated[row.via.value])
      case Some(k) => Some(NotDelegated(k))
      case None => None
  }

  /** The key reported is the first that is not there. */
  lemma {:induction false} FirstMissingIs(keys: seq<Key>, known: set<Key>)
    ensures FirstMissing(keys, known).None? <==> forall k :: k in keys ==> k in known
    ensures FirstMissing(keys, known).Some? ==>
      exists i :: 0 <= i < |keys| && keys[i] == FirstMissing(keys, known).value && keys[i] !in known &&
        forall j :: 0 <= j < i ==> keys[j] in known
  {
    if keys != [] && keys[0] in known {
      FirstMissingIs(keys[1..], known);
      if FirstMissing(keys[1..], known).Some? {
        var i :| 0 <= i < |keys[1..]| && keys[1..][i] == FirstMissing(keys, known).value && keys[1..][i] !in known &&
          forall j :: 0 <= j < i ==> keys[1..][j] in known;
        assert keys[i + 1] == keys[1..][i];
        assert forall j :: 0 < j <= i ==> keys[j] == keys[1..][j - 1];
      }
    }
  }

  // What the operations come to.

  predicate WellFormed(keys: seq<Key>) {
    0 < |keys| <= 64 && forall i, j :: 0 <= i < j < |keys| ==> keys[i] != keys[j]
  }

  /** A direct row needs keys its project defines; a delegated one needs an active grant that carries them. */
  predicate Holdable(t: Tenant, place: Place, keys: seq<Key>, via: Option<Id>) {
    && place.project in t.roles
    && match via
       case None => forall k :: k in keys ==> k in t.roles[place.project]
       case Some(g) => g in t.delegated && forall k :: k in keys ==> k in t.delegated[g]
  }

  lemma RowFaultIff(t: Tenant, place: Place, row: Row)
    ensures RowFault(t, place, row).None? <==> Holdable(t, place, row.keys, row.via)
  {
    if place.project in t.roles {
      FirstMissingIs(row.keys, t.roles[place.project]);
    }
    if row.via.Some? && row.via.value in t.delegated {
      FirstMissingIs(row.keys, t.delegated[row.via.value]);
    }
  }

  /** Somebody else is granted their first row in the project. */
  predicate Grantable(t: Tenant, rows: map<Place, Row>, caller: Option<Id>, place: Place, keys: seq<Key>) {
    && caller.Some? && caller.value != place.user
    && place.user in t.users && place !in rows && WellFormed(keys) && Holdable(t, place, keys, None)
  }

  /** Somebody else's row gets other keys, through the same grant. */
  predicate Replaceable(t: Tenant, rows: map<Place, Row>, caller: Option<Id>, place: Place, keys: seq<Key>) {
    && caller.Some? && caller.value != place.user
    && place.user in t.users && place in rows && WellFormed(keys) && Holdable(t, place, keys, rows[place].via)
  }

  /** Which parts of the transaction reach the database, and how the commit ends. */
  datatype Faults = Faults(begins: bool, queries: bool, writes: bool, audits: bool, commit: Fate)

  /** Every statement of the transaction gets through. */
  predicate Executes(records: bool, f: Faults) {
    f.begins && f.queries && f.writes && (records ==> f.audits)
  }

  // The three operations, as what they commit.

  /** A caller may not change their own roles. */
  function CallerFault(caller: Option<Id>, place: Place): Option<Fault> {
    if caller.None? then Some(NoCaller) else if caller.value == place.user then Some(SelfService) else None
  }

  function GrantFault(t: Tenant, rows: map<Place, Row>, place: Place, keys: seq<Key>): Option<Fault> {
    if place.user !in t.users then Some(NotFound)
    else if KeyFault(keys).Some? then KeyFault(keys)
    else if RowFault(t, place, Row(keys, None)).Some? then RowFault(t, place, Row(keys, None))
    else if place in rows then Some(AlreadyGranted)
    else None
  }

  function ReplaceFault(t: Tenant, rows: map<Place, Row>, place: Place, keys: seq<Key>): Option<Fault> {
    if place.user !in t.users then Some(NotFound)
    else if place !in rows then Some(NotFound)
    else if KeyFault(keys).Some? then KeyFault(keys)
    else RowFault(t, place, Row(keys, rows[place].via))
  }

  function RevokeFault(t: Tenant, rows: map<Place, Row>, place: Place): Option<Fault> {
    if place.user !in t.users || place !in rows then Some(NotFound) else None
  }

  /** Every part of the transaction gets through, and the commit takes effect. */
  predicate GoesThrough(records: bool, f: Faults) {
    f.begins && f.queries && f.writes && (records ==> f.audits) && Applied(f.commit)
  }

  function Recorded(records: bool, events: seq<Event>, e: Event): seq<Event> {
    if records then events + [e] else events
  }

  function AfterGrant(t: Tenant, s: Store, records: bool, caller: Option<Id>, place: Place, keys: seq<Key>, f: Faults)
    : Store
  {
    if CallerFault(caller, place).Some? || GrantFault(t, s.rows, place, keys).Some? || !GoesThrough(records, f) then s
    else Store(s.rows[place := Row(keys, None)], Recorded(records, s.events, Assigned(place, keys, [])))
  }

  function AfterReplacement(
    t: Tenant, s: Store, records: bool, caller: Option<Id>, place: Place, keys: seq<Key>, f: Faults): Store
  {
    if CallerFault(caller, place).Some? || ReplaceFault(t, s.rows, place, keys).Some? || !GoesThrough(records, f) then s
    else
      var before := s.rows[place];
      Store(s.rows[place := before.(keys := keys)],
            Recorded(records, s.events, Assigned(place, Minus(keys, before.keys), Minus(before.keys, keys))))
  }

  function AfterRevocation(t: Tenant, s: Store, records: bool, place: Place, f: Faults): Store {
    if RevokeFault(t, s.rows, place).Some? || !GoesThrough(records, f) then s
    else Store(s.rows - {place}, Recorded(records, s.events, Revoked(place, s.rows[place].keys)))
  }

  /** A grant commits one row and its event, exactly for somebody else's first row with keys the project defines. */
  lemma GrantIff(
    t: Tenant, s: Store, records: bool, caller: Option<Id>, place: Place, keys: seq<Key>, f: Faults)
    ensures CallerFault(caller, place).None? && GrantFault(t, s.rows, place, keys).None? <==>
      Grantable(t, s.rows, caller, place, keys)
    ensures AfterGrant(t, s, records, caller, place, keys, f) ==
      if Grantable(t, s.rows, caller, place, keys) && Executes(records, f) && f.commit != FailedLost
      then Store(s.rows[place := Row(keys, None)], if records then s.events + [Assigned(place, keys, [])] else s.events)
      else s
  {
    RowFaultIff(t, place, Row(keys, None));
  }

  /** A replacement commits the new keys through the row's own grant, and exactly what was added and removed. */
  lemma ReplacementIff(
    t: Tenant, s: Store, records: bool, caller: Option<Id>, place: Place, keys: seq<Key>, f: Faults)
    ensures CallerFault(caller, place).None? && ReplaceFault(t, s.rows, place, keys).None? <==>
      Replaceable(t, s.rows, caller, place, keys)
    ensures
      var after := AfterReplacement(t, s, records, caller, place, keys, f);
      if Replaceable(t, s.rows, caller, place, keys) && Executes(records, f) && f.commit != FailedLost
      then
        var was := s.rows[place];
        && after.rows == s.rows[place := Row(keys, was.via)]
        && after.events ==
             if records then s.events + [Assigned(place, Minus(keys, was.keys), Minus(was.keys, keys))] else s.events
      else after == s
  {
    if place in s.rows {
      RowFaultIff(t, place, Row(keys, s.rows[place].via));
    }
  }

  /** A revocation takes away one row and records all its keys. */
  lemma RevocationIff(t: Tenant, s: Store, records: bool, place: Place, f: Faults)
    ensures AfterRevocation(t, s, records, place, f) ==
      if place.user in t.users && place in s.rows && Executes(records, f) && f.commit != FailedLost
      then Store(map p | p in s.rows && p != place :: s.rows[p],
                 if records then s.events + [Revoked(place, s.rows[place].keys)] else s.events)
      else s
  {
    assert (map p | p in s.rows && p != place :: s.rows[p]) == s.rows - {place};
  }

  // The handler.

  class Handler {
    var rows: map<Place, Row>
    var events: seq<Event>
    /** The places whose cached decisions were dropped, oldest first. */
    var invalidated: seq<Place>
    const records: bool
    const caches: bool

    constructor (records: bool, caches: bool)
      ensures this.records == records && this.caches == caches
      ensures rows == map[] && events == [] && invalidated == []
    {
      this.records, this.caches := records, caches;
      rows, events, invalidated := map[], [], [];
    }

    ghost function Committed(): Store
      reads this
    {
      Store(rows, events)
    }

    /**
     The end of a transaction that changed the rows from `before` and wants `e` recorded: the audit write,
     then the commit; either failing undoes the rows.  The cache is told after the commit, if it is known.
    */
    method Finish(before: map<Place, Row>, e: Event, f: Faults) returns (ok: bool)
      modifies this
      ensures ok == ((records ==> f.audits) && f.commit.Acknowledged?)
      ensures Committed() ==
        if (records ==> f.audits) && Applied(f.commit) then Store(old(rows), Recorded(records, old(events), e))
        else Store(before, old(events))
      ensures invalidated == if ok && caches then old(invalidated) + [e.place] else old(invalidated)
    {
      if records && !f.audits {
        rows := before;
        return false;
      }
      if !Applied(f.commit) {
        rows := before;
        return false;
      }
      if records {
        events := events + [e];
      }
      ok := f.commit.Acknowledged?;
      if ok && caches {
        invalidated := invalidated + [e.place];
      }
    }

    method GrantRoles(t: Tenant, caller: Option<Id>, place: Place, keys: seq<Key>, f: Faults)
      returns (r: Result<Row, Fault>)
      modifies this
      ensures Committed() == AfterGrant(t, old(Committed()), records, caller, place, keys, f)
      ensures r.Success? ==> r.value == Row(keys, None) && place in rows && rows[place] == r.value
      ensures caller.None? ==> r == Failure(NoCaller)
      ensures caller == Some(place.user) ==> r == Failure(SelfService)
      ensures r.Success? <==>
        Grantable(t, old(rows), caller, place, keys) && Executes(records, f) && f.commit == Acknowledged
      ensures r.Failure? && r.error != Unavailable ==>
        Some(r.error) == CallerFault(caller, place) || Some(r.error) == GrantFault(t, old(rows), place, keys)
      ensures invalidated == if r.Success? && caches then old(invalidated) + [place] else old(invalidated)
    {
      GrantIff(t, Committed(), records, caller, place, keys, f);
      if CallerFault(caller, place).Some? {
        return Failure(CallerFault(caller, place).value);
      }
      if !f.begins || !f.queries {
        return Failure(Unavailable);
      }
      if place.user !in t.users {
        return Failure(NotFound);
      }
      var invalid := ValidateKeys(keys);
      if invalid.Some? {
        return Failure(invalid.value);
      }
      if !f.writes {
        return Failure(Unavailable);
      }
      var refused := RowFault(t, place, Row(keys, None));
      if refused.Some? {
        return Failure(refused.value);
      }
      if place in rows {
        return Failure(AlreadyGranted);
      }
      var before := rows;
      rows := rows[place := Row(keys, None)];
      var ok := Finish(before, Assigned(place, keys, []), f);
      return if ok then Success(Row(keys, None)) else Failure(Unavailable);
    }

    method ReplaceGrant(t: Tenant, caller: Option<Id>, place: Place, keys: seq<Key>, f: Faults)
      returns (r: Result<Row, Fault>)
      modifies this
      ensures Committed() == AfterReplacement(t, old(Committed()), records, caller, place, keys, f)
      ensures r.Success? ==> place in old(rows) && r.value == Row(keys, old(rows)[place].via)
      ensures caller.None? ==> r == Failure(NoCaller)
      ensures caller == Some(place.user) ==> r == Failure(SelfService)
      ensures r.Success? <==>
        Replaceable(t, old(rows), caller, place, keys) && Executes(records, f) && f.commit == Acknowledged
      ensures r.Failure? && r.error != Unavailable ==>
        Some(r.error) == CallerFault(caller, place) || Some(r.error) == ReplaceFault(t, old(rows), place, keys)
      ensures invalidated == if r.Success? && caches then old(invalidated) + [place] else old(invalidated)
    {
      ReplacementIff(t, Committed(), records, caller, place, keys, f);
      if CallerFault(caller, place).Some? {
        return Failure(CallerFault(caller, place).value);
      }
      if !f.begins || !f.queries {
        return Failure(Unavailable);
      }
      if place.user !in t.users || place !in rows {
        return Failure(NotFound);
      }
      var was := rows[place];
      var invalid := ValidateKeys(keys);
      if invalid.Some? {
        return Failure(invalid.value);
      }
      if !f.writes {
        return Failure(Unavailable);
      }
      var refused := RowFault(t, place, Row(keys, was.via));
      if refused.Some? {
        return Failure(refused.value);
      }
      var before := rows;
      rows := rows[place := was.(keys := keys)];
      var added, removed := Difference(was.keys, keys);
      var ok := Finish(before, Assigned(place, added, removed), f);
      return if ok then Success(was.(keys := keys)) else Failure(Unavailable);
    }

    /** Anybody who may administer grants may drop their own. */
    method RevokeGrant(t: Tenant, place: Place, f: Faults) returns (r: Result<(), Fault>)
      modifies this
      ensures Committed() == AfterRevocation(t, old(Committed()), records, place, f)
      ensures r.Success? ==> place !in rows
      ensures r.Success? <==>
        place.user in t.users && place in old(rows) && Executes(records, f) && f.commit == Acknowledged
      ensures r.Failure? && r.error != Unavailable ==> Some(r.error) == RevokeFault(t, old(rows), place)
      ensures invalidated == if r.Success? && caches then old(invalidated) + [place] else old(invalidated)
    {
      if !f.begins || !f.queries {
        return Failure(Unavailable);
      }
      if place.user !in t.users {
        return Failure(NotFound);
      }
      if !f.writes {
        return Failure(Unavailable);
      }
      if place !in rows {
        return Failure(NotFound);
      }
      var was := rows[place];
      var before := rows;
      rows := rows - {place};
      var ok := Finish(before, Revoked(place, was.keys), f);
      return if ok then Success(()) else Failure(Unavailable);
    }
  }

  // The trail.

  /** What an investigator gets by replaying the events about one user in one project. */
  function Replay(events: seq<Event>, p: Place): set<Key> {
    if events == [] then {}
    else
      var before, e := Replay(events[..|events| - 1], p), events[|events| - 1];
      if e.place != p then before
      else
        match e
        case Assigned(_, added, removed) => (before - Keys(removed)) + Keys(added)
        case Revoked(_, removed) => before - Keys(removed)
  }

  datatype Op =
    | Grant(tenant: Tenant, caller: Option<Id>, place: Place, keys: seq<Key>, faults: Faults)
    | Replace(tenant: Tenant, caller: Option<Id>, place: Place, keys: seq<Key>, faults: Faults)
    | Revoke(tenant: Tenant, place: Place, faults: Faults)
    | Elsewhere(place: Place, row: Option<Row>)

  /** Recorded transactions one after another; `Elsewhere` is any other writer of the table, whose trail is its own. */
  function After(s: Store, op: Op): Store {
    match op
    case Grant(t, caller, place, keys, f) => AfterGrant(t, s, true, caller, place, keys, f)
    case Replace(t, caller, place, keys, f) => AfterReplacement(t, s, true, caller, place, keys, f)
    case Revoke(t, place, f) => AfterRevocation(t, s, true, place, f)
    case Elsewhere(place, row) =>
      s.(rows := if row.Some? then s.rows[place := row.value] else s.rows - {place})
  }

  function AfterAll(s: Store, ops: seq<Op>): Store
    decreases |ops|
  {
    if ops == [] then s else AfterAll(After(s, ops[0]), ops[1..])
  }

  /** The trail of `p` is its row: the same keys, and a row exactly when there is one. */
  predicate Replays(s: Store, p: Place) {
    && Replay(s.events, p) == (if p in s.rows then Keys(s.rows[p].keys) else {})
    && (p in s.rows ==> s.rows[p].keys != [] && |s.rows[p].keys| <= MAX_KEYS && Distinct(s.rows[p].keys))
  }

  lemma OneMoreEvent(events: seq<Event>, e: Event, p: Place)
    ensures e.place != p ==> Replay(events + [e], p) == Replay(events, p)
    ensures e.place == p && e.Assigned? ==>
      Replay(events + [e], p) == (Replay(events, p) - Keys(e.removed)) + Keys(e.added)
    ensures e.place == p && e.Revoked? ==> Replay(events + [e], p) == Replay(events, p) - Keys(e.removed)
  {
    assert (events + [e])[..|events|] == events;
  }

  lemma GrantKeepsTheTrail(t: Tenant, s: Store, caller: Option<Id>, place: Place, keys: seq<Key>, f: Faults, p: Place)
    requires Replays(s, p)
    ensures Replays(AfterGrant(t, s, true, caller, place, keys, f), p)
  {
    OneMoreEvent(s.events, Assigned(place, keys, []), p);
    assert Keys([]) == {};
  }

  /** Replaying a replacement turns the old keys into the new ones. */
  lemma ReplayOfReplacement(events: seq<Event>, place: Place, was: seq<Key>, keys: seq<Key>)
    requires Replay(events, place) == Keys(was)
    ensures Replay(events + [Assigned(place, Minus(keys, was), Minus(was, keys))], place) == Keys(keys)
  {
    OneMoreEvent(events, Assigned(place, Minus(keys, was), Minus(was, keys)), place);
    DifferenceReplays(was, keys);
  }

  lemma ReplacementKeepsTheTrail(
    t: Tenant, s: Store, caller: Option<Id>, place: Place, keys: seq<Key>, f: Faults, p: Place)
    requires Replays(s, p)
    ensures Replays(AfterReplacement(t, s, true, caller, place, keys, f), p)
  {
    ReplacementIff(t, s, true, caller, place, keys, f);
    var after := AfterReplacement(t, s, true, caller, place, keys, f);
    if after != s {
      var was := s.rows[place].keys;
      if place == p {
        ReplayOfReplacement(s.events, place, was, keys);
        assert Replay(after.events, p) == Keys(after.rows[p].keys);
      } else {
        OneMoreEvent(s.events, Assigned(place, Minus(keys, was), Minus(was, keys)), p);
      }
    }
  }

  lemma RevocationKeepsTheTrail(t: Tenant, s: Store, place: Place, f: Faults, p: Place)
    requires Replays(s, p)
    ensures Replays(AfterRevocation(t, s, true, place, f), p)
  {
    if place in s.rows {
      OneMoreEvent(s.events, Revoked(place, s.rows[place].keys), p);
    }
  }

  lemma OpKeepsTheTrail(s: Store, op: Op, p: Place)
    requires Replays(s, p) && (op.Elsewhere? ==> op.place != p)
    ensures Replays(After(s, op), p)
  {
    match op
    case Grant(t, caller, place, keys, f) => GrantKeepsTheTrail(t, s, caller, place, keys, f, p);
    case Replace(t, caller, place, keys, f) => ReplacementKeepsTheTrail(t, s, caller, place, keys, f, p);
    case Revoke(t, place, f) => RevocationKeepsTheTrail(t, s, place, f, p);
    case Elsewhere(_, _) =>
  }

  /**
   After any run of grants, replacements and revocations, whatever is refused and whatever fails, replaying
   the events of a user and project gives exactly the keys stored for them, and there is a row exactly when
   that set is not empty.
  */
  lemma {:induction false} TrailIsTheTable(s: Store, ops: seq<Op>, p: Place)
    requires Replays(s, p)
    requires forall i :: 0 <= i < |ops| && ops[i].Elsewhere? ==> ops[i].place != p
    ensures
      var s' := AfterAll(s, ops);
      && Replays(s', p)
      && (p in s'.rows <==> Replay(s'.events, p) != {})
    decreases |ops|
  {
    if ops == [] {
      if p in s.rows {
        assert s.rows[p].keys[0] in Replay(s.events, p);
      }
    } else {
      OpKeepsTheTrail(s, ops[0], p);
      TrailIsTheTable(After(s, ops[0]), ops[1..], p);
    }
  }
}
