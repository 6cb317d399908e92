/**
 Password sign-in against the users table, and the upgrade of a stored hash that a successful sign-in may
 bring.  The rows are those row-level security shows the tenant; addresses are in their normalised form.
*/
module UserStore {
  import opened Base64
  import opened PasswordHash
  import opened Wrappers

  type Id = string

  /** `hash` is empty where the column is null. */
  datatype User = User(address: string, active: bool, hash: string, passwordChangedAt: Option<int>, updatedAt: int)

  type Rows = map<Id, User>

  const MAX_ADDRESS := 320

  /** What one Argon2 computation costs. */
  datatype Work = Work(time: U32, memory: U32, parallelism: Byte, keyLength: U32)

  function CostOf(p: Params): Work {
    Work(p.time, p.memory, p.parallelism, p.keyLength)
  }

  /** `user` is None when no row has the address. */
  datatype Attempt = Attempt(user: Option<Id>, verified: bool, needsRehash: bool)

  datatype LookupError = LookupFailed | BrokenHash(user: Id, cause: HashError)

  predicate Addressable(address: string) {
    0 < |address| <= MAX_ADDRESS
  }

  predicate Known(rows: Rows, address: string) {
    Addressable(address) && exists id :: id in rows && rows[id].address == address
  }

  /** One address, one row: the unique index. */
  ghost predicate AddressesAreUnique(rows: Rows) {
    forall i, j :: i in rows && j in rows && rows[i].address == rows[j].address ==> i == j
  }

  /** The password opens the stored hash. */
  predicate Matches(kdf: Kdf, hash: string, password: Bytes) {
    Decode(hash).Success? &&
    var d := Decode(hash).value;
    kdf(password, d.salt, d.params.time, d.params.memory, d.params.parallelism, d.params.keyLength) == d.key
  }

  predicate Weak(hash: string, current: Params) {
    Decode(hash).Success? && WeakerThan(Decode(hash).value.params, current)
  }

  /** The answer for a row that was found: right or wrong password, or a hash that cannot be used. */
  function Checked(kdf: Kdf, id: Id, hash: string, password: Bytes, current: Params): Result<Attempt, LookupError> {
    if hash != "" && Decode(hash).Failure? then Failure(BrokenHash(id, Decode(hash).error))
    else Success(Attempt(Some(id), Matches(kdf, hash, password), Matches(kdf, hash, password) && Weak(hash, current)))
  }

  /** A usable hash is checked at its own cost, a missing one at the current cost, a broken one at none. */
  function Effort(hash: string, current: Params): seq<Work> {
    if hash == "" then [CostOf(current)]
    else if Decode(hash).Failure? then []
    else [CostOf(Decode(hash).value.params)]
  }

  /** The stored hash costs what a hash made today would. */
  predicate AtTodaysCost(hash: string, current: Params) {
    hash == "" ||
    (&& Decode(hash).Success?
     && var p := Decode(hash).value.params;
        p.time == current.time && p.memory == current.memory && p.parallelism == current.parallelism &&
        p.keyLength == current.keyLength)
  }

  /** One computation of the current cost is made exactly for a row without a hash, or with one at today's cost. */
  lemma EffortIsTodaysIff(hash: string, current: Params)
    ensures Effort(hash, current) == [CostOf(current)] <==> AtTodaysCost(hash, current)
  {
    if hash != "" && Decode(hash).Success? {
      assert Effort(hash, current)[0] == CostOf(Decode(hash).value.params);
    }
  }

  /** So a hash made under other costs is checked at those: the promise of equal cost fails for every such row. */
  lemma OlderHashCostsWhatItDid(kdf: Kdf, password: Bytes, older: Params, salt: Bytes, current: Params)
    requires GivesKeysOfTheLength(kdf) && |salt| == older.saltLength && 0 < |password| <= MAX_PASSWORD
    requires InRange(older) && CostOf(older) != CostOf(current)
    ensures
      var made := HashWith(kdf, password, older, Some(salt));
      && made.Success?
      && Effort(made.value, current) == [Work(older.time, older.memory, older.parallelism, older.keyLength)]
      && Effort(made.value, current) != [Work(current.time, current.memory, current.parallelism, current.keyLength)]
  {
    var key := kdf(password, salt, older.time, older.memory, older.parallelism, older.keyLength);
    DecodeOfEncode(older, salt, key);
    assert older.(saltLength := |salt|, keyLength := |key|) == older;
    NoHashIsEmpty();
    assert [CostOf(older)][0] != [CostOf(current)][0];
  }

  /** The hash stored after an admitted sign-in. */
  function AfterLogin(kdf: Kdf, hash: string, password: Bytes, current: Params, salt: Option<Bytes>, stores: bool)
    : string
    requires salt.Some? ==> |salt.value| == current.saltLength
  {
    var remade := HashWith(kdf, password, current, salt);
    if Matches(kdf, hash, password) && Weak(hash, current) && remade.Success? && stores then remade.value else hash
  }

  /** An active, admitted row at that address, whose hash the password opens. */
  predicate Opens(kdf: Kdf, row: User, address: string, password: Bytes, admits: User -> bool) {
    row.address == address && row.active && admits(row) && Matches(kdf, row.hash, password)
  }

  /** Some stored cost is below today's. */
  predicate Below(hash: string, today: Params) {
    && Decode(hash).Success?
    && var p := Decode(hash).value.params;
       || p.memory < today.memory || p.time < today.time || p.parallelism < today.parallelism
       || p.keyLength < today.keyLength
  }

  /** The row after an admitted sign-in: the password's age is not touched by a new hash of it. */
  function AfterSignIn(
    kdf: Kdf, row: User, password: Bytes, current: Params, salt: Option<Bytes>, now: int, stores: bool): User
    requires salt.Some? ==> |salt.value| == current.saltLength
  {
    var remade := HashWith(kdf, password, current, salt);
    if Weak(row.hash, current) && remade.Success? && stores then row.(hash := remade.value, updatedAt := now) else row
  }

  /** When a row is rewritten, and with what. */
  lemma RewrittenIff(
    kdf: Kdf, row: User, password: Bytes, current: Params, salt: Option<Bytes>, now: int, stores: bool)
    requires salt.Some? ==> |salt.value| == current.saltLength
    ensures
      var after := AfterSignIn(kdf, row, password, current, salt, now, stores);
      if Below(row.hash, current) && stores && salt.Some? && 0 < |password| <= 1024 &&
         current.time >= 1 && current.parallelism >= 1
      then
        var key := kdf(password, salt.value, current.time, current.memory, current.parallelism, current.keyLength);
        var hash := PasswordHash.Encode(current, salt.value, key);
        after == User(row.address, row.active, hash, row.passwordChangedAt, now)
      else after == row
    ensures Matches(kdf, row.hash, password) ==>
      AfterSignIn(kdf, row, password, current, salt, now, stores).hash ==
        AfterLogin(kdf, row.hash, password, current, salt, stores)
  {
  }

  lemma AddressesStayUnique(rows: Rows, id: Id, row: User)
    requires AddressesAreUnique(rows) && id in rows && row.address == rows[id].address
    ensures AddressesAreUnique(rows[id := row])
  {
  }

  lemma NoHashIsEmpty()
    ensures Decode("").Failure?
  {
  }

  class Table {
    var rows: Rows

    /** `up`: the query reaches the database. `work` lists the Argon2 computations made. */
    method Authenticate(kdf: Kdf, address: string, password: Bytes, current: Params, up: bool)
      returns (r: Result<Attempt, LookupError>, work: seq<Work>)
      requires AddressesAreUnique(rows)
      ensures Addressable(address) && !up ==> r == Failure(LookupFailed) && work == []
      ensures !Known(rows, address) && (up || !Addressable(address)) ==>
        && r == Success(Attempt(None, false, false))
        && work == [Work(current.time, current.memory, current.parallelism, current.keyLength)]
      ensures up && Addressable(address) ==>
        forall id :: id in rows && rows[id].address == address ==>
          && r == Checked(kdf, id, rows[id].hash, password, current) && work == Effort(rows[id].hash, current)
          && (r.Failure? <==> rows[id].hash != "" && Decode(rows[id].hash).Failure?)
          && (r.Success? ==>
                var right := Matches(kdf, rows[id].hash, password);
                r.value == Attempt(Some(id), right, right && Below(rows[id].hash, current)))
      ensures work == [CostOf(current)] <==>
        || !Addressable(address)
        || (up && forall id :: id in rows && rows[id].address == address ==> AtTodaysCost(rows[id].hash, current))
    {
      if !Addressable(address) {
        return Success(Attempt(None, false, false)), [CostOf(current)];
      }
      if !up {
        return Failure(LookupFailed), [];
      }
      if !Known(rows, address) {
        return Success(Attempt(None, false, false)), [CostOf(current)];
      }
      var id :| id in rows && rows[id].address == address;
      var stored := rows[id].hash;
      NoHashIsEmpty();
      EffortIsTodaysIff(stored, current);
      if stored == "" {
        return Success(Attempt(Some(id), false, false)), [CostOf(current)];
      }
      var v := Verify(kdf, stored, password, current);
      if v.Failure? {
        return Failure(BrokenHash(id, v.error)), [];
      }
      return Success(Attempt(Some(id), v.value.matches, v.value.needsRehash)), [CostOf(Decode(stored).value.params)];
    }

    /** The stored hash changes, and nothing else but the row's own timestamp: not the password's age. */
    method RecordRehash(kdf: Kdf, id: Id, password: Bytes, current: Params, salt: Option<Bytes>, now: int, stores: bool)
      returns (ok: bool)
      requires salt.Some? ==> |salt.value| == current.saltLength
      modifies this
      ensures ok == (HashWith(kdf, password, current, salt).Success? && stores)
      ensures rows == if !ok || id !in old(rows) then old(rows)
                      else old(rows)[id := old(rows)[id].(hash := HashWith(kdf, password, current, salt).value,
                                                          updatedAt := now)]
    {
      var h := HashWith(kdf, password, current, salt);
      if h.Failure? || !stores {
        return false;
      }
      if id in rows {
        rows := rows[id := rows[id].(hash := h.value, updatedAt := now)];
      }
      return true;
    }

    /**
     The password step as far as the row goes: verify, refuse an inactive or expired account, upgrade the
     hash if it is weak.  A failed upgrade does not refuse the sign-in.
    */
    method SignIn(kdf: Kdf, address: string, password: Bytes, current: Params, admits: User -> bool,
                  salt: Option<Bytes>, now: int, up: bool, stores: bool)
      returns (signedIn: Option<Id>)
      requires AddressesAreUnique(rows)
      requires salt.Some? ==> |salt.value| == current.saltLength
      modifies this
      ensures AddressesAreUnique(rows) && rows.Keys == old(rows).Keys
      ensures signedIn.Some? ==> signedIn.value in old(rows)
      ensures forall id :: id in old(rows) ==>
        (signedIn == Some(id) <==> up && 0 < |address| <= 320 && Opens(kdf, old(rows)[id], address, password, admits))
      ensures rows == if signedIn.None? then old(rows)
                      else
                        var was := old(rows)[signedIn.value];
                        old(rows)[signedIn.value := AfterSignIn(kdf, was, password, current, salt, now, stores)]
    {
      var user, needsRehash := Verified(kdf, address, password, current, up);
      if user.None? || !rows[user.value].active || !admits(rows[user.value]) {
        return None;
      }
      AddressesStayUnique(rows, user.value, AfterSignIn(kdf, rows[user.value], password, current, salt, now, stores));
      Upgrade(kdf, user.value, password, current, salt, now, stores, needsRehash);
      return user;
    }

    /** The user whose password it is; a broken hash is refused like a wrong password. */
    method Verified(kdf: Kdf, address: string, password: Bytes, current: Params, up: bool)
      returns (user: Option<Id>, needsRehash: bool)
      requires AddressesAreUnique(rows)
      ensures user.Some? ==> user.value in rows && needsRehash == Weak(rows[user.value].hash, current)
      ensures forall id :: id in rows ==>
        (user == Some(id) <==>
           up && Addressable(address) && rows[id].address == address && Matches(kdf, rows[id].hash, password))
    {
      var r, _ := Authenticate(kdf, address, password, current, up);
      if r.Failure? || !r.value.verified {
        return None, false;
      }
      return r.value.user, r.value.needsRehash;
    }

    /** The rehash of a sign-in that was admitted; its failure is only logged. */
    method Upgrade(kdf: Kdf, id: Id, password: Bytes, current: Params, salt: Option<Bytes>, now: int, stores: bool,
                   needed: bool)
      requires id in rows && Matches(kdf, rows[id].hash, password) && needed == Weak(rows[id].hash, current)
      requires salt.Some? ==> |salt.value| == current.saltLength
      modifies this
      ensures
        var after := AfterSignIn(kdf, old(rows)[id], password, current, salt, now, stores);
        rows == old(rows)[id := after]
    {
      if needed {
        var _ := RecordRehash(kdf, id, password, current, salt, now, stores);
      }
    }
  }
}
