/**
 One account's stored hash over its life: sign-ins with any password, admitted or not, stored or not, and
 deployments that change the current parameters.
*/
module RehashLifecycle {
  import opened Base64
  import opened PasswordHash
  import opened UserStore
  import opened Wrappers

  datatype Account = Account(hash: string, current: Params)

  datatype Event =
    | Login(password: Bytes, admitted: bool, salt: Option<Bytes>, stores: bool)
    | Deploy(current: Params)

  /** A short read from the random source is a failed one. */
  function Drawn(salt: Option<Bytes>, length: nat): (r: Option<Bytes>)
    ensures r.Some? ==> |r.value| == length
  {
    if salt.Some? && |salt.value| == length then salt else None
  }

  predicate Rewrites(kdf: Kdf, a: Account, e: Event) {
    && e.Login? && e.admitted && e.stores
    && Matches(kdf, a.hash, e.password) && Weak(a.hash, a.current)
    && HashWith(kdf, e.password, a.current, Drawn(e.salt, a.current.saltLength)).Success?
  }

  function Next(kdf: Kdf, a: Account, e: Event): Account {
    match e
    case Deploy(current) => a.(current := current)
    case Login(password, admitted, salt, stores) =>
      if !admitted then a
      else a.(hash := AfterLogin(kdf, a.hash, password, a.current, Drawn(salt, a.current.saltLength), stores))
  }

  function Run(kdf: Kdf, a: Account, events: seq<Event>): Account
    decreases |events|
  {
    if events == [] then a else Run(kdf, Next(kdf, a, events[0]), events[1..])
  }

  function CountRewrites(kdf: Kdf, a: Account, events: seq<Event>): nat
    decreases |events|
  {
    if events == [] then 0
    else (if Rewrites(kdf, a, events[0]) then 1 else 0) + CountRewrites(kdf, Next(kdf, a, events[0]), events[1..])
  }

  function CountDeploys(events: seq<Event>): nat {
    if events == [] then 0 else (if events[0].Deploy? then 1 else 0) + CountDeploys(events[1..])
  }

  /** What reads back from a hash made with `p`: its costs, opened by its password; or nothing, out of range. */
  lemma FreshHashReadsBack(kdf: Kdf, password: Bytes, p: Params, salt: Bytes)
    requires GivesKeysOfTheLength(kdf) && |salt| == p.saltLength
    requires HashWith(kdf, password, p, Some(salt)).Success?
    ensures
      var hash := HashWith(kdf, password, p, Some(salt)).value;
      if InRange(p) then Decode(hash).Success? && Decode(hash).value.params == p && Matches(kdf, hash, password)
      else Decode(hash).Failure?
  {
    var key := kdf(password, salt, p.time, p.memory, p.parallelism, p.keyLength);
    DecodeOfEncode(p, salt, key);
    assert p.(saltLength := |salt|, keyLength := |key|) == p;
  }

  lemma RewriteIsTheFreshHash(kdf: Kdf, a: Account, e: Event)
    requires Rewrites(kdf, a, e)
    ensures
      && e.salt.Some? && |e.salt.value| == a.current.saltLength
      && HashWith(kdf, e.password, a.current, e.salt).Success?
      && Next(kdf, a, e).hash == HashWith(kdf, e.password, a.current, e.salt).value
  {
  }

  /** What a rewrite stores: today's costs, opened by the password that was typed; or nothing usable. */
  lemma RewriteStoresTodaysCosts(kdf: Kdf, a: Account, e: Event)
    requires GivesKeysOfTheLength(kdf) && Rewrites(kdf, a, e)
    ensures
      var hash := Next(kdf, a, e).hash;
      && !Weak(hash, a.current)
      && (if InRange(a.current)
          then Decode(hash).Success? && Decode(hash).value.params == a.current && Matches(kdf, hash, e.password)
          else Decode(hash).Failure?)
  {
    RewriteIsTheFreshHash(kdf, a, e);
    FreshHashReadsBack(kdf, e.password, a.current, e.salt.value);
  }

  lemma OnlyRewritesChangeTheHash(kdf: Kdf, a: Account, e: Event)
    ensures !Rewrites(kdf, a, e) ==> Next(kdf, a, e).hash == a.hash
    ensures e.Login? ==> Next(kdf, a, e).current == a.current
  {
  }

  /** No deployment in `events` asks for more than the stored hash has. */
  predicate NeverRaisedAbove(hash: string, events: seq<Event>) {
    forall i :: 0 <= i < |events| && events[i].Deploy? ==> !Weak(hash, events[i].current)
  }

  /** A hash at or above the current parameters in every cost is never rewritten, whoever signs in. */
  lemma {:induction false} StrongHashIsNeverRewritten(kdf: Kdf, a: Account, events: seq<Event>)
    requires !Weak(a.hash, a.current) && NeverRaisedAbove(a.hash, events)
    ensures Run(kdf, a, events).hash == a.hash && CountRewrites(kdf, a, events) == 0
    decreases |events|
  {
    if events != [] {
      assert events[0].Deploy? ==> !Weak(a.hash, events[0].current);
      StrongHashIsNeverRewritten(kdf, Next(kdf, a, events[0]), events[1..]);
    }
  }

  /** A stored upgrade settles the account until some deployment raises a cost. */
  lemma StoredUpgradeSettles(kdf: Kdf, a: Account, e: Event, events: seq<Event>)
    requires GivesKeysOfTheLength(kdf) && Rewrites(kdf, a, e)
    requires forall i :: 0 <= i < |events| && events[i].Deploy? ==> !WeakerThan(a.current, events[i].current)
    ensures Run(kdf, a, [e] + events).hash == Next(kdf, a, e).hash
    ensures CountRewrites(kdf, a, [e] + events) == 1
  {
    RewriteStoresTodaysCosts(kdf, a, e);
    var b := Next(kdf, a, e);
    assert forall i :: 0 <= i < |events| && events[i].Deploy? ==> !Weak(b.hash, events[i].current);
    StrongHashIsNeverRewritten(kdf, b, events);
    var all := [e] + events;
    assert all[0] == e && all[1..] == events;
  }

  /** Over any life the hash is rewritten at most once a deployment, and once more if it starts out weak. */
  lemma {:induction false} OneRewritePerDeployment(kdf: Kdf, a: Account, events: seq<Event>)
    requires GivesKeysOfTheLength(kdf)
    ensures CountRewrites(kdf, a, events) <= CountDeploys(events) + (if Weak(a.hash, a.current) then 1 else 0)
    decreases |events|
  {
    if events != [] {
      OneRewritePerDeployment(kdf, Next(kdf, a, events[0]), events[1..]);
      if Rewrites(kdf, a, events[0]) {
        RewriteStoresTodaysCosts(kdf, a, events[0]);
      }
    }
  }

  /** Every set of parameters that is ever current is in range. */
  predicate DeploysInRange(events: seq<Event>) {
    forall i :: 0 <= i < |events| && events[i].Deploy? ==> InRange(events[i].current)
  }

  /** Nobody signs in with another password that Argon2 happens to give the same key. */
  predicate NoCollision(kdf: Kdf, a: Account, events: seq<Event>, password: Bytes)
    decreases |events|
  {
    events == [] ||
    (&& (events[0].Login? && Matches(kdf, a.hash, events[0].password) ==> events[0].password == password)
     && NoCollision(kdf, Next(kdf, a, events[0]), events[1..], password))
  }

  lemma StepKeepsMatching(kdf: Kdf, a: Account, e: Event, password: Bytes)
    requires GivesKeysOfTheLength(kdf) && InRange(a.current) && Matches(kdf, a.hash, password)
    requires e.Login? && Matches(kdf, a.hash, e.password) ==> e.password == password
    ensures Matches(kdf, Next(kdf, a, e).hash, password)
  {
    if Rewrites(kdf, a, e) {
      RewriteStoresTodaysCosts(kdf, a, e);
    } else {
      OnlyRewritesChangeTheHash(kdf, a, e);
    }
  }

  /** Through upgrades and deployments the password in use goes on opening the account. */
  lemma {:induction false} PasswordInUseKeepsMatching(kdf: Kdf, a: Account, events: seq<Event>, password: Bytes)
    requires GivesKeysOfTheLength(kdf) && InRange(a.current) && DeploysInRange(events)
    requires Matches(kdf, a.hash, password) && NoCollision(kdf, a, events, password)
    ensures Matches(kdf, Run(kdf, a, events).hash, password)
    decreases |events|
  {
    if events != [] {
      StepKeepsMatching(kdf, a, events[0], password);
      assert events[0].Deploy? ==> InRange(events[0].current);
      PasswordInUseKeepsMatching(kdf, Next(kdf, a, events[0]), events[1..], password);
    }
  }

  /** The range matters: an upgrade keeps the password working exactly when the parameters are in range. */
  lemma UpgradeKeepsThePasswordIffInRange(kdf: Kdf, a: Account, e: Event)
    requires GivesKeysOfTheLength(kdf) && Rewrites(kdf, a, e)
    ensures Matches(kdf, Next(kdf, a, e).hash, e.password) <==> InRange(a.current)
  {
    RewriteStoresTodaysCosts(kdf, a, e);
  }

  /** And an account whose hash cannot be read stays shut to every password, whatever is deployed later. */
  lemma {:induction false} UnreadableHashIsForEver(kdf: Kdf, a: Account, events: seq<Event>, password: Bytes)
    requires Decode(a.hash).Failure?
    ensures Run(kdf, a, events).hash == a.hash && !Matches(kdf, Run(kdf, a, events).hash, password)
    decreases |events|
  {
    if events != [] {
      UnreadableHashIsForEver(kdf, Next(kdf, a, events[0]), events[1..], password);
    }
  }

  predicate AtLeast(p: Params, q: Params) {
    p.memory >= q.memory && p.time >= q.time && p.parallelism >= q.parallelism && p.keyLength >= q.keyLength
  }

  /** A hash is weak exactly when some cost of it is below today's; equal costs are not weak. */
  lemma WeakIff(hash: string, today: Params)
    ensures Weak(hash, today) <==> Decode(hash).Success? && !AtLeast(Decode(hash).value.params, today)
    ensures Decode(hash).Success? ==>
      var p := Decode(hash).value.params;
      AtLeast(p, today) <==>
        !(p.memory < today.memory || p.time < today.time || p.parallelism < today.parallelism ||
          p.keyLength < today.keyLength)
  {
  }

  /**
   A rewrite brings every cost to the current one, so it lowers the costs that were above it: it is no
   downgrade exactly when no stored cost exceeds the current one.
  */
  lemma UpgradeLowersNothingIff(kdf: Kdf, a: Account, e: Event)
    requires GivesKeysOfTheLength(kdf) && Rewrites(kdf, a, e) && InRange(a.current)
    ensures
      var before, after := Decode(a.hash).value.params, Decode(Next(kdf, a, e).hash);
      after.Success? && (AtLeast(after.value.params, before) <==> AtLeast(a.current, before))
  {
    RewriteStoresTodaysCosts(kdf, a, e);
  }

  /** Such mixed hashes exist: more memory and fewer passes than today loses its memory at the next sign-in. */
  lemma MixedCostsAreLowered(kdf: Kdf, salt: Bytes, password: Bytes)
    requires GivesKeysOfTheLength(kdf) && |salt| == 16 && 0 < |password| <= MAX_PASSWORD
    ensures
      var stored, today := Params(131072, 2, 4, 16, 32), Params(65536, 3, 4, 16, 32);
      var a := Account(HashWith(kdf, password, stored, Some(salt)).value, today);
      var after := Decode(Next(kdf, a, Login(password, true, Some(salt), true)).hash);
      after.Success? && after.value.params.memory < stored.memory
  {
    var stored, today := Params(131072, 2, 4, 16, 32), Params(65536, 3, 4, 16, 32);
    var a := Account(HashWith(kdf, password, stored, Some(salt)).value, today);
    VerifyOfHash(kdf, password, password, stored, salt, today);
    DecodeOfEncode(stored, salt, kdf(password, salt, 2, 131072, 4, 32));
    var e := Login(password, true, Some(salt), true);
    assert Rewrites(kdf, a, e);
    RewriteStoresTodaysCosts(kdf, a, e);
  }
}
