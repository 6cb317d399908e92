/**
 Stored password hashes: the PHC string, and hashing and verifying against an Argon2id (RFC 9106) that
 is any deterministic function giving keys of the length asked for.
*/
module PasswordHash {
  import opened Base64
  import opened Text
  import opened Wrappers

  const U32_MAX := 0xFFFF_FFFF

  type U32 = n: int | 0 <= n <= U32_MAX

  datatype Params = Params(memory: U32, time: U32, parallelism: Byte, saltLength: U32, keyLength: U32)

  const ALGORITHM := "argon2id"
  const VERSION: nat := 19

  const MIN_SALT := 8
  const MAX_SALT := 64
  const MIN_KEY := 16
  const MAX_KEY := 64
  const MAX_PASSWORD := 1024

  datatype Parsed = Parsed(params: Params, salt: Bytes, key: Bytes)

  datatype HashError = InvalidHash | IncompatibleVersion

  // The printer.

  function Costs(p: Params): string {
    "m=" + Decimal(p.memory) + ",t=" + Decimal(p.time) + ",p=" + Decimal(p.parallelism)
  }

  function Encode(p: Params, salt: Bytes, key: Bytes): string {
    "$" + ALGORITHM + "$v=" + Decimal(VERSION) + "$" + Costs(p) + "$" + Base64.Encode(salt) + "$" + Base64.Encode(key)
  }

  // The parser.

  function ScanVersion(s: string): Option<int> {
    match ScanLiteral(s, "v=")
    case None => None
    case Some(rest) =>
      match ScanInt(rest)
      case None => None
      case Some((v, _)) => Some(v)
  }

  /** One cost field: its label, its number, and what is left. */
  function ScanField(s: string, name: string, max: nat): (r: Option<(nat, string)>)
    ensures r.Some? ==> r.value.0 <= max
  {
    match ScanLiteral(s, name)
    case None => None
    case Some(rest) => ScanUint(rest, max)
  }

  /** Text after the last number is not looked at. */
  function ScanCosts(s: string): Option<(U32, U32, Byte)> {
    match ScanField(s, "m=", U32_MAX)
    case None => None
    case Some((memory, s1)) =>
      match ScanField(s1, ",t=", U32_MAX)
      case None => None
      case Some((time, s2)) =>
        match ScanField(s2, ",p=", 255)
        case None => None
        case Some((parallelism, _)) => Some((memory, time, parallelism))
  }

  /** Unpadded base64 of between `min` and `max` bytes. */
  function BytesWithin(s: string, min: nat, max: nat): (r: Option<Bytes>)
    ensures r.Some? ==> min <= |r.value| <= max
  {
    match DecodeStrict(s)
    case None => None
    case Some(b) => if min <= |b| <= max then Some(b) else None
  }

  function Decode(encoded: string): Result<Parsed, HashError> {
    DecodeParts(Split(encoded, '$'))
  }

  function DecodeParts(parts: seq<string>): Result<Parsed, HashError> {
    if |parts| != 6 || parts[0] != "" then Failure(InvalidHash)
    else if parts[1] != ALGORITHM then Failure(InvalidHash)
    else if ScanVersion(parts[2]).None? then Failure(InvalidHash)
    else if ScanVersion(parts[2]).value != VERSION then Failure(IncompatibleVersion)
    else DecodeFields(ScanCosts(parts[3]), parts[4], parts[5])
  }

  function DecodeFields(costs: Option<(U32, U32, Byte)>, salt64: string, key64: string): Result<Parsed, HashError> {
    match costs
    case None => Failure(InvalidHash)
    case Some((memory, time, parallelism)) =>
      if memory == 0 || time == 0 || parallelism == 0 then Failure(InvalidHash)
      else
        match (BytesWithin(salt64, MIN_SALT, MAX_SALT), BytesWithin(key64, MIN_KEY, MAX_KEY))
        case (Some(salt), Some(key)) =>
          Success(Parsed(Params(memory, time, parallelism, |salt|, |key|), salt, key))
        case _ => Failure(InvalidHash)
  }

  // The round trip.

  predicate Usable(memory: U32, time: U32, parallelism: Byte, saltLength: nat, keyLength: nat) {
    && memory >= 1 && time >= 1 && parallelism >= 1
    && MIN_SALT <= saltLength <= MAX_SALT && MIN_KEY <= keyLength <= MAX_KEY
  }

  predicate InRange(p: Params) {
    Usable(p.memory, p.time, p.parallelism, p.saltLength, p.keyLength)
  }

  lemma FieldReadsBack(name: string, n: nat, rest: string, max: nat)
    requires n <= max && (rest == "" || !IsDigit(rest[0]))
    ensures ScanField(name + Decimal(n) + rest, name, max) == Some((n, rest))
  {
    var s := name + Decimal(n) + rest;
    assert s == name + (Decimal(n) + rest);
    assert s[|name|..] == Decimal(n) + rest;
    ScanOfDecimal(n, rest, max);
  }

  /** The costs read back whatever follows them, so a hash has other spellings than the printed one. */
  lemma CostsReadBack(p: Params, tail: string)
    requires tail == "" || !IsDigit(tail[0])
    ensures ScanCosts(Costs(p) + tail) == Some((p.memory, p.time, p.parallelism))
  {
    var s2 := ",p=" + Decimal(p.parallelism) + tail;
    var s1 := ",t=" + Decimal(p.time) + s2;
    assert Costs(p) + tail == "m=" + Decimal(p.memory) + s1;
    FieldReadsBack("m=", p.memory, s1, U32_MAX);
    FieldReadsBack(",t=", p.time, s2, U32_MAX);
    FieldReadsBack(",p=", p.parallelism, tail, 255);
  }

  lemma PrintedCostsReadBack(p: Params)
    ensures ScanCosts(Costs(p)) == Some((p.memory, p.time, p.parallelism))
  {
    CostsReadBack(p, "");
    assert Costs(p) + "" == Costs(p);
  }

  lemma VersionReadsBack()
    ensures ScanVersion("v=" + Decimal(VERSION)) == Some(VERSION)
  {
    var s := "v=" + Decimal(VERSION);
    assert s[2..] == Decimal(VERSION) + "";
    ScanOfDecimal(VERSION, "", VERSION);
  }

  lemma {:induction false} DecimalHasNoDollar(n: nat)
    ensures '$' !in Decimal(n)
  {
    DecimalIsDigits(n);
    assert !IsDigit('$');
  }

  lemma Base64HasNoDollar(b: Bytes)
    ensures '$' !in Base64.Encode(b)
  {
    StrictOfEncode(b);
    assert Value('$').None?;
  }

  function Parts(p: Params, salt: Bytes, key: Bytes): seq<string> {
    ["", ALGORITHM, "v=" + Decimal(VERSION), Costs(p), Base64.Encode(salt), Base64.Encode(key)]
  }

  lemma PartsAreFree(p: Params, salt: Bytes, key: Bytes)
    ensures Free(Parts(p, salt, key), '$')
  {
    DecimalHasNoDollar(VERSION);
    DecimalHasNoDollar(p.memory);
    DecimalHasNoDollar(p.time);
    DecimalHasNoDollar(p.parallelism);
    Base64HasNoDollar(salt);
    Base64HasNoDollar(key);
  }

  lemma JoinOfSix(a: string, b: string, c: string, d: string, e: string, f: string, sep: string)
    ensures Join([a, b, c, d, e, f], sep) == a + sep + (b + sep + (c + sep + (d + sep + (e + sep + f))))
  {
    assert [a, b, c, d, e, f][1..] == [b, c, d, e, f];
    assert [b, c, d, e, f][1..] == [c, d, e, f];
    assert [c, d, e, f][1..] == [d, e, f];
    assert [d, e, f][1..] == [e, f];
    assert [e, f][1..] == [f];
    assert Join([e, f], sep) == e + sep + f;
    assert Join([d, e, f], sep) == d + sep + Join([e, f], sep);
    assert Join([c, d, e, f], sep) == c + sep + Join([d, e, f], sep);
    assert Join([b, c, d, e, f], sep) == b + sep + Join([c, d, e, f], sep);
  }

  lemma PrintedIsJoined(a: string, v: string, c: string, s: string, k: string)
    ensures "$" + a + "$v=" + v + "$" + c + "$" + s + "$" + k == Join(["", a, "v=" + v, c, s, k], "$")
  {
    JoinOfSix("", a, "v=" + v, c, s, k, "$");
    assert "$v=" + v == "$" + ("v=" + v);
  }

  lemma SplitOfEncode(p: Params, salt: Bytes, key: Bytes)
    ensures Split(Encode(p, salt, key), '$') == Parts(p, salt, key)
  {
    var parts := Parts(p, salt, key);
    PrintedIsJoined(ALGORITHM, Decimal(VERSION), Costs(p), Base64.Encode(salt), Base64.Encode(key));
    PartsAreFree(p, salt, key);
    SplitOfJoin(parts, '$');
  }

  lemma FieldsReadBack(p: Params, salt: Bytes, key: Bytes)
    ensures DecodeFields(Some((p.memory, p.time, p.parallelism)), Base64.Encode(salt), Base64.Encode(key)) ==
      if Usable(p.memory, p.time, p.parallelism, |salt|, |key|)
      then Success(Parsed(p.(saltLength := |salt|, keyLength := |key|), salt, key))
      else Failure(InvalidHash)
  {
    StrictOfEncode(salt);
    StrictOfEncode(key);
  }

  lemma PartsReadBack(p: Params, salt: Bytes, key: Bytes)
    ensures DecodeParts(Parts(p, salt, key)) ==
      if Usable(p.memory, p.time, p.parallelism, |salt|, |key|)
      then Success(Parsed(p.(saltLength := |salt|, keyLength := |key|), salt, key))
      else Failure(InvalidHash)
  {
    VersionReadsBack();
    PrintedCostsReadBack(p);
    FieldsReadBack(p, salt, key);
  }

  /** The string itself, as the PHC string format writes it: version 0x13, then m, t and p. */
  lemma EncodeIsPhc(p: Params, salt: Bytes, key: Bytes)
    ensures Encode(p, salt, key) ==
      "$argon2id$v=19$m=" + Decimal(p.memory) + ",t=" + Decimal(p.time) + ",p=" + Decimal(p.parallelism) + "$" +
      Base64.Encode(salt) + "$" + Base64.Encode(key)
  {
    assert Decimal(19) == Decimal(1) + [Digit(9)] == "19";
    var m, t, l, rest := Decimal(p.memory), Decimal(p.time), Decimal(p.parallelism), "$" + Base64.Encode(salt);
    assert "$" + ALGORITHM + "$v=" + "19" + "$" + "m=" == "$argon2id$v=19$m=";
    assert "$" + ALGORITHM + "$v=" + Decimal(VERSION) + "$" + Costs(p) ==
      "$argon2id$v=19$m=" + m + ",t=" + t + ",p=" + l;
  }

  /**
   Reading back what was written: the same salt, key and costs with the real lengths when there is a pass, a lane
   and some memory, eight to sixty-four bytes of salt and sixteen to sixty-four of key; and a refusal otherwise.
  */
  lemma DecodeOfEncode(p: Params, salt: Bytes, key: Bytes)
    ensures Decode(Encode(p, salt, key)) ==
      if p.memory >= 1 && p.time >= 1 && p.parallelism >= 1 && 8 <= |salt| <= 64 && 16 <= |key| <= 64
      then Success(Parsed(Params(p.memory, p.time, p.parallelism, |salt|, |key|), salt, key))
      else Failure(InvalidHash)
  {
    SplitOfEncode(p, salt, key);
    PartsReadBack(p, salt, key);
  }

  /** No two hashes share a string: even out of range, the string determines its costs, salt and key. */
  lemma EncodeIsInjective(p: Params, salt: Bytes, key: Bytes, q: Params, salt': Bytes, key': Bytes)
    requires Encode(p, salt, key) == Encode(q, salt', key')
    ensures p.memory == q.memory && p.time == q.time && p.parallelism == q.parallelism && salt == salt' && key == key'
  {
    SplitOfEncode(p, salt, key);
    SplitOfEncode(q, salt', key');
    var a, b := Parts(p, salt, key), Parts(q, salt', key');
    assert a[3] == b[3] && a[4] == b[4] && a[5] == b[5];
    PrintedCostsReadBack(p);
    PrintedCostsReadBack(q);
    StrictOfEncode(salt);
    StrictOfEncode(salt');
    StrictOfEncode(key);
    StrictOfEncode(key');
  }

  /**
   Whatever a stored string says, what is accepted is safe to hand to Argon2, has its real lengths, and
   has a canonical string that reads back to the same thing.
  */
  lemma DecodeIsCanonical(s: string)
    requires Decode(s).Success?
    ensures
      var d := Decode(s).value;
      && InRange(d.params) && d.params.saltLength == |d.salt| && d.params.keyLength == |d.key|
      && Decode(Encode(d.params, d.salt, d.key)) == Decode(s)
  {
    var d := Decode(s).value;
    DecodeOfEncode(d.params, d.salt, d.key);
  }

  /**
   What is accepted, part by part: six parts, the algorithm, version 19, three costs none of which is zero, and salt
   and key of 8 to 64 and 16 to 64 bytes.  Another version is told apart from everything else.
  */
  lemma DecodeIff(s: string)
    ensures
      var parts := Split(s, '$');
      var versioned := |parts| == 6 && parts[0] == "" && parts[1] == "argon2id" && ScanVersion(parts[2]).Some?;
      && (Decode(s) == Failure(IncompatibleVersion) <==> versioned && ScanVersion(parts[2]) != Some(19))
      && (Decode(s).Success? <==>
            && versioned && ScanVersion(parts[2]) == Some(19)
            && ScanCosts(parts[3]).Some?
            && (var (m, t, p) := ScanCosts(parts[3]).value; m >= 1 && t >= 1 && p >= 1)
            && DecodeStrict(parts[4]).Some? && 8 <= |DecodeStrict(parts[4]).value| <= 64
            && DecodeStrict(parts[5]).Some? && 16 <= |DecodeStrict(parts[5]).value| <= 64)
      && (Decode(s).Success? ==>
            var (m, t, p) := ScanCosts(parts[3]).value;
            var salt, key := DecodeStrict(parts[4]).value, DecodeStrict(parts[5]).value;
            Decode(s).value == Parsed(Params(m, t, p, |salt|, |key|), salt, key))
  {
  }

  // Hashing and verifying.

  /** Password, salt, time, memory, parallelism, key length. */
  type Kdf = (Bytes, Bytes, U32, U32, Byte, U32) -> Bytes

  ghost predicate GivesKeysOfTheLength(kdf: Kdf) {
    forall pw, salt, time, memory, parallelism, length ::
      |kdf(pw, salt, time, memory, parallelism, length)| == length
  }

  datatype HashingError = EmptyPassword | PasswordTooLong | NoEntropy | Panic

  /** Argon2 panics without a pass over memory or without a lane. */
  predicate Computable(p: Params) {
    p.time >= 1 && p.parallelism >= 1
  }

  /** `salt` is what the random source gave for a request of `p.saltLength` bytes. */
  function HashWith(kdf: Kdf, password: Bytes, p: Params, salt: Option<Bytes>): Result<string, HashingError>
    requires salt.Some? ==> |salt.value| == p.saltLength
  {
    if password == [] then Failure(EmptyPassword)
    else if |password| > MAX_PASSWORD then Failure(PasswordTooLong)
    else if salt.None? then Failure(NoEntropy)
    else if !Computable(p) then Failure(Panic)
    else Success(Encode(p, salt.value, kdf(password, salt.value, p.time, p.memory, p.parallelism, p.keyLength)))
  }

  datatype Outcome = Outcome(matches: bool, needsRehash: bool)

  predicate WeakerThan(p: Params, current: Params) {
    || p.memory < current.memory || p.time < current.time
    || p.parallelism < current.parallelism || p.keyLength < current.keyLength
  }

  function Verify(kdf: Kdf, encoded: string, password: Bytes, current: Params): Result<Outcome, HashError> {
    match Decode(encoded)
    case Failure(e) => Failure(e)
    case Success(Parsed(p, salt, want)) =>
      var got := kdf(password, salt, p.time, p.memory, p.parallelism, p.keyLength);
      if got != want then Success(Outcome(false, false)) else Success(Outcome(true, WeakerThan(p, current)))
  }

  /**
   A hash can be made from an acceptable password exactly with at least one pass and one lane.  Made with
   parameters in range it verifies the password it was made from, flags a rehash exactly when a cost is below
   the current one, and verifies another password only if Argon2 derives the same key from it; made out of
   range it can never be verified.
  */
  lemma VerifyOfHash(kdf: Kdf, password: Bytes, other: Bytes, p: Params, salt: Bytes, current: Params)
    requires GivesKeysOfTheLength(kdf) && |salt| == p.saltLength && 0 < |password| <= MAX_PASSWORD
    ensures HashWith(kdf, password, p, Some(salt)).Success? <==> p.time >= 1 && p.parallelism >= 1
    ensures p.time >= 1 && p.parallelism >= 1 ==>
      var h := HashWith(kdf, password, p, Some(salt)).value;
      var key, key' := kdf(password, salt, p.time, p.memory, p.parallelism, p.keyLength),
                       kdf(other, salt, p.time, p.memory, p.parallelism, p.keyLength);
      var behind := p.memory < current.memory || p.time < current.time || p.parallelism < current.parallelism ||
                    p.keyLength < current.keyLength;
      if p.memory >= 1 && 8 <= p.saltLength <= 64 && 16 <= p.keyLength <= 64
      then
        && Decode(h) == Success(Parsed(p, salt, key))
        && Verify(kdf, h, password, current) == Success(Outcome(true, behind))
        && Verify(kdf, h, other, current) == Success(Outcome(key' == key, key' == key && behind))
      else Verify(kdf, h, password, current) == Failure(InvalidHash)
  {
    var key := kdf(password, salt, p.time, p.memory, p.parallelism, p.keyLength);
    DecodeOfEncode(p, salt, key);
    assert p.(saltLength := |salt|, keyLength := |key|) == p;
  }

  /** What hashing refuses, in the order it looks. */
  lemma HashingRefuses(kdf: Kdf, password: Bytes, p: Params, salt: Option<Bytes>)
    requires salt.Some? ==> |salt.value| == p.saltLength
    ensures HashWith(kdf, password, p, salt) == Failure(EmptyPassword) <==> |password| == 0
    ensures HashWith(kdf, password, p, salt) == Failure(PasswordTooLong) <==> |password| > 1024
    ensures HashWith(kdf, password, p, salt) == Failure(NoEntropy) <==> 1 <= |password| <= 1024 && salt.None?
    ensures HashWith(kdf, password, p, salt) == Failure(Panic) <==>
      1 <= |password| <= 1024 && salt.Some? && (p.time == 0 || p.parallelism == 0)
  {
  }
}
