/**
 Checks, writers and Redis, interleaved step by step (authz/handler.go:148-203, authz/cache.go:187-377).

 A check is a reader with a program counter: each of its operations is one step, and every other
 reader, every database write and every Redis event may fall between two of them.  A SET is issued in
 one step and lands in another, or never: the client gives up on it after its own deadline, so nothing
 says when, or whether, the server applies it.  DEL, INCR and EXPIRE may happen at any moment to any
 key; that covers the writers' invalidations, invalidations that arrive late, evictions, and a flushed
 server.  A writer that loses its invalidation is one whose DEL never happens.  A database write may
 change anything; that covers the API, migrations and direct SQL.
*/
module AuthzProtocol {
  import opened Wrappers
  import opened RedisStore
  import opened AuthzKeys
  import opened AuthzCache
  import opened GrantSql
  import opened Decisions
  import opened AuthzHandler

  datatype Version = Version(at: nat, db: Database)

  /**
   Where a value came from.  History, not something Redis holds: the reader that read it, what it is
   about, the database version and the instant of the snapshot, the instant its generation was read,
   and the instant its SET landed.
  */
  datatype Origin = Origin(reader: nat, subject: Subject, version: nat, snapAt: nat, stampedAt: nat, landedAt: nat)

  const NO_ORIGIN := Origin(0, RolesOf("", ""), 0, 0, 0, 0)

  /** An input a reader holds: from the cache, or from its own query. */
  datatype Held<+T> = Held(value: T, cached: bool, origin: Origin, gotAt: nat)

  type Keys = (seq<string>, Option<GrantId>)

  /** The reader's next operation. */
  datatype Pc =
    | AskKeys
    | AskGeneration(entry: Held<Entry>)
    | AskRoles
    | QueryKeys
    | Stamp
    | PutKeys(gen: int, stampedAt: nat)
    | QueryRoles
    | PutRoles
    | Commit
    | Conclude
    | Decided(decision: Decision, at: nat)
    | Failed

  datatype Reader = Reader(
    org: Id, user: Id, project: Id, request: Request, pc: Pc,
    keys: Option<Held<Keys>>, definitions: Option<Held<Definitions>>)

  /** A SET on its way to the server. */
  datatype Put = Put(doc: Entry, origin: Origin)

  datatype StateRaw = StateRaw(
    now: nat, ttl: nat, db: seq<Version>,
    cells: Cells<Entry>, origins: map<string, Origin>, inflight: seq<Put>, readers: map<nat, Reader>)

  type State = s: StateRaw | s.db != []
    witness StateRaw(0, 0, [Version(0, Database(map[], {}, map[], map[], map[]))], map[], map[], [], map[])

  datatype Step =
    | Tick(delay: nat)
    | DbWrite(db: Database)
    | Start(r: nat, org: Id, user: Id, project: Id, request: Request)
    | Advance(r: nat, up: bool)
    | Land(i: nat)
    | Lose(i: nat)
    | Del(key: string)
    | Incr(grant: GrantId)
    | Expire(grant: GrantId)
    | Spoil(key: string, expires: Option<nat>)

  function Latest(s: State): nat { |s.db| - 1 }

  function CurrentDb(s: State): Database { s.db[Latest(s)].db }

  function GrantsAt(db: Database, user: Id, project: Id): Keys {
    var held := HoldingOf(db, user, project);
    (held.keys, held.via)
  }

  function OriginAt(s: State, key: string): Origin {
    if key in s.origins then s.origins[key] else NO_ORIGIN
  }

  function Remove<T>(xs: seq<T>, i: nat): seq<T>
    requires i < |xs|
  {
    xs[..i] + xs[i + 1..]
  }

  // One reader step each.

  function StepAskKeys(s: State, rd: Reader, up: bool): Reader {
    match FetchGrants(s.cells, s.now, rd.org, rd.user, rd.project, up)
    case None => rd.(pc := AskRoles)
    case Some(e) =>
      var origin := OriginAt(s, KeyOf(GrantsOf(rd.org, rd.user, rd.project)));
      if !e.GrantsEntry? then rd.(pc := AskRoles)
      else if e.via.Some? then rd.(pc := AskGeneration(Held(e, true, origin, s.now)))
      else rd.(pc := AskRoles, keys := Some(Held((e.keys, None), true, origin, s.now)))
  }

  /** The stored generation still is the grant's. */
  predicate Accepts(s: State, e: Entry, up: bool) {
    e.GrantsEntry? && e.via.Some? && Generation(s.cells, s.now, e.via.value, up) == e.gen
  }

  function StepAskGeneration(s: State, rd: Reader, up: bool): Reader
    requires rd.pc.AskGeneration?
  {
    var h := rd.pc.entry;
    if Accepts(s, h.value, up)
    then rd.(pc := AskRoles, keys := Some(Held((h.value.keys, h.value.via), true, h.origin, h.gotAt)))
    else rd.(pc := AskRoles)
  }

  function StepAskRoles(s: State, rd: Reader, up: bool): Reader {
    match LookupRoles(s.cells, s.now, rd.org, rd.project, up)
    case None => rd.(pc := if rd.keys.None? then QueryKeys else QueryRoles)
    case Some(roles) =>
      var h := Held(roles, true, OriginAt(s, KeyOf(RolesOf(rd.org, rd.project))), s.now);
      rd.(pc := if rd.keys.None? then QueryKeys else Conclude, definitions := Some(h))
  }

  function StepQueryKeys(s: State, r: nat, rd: Reader, up: bool): Reader {
    if !up then rd.(pc := Failed)
    else
      var keys := GrantsAt(CurrentDb(s), rd.user, rd.project);
      var origin := Origin(r, GrantsOf(rd.org, rd.user, rd.project), Latest(s), s.now, s.now, s.now);
      rd.(pc := if keys.1.Some? then Stamp else PutKeys(0, s.now), keys := Some(Held(keys, false, origin, s.now)))
  }

  function AfterKeys(rd: Reader): Pc { if rd.definitions.None? then QueryRoles else Commit }

  function StepStamp(s: State, rd: Reader, up: bool): Reader {
    if rd.keys.None? || rd.keys.value.value.1.None? then rd.(pc := Failed)
    else
      var gen := Generation(s.cells, s.now, rd.keys.value.value.1.value, up);
      rd.(pc := if gen < 0 then AfterKeys(rd) else PutKeys(gen, s.now))
  }

  function KeysPut(s: State, rd: Reader): Put
    requires rd.pc.PutKeys? && rd.keys.Some?
  {
    var h := rd.keys.value;
    Put(GrantsEntry(s.now, h.value.0, h.value.1, rd.pc.gen), h.origin.(stampedAt := rd.pc.stampedAt))
  }

  function StepQueryRoles(s: State, r: nat, rd: Reader, up: bool): Reader {
    if !up then rd.(pc := Failed)
    else
      var origin := Origin(r, RolesOf(rd.org, rd.project), Latest(s), s.now, s.now, s.now);
      rd.(pc := PutRoles,
          definitions := Some(Held(DefinitionsIn(CurrentDb(s), rd.project), false, origin, s.now)))
  }

  function RolesPut(s: State, rd: Reader): Put
    requires rd.definitions.Some?
  {
    Put(RolesEntry(s.now, rd.definitions.value.value), rd.definitions.value.origin)
  }

  function StepConclude(s: State, rd: Reader): Reader {
    if rd.keys.None? || rd.definitions.None? then rd.(pc := Failed)
    else
      rd.(pc := Decided(
            Decide(rd.request, Assemble(rd.keys.value.value.0, rd.definitions.value.value)), s.now))
  }

  /** The reader after its next operation. */
  function Next(s: State, r: nat, rd: Reader, up: bool): Reader {
    match rd.pc
    case AskKeys => StepAskKeys(s, rd, up)
    case AskGeneration(_) => StepAskGeneration(s, rd, up)
    case AskRoles => StepAskRoles(s, rd, up)
    case QueryKeys => StepQueryKeys(s, r, rd, up)
    case Stamp => StepStamp(s, rd, up)
    case PutKeys(_, _) => rd.(pc := AfterKeys(rd))
    case QueryRoles => StepQueryRoles(s, r, rd, up)
    case PutRoles => rd.(pc := Commit)
    case Commit => rd.(pc := if up then Conclude else Failed)
    case Conclude => StepConclude(s, rd)
    case Decided(_, _) => rd
    case Failed => rd
  }

  /** The SET that operation issues, if it issues one. */
  function Issued(s: State, rd: Reader): seq<Put> {
    if rd.pc.PutKeys? && rd.keys.Some? then [KeysPut(s, rd)]
    else if rd.pc.PutRoles? && rd.definitions.Some? then [RolesPut(s, rd)]
    else []
  }

  function AdvanceReader(s: State, r: nat, up: bool): State
    requires r in s.readers
  {
    var rd := s.readers[r];
    s.(inflight := s.inflight + Issued(s, rd), readers := s.readers[r := Next(s, r, rd, up)])
  }

  function LandPut(s: State, i: nat): State
    requires i < |s.inflight|
  {
    var put := s.inflight[i];
    var key := KeyOf(put.origin.subject);
    s.(cells := AfterSet(s.cells, key, put.doc, s.now, s.ttl),
       origins := s.origins[key := put.origin.(landedAt := s.now)],
       inflight := Remove(s.inflight, i))
  }

  /** One step; a step that is not enabled changes nothing. */
  function Apply(s: State, step: Step): State {
    match step
    case Tick(delay) => s.(now := s.now + delay)
    case DbWrite(db) => s.(db := s.db + [Version(s.now, db)])
    case Start(r, org, user, project, request) =>
      if r in s.readers then s
      else s.(readers := s.readers[r := Reader(org, user, project, request, AskKeys, None, None)])
    case Advance(r, up) => if r in s.readers then AdvanceReader(s, r, up) else s
    case Land(i) => if i < |s.inflight| then LandPut(s, i) else s
    case Lose(i) => if i < |s.inflight| then s.(inflight := Remove(s.inflight, i)) else s
    case Del(key) => s.(cells := AfterDel(s.cells, key))
    case Incr(g) => s.(cells := AfterIncr(s.cells, KeyOf(GenerationOf(g)), s.now))
    case Expire(g) => s.(cells := AfterExpire(s.cells, KeyOf(GenerationOf(g)), s.now, GENERATION_TTL))
    case Spoil(key, expires) => s.(cells := s.cells[key := Cell(Junk, expires)])
  }

  function Run(s: State, steps: seq<Step>): State
    decreases |steps|
  {
    if steps == [] then s else Run(Apply(s, steps[0]), steps[1..])
  }

  /** Nothing is running and nothing is cached; counters and undecodable strings may be present. */
  predicate Initial(s: State) {
    && |s.db| == 1 && s.db[0].at <= s.now
    && s.readers == map[] && s.inflight == []
    && forall k :: k in s.cells ==> !s.cells[k].value.Doc?
  }

  /** Version `i` was the database's state at instant `t`. */
  predicate InForce(db: seq<Version>, i: nat, t: nat) {
    i < |db| && db[i].at <= t && (i + 1 < |db| ==> t <= db[i + 1].at)
  }

  predicate ValidDb(s: State) {
    && (forall i :: 0 <= i < |s.db| ==> s.db[i].at <= s.now)
    && (forall i, j :: 0 <= i < j < |s.db| ==> s.db[i].at <= s.db[j].at)
  }

  /** The snapshot `o` speaks of was taken, and was of the version it names. */
  predicate Dated(s: State, o: Origin) {
    InForce(s.db, o.version, o.snapAt) && o.snapAt <= o.stampedAt <= s.now
  }

  /** `doc` is what the database said about the origin's subject in the origin's snapshot. */
  predicate Genuine(s: State, doc: Entry, o: Origin) {
    && Dated(s, o)
    && match o.subject
       case GrantsOf(_, u, p) =>
         doc.GrantsEntry? && doc.gen >= 0 && (doc.keys, doc.via) == GrantsAt(s.db[o.version].db, u, p)
       case RolesOf(_, p) => doc.RolesEntry? && doc.roles == DefinitionsIn(s.db[o.version].db, p)
       case GenerationOf(_) => false
  }

  predicate ValidCell(s: State, k: string) {
    k in s.cells && s.cells[k].value.Doc? ==>
      && k in s.origins
      && var o := s.origins[k];
      && KeyOf(o.subject) == k
      && Genuine(s, s.cells[k].value.doc, o)
      && o.stampedAt <= o.landedAt <= s.now
      && s.cells[k].expires == Some(o.landedAt + s.ttl)
  }

  /** Held from a live entry, or read in this reader's own snapshot. */
  predicate Timed<T>(s: State, h: Held<T>) {
    && h.gotAt <= s.now
    && (h.cached ==> h.origin.stampedAt <= h.origin.landedAt <= h.gotAt < h.origin.landedAt + s.ttl)
    && (!h.cached ==> h.gotAt == h.origin.snapAt)
  }

  predicate ValidKeys(s: State, rd: Reader, h: Held<Keys>) {
    && Timed(s, h) && Dated(s, h.origin)
    && h.origin.subject == GrantsOf(rd.org, rd.user, rd.project)
    && h.value == GrantsAt(s.db[h.origin.version].db, rd.user, rd.project)
  }

  predicate ValidDefinitions(s: State, rd: Reader, h: Held<Definitions>) {
    && Timed(s, h) && Dated(s, h.origin)
    && h.origin.subject == RolesOf(rd.org, rd.project)
    && h.value == DefinitionsIn(s.db[h.origin.version].db, rd.project)
  }

  predicate ValidReader(s: State, rd: Reader) {
    && (rd.keys.Some? ==> ValidKeys(s, rd, rd.keys.value))
    && (rd.definitions.Some? ==> ValidDefinitions(s, rd, rd.definitions.value))
    && match rd.pc
       case AskKeys => rd.keys.None? && rd.definitions.None?
       case AskGeneration(h) =>
         && rd.keys.None? && rd.definitions.None?
         && Timed(s, h) && h.cached && Genuine(s, h.value, h.origin)
         && h.origin.subject == GrantsOf(rd.org, rd.user, rd.project)
       case AskRoles => rd.definitions.None?
       case Stamp => rd.keys.Some? && !rd.keys.value.cached && rd.keys.value.value.1.Some?
       case PutKeys(gen, stampedAt) =>
         && rd.keys.Some? && !rd.keys.value.cached && gen >= 0
         && rd.keys.value.origin.snapAt <= stampedAt <= s.now
       case QueryRoles => rd.keys.Some?
       case PutRoles => rd.keys.Some? && rd.definitions.Some? && !rd.definitions.value.cached
       case Commit => rd.keys.Some? && rd.definitions.Some?
       case Conclude => rd.keys.Some? && rd.definitions.Some?
       case Decided(d, at) =>
         && rd.keys.Some? && rd.definitions.Some?
         && rd.keys.value.gotAt <= at <= s.now && rd.definitions.value.gotAt <= at
         && d == Decide(rd.request, Assemble(rd.keys.value.value.0, rd.definitions.value.value))
       case _ => true
  }

  predicate Inv(s: State) {
    && ValidDb(s)
    && (forall k :: k in s.cells ==> ValidCell(s, k))
    && (forall i :: 0 <= i < |s.inflight| ==> Genuine(s, s.inflight[i].doc, s.inflight[i].origin))
    && (forall r :: r in s.readers ==> ValidReader(s, s.readers[r]))
  }

  /** Time passed and the database moved on; what was dated stays dated. */
  predicate Later(s: State, s': State) {
    && s.now <= s'.now && s.ttl == s'.ttl
    && |s.db| <= |s'.db| && s.db == s'.db[..|s.db|]
    && (forall i :: |s.db| <= i < |s'.db| ==> s.now <= s'.db[i].at)
  }

  lemma GenuineLater(s: State, s': State, doc: Entry, o: Origin)
    requires Later(s, s') && Genuine(s, doc, o)
    ensures Genuine(s', doc, o)
  {
    assert s'.db[o.version] == s.db[o.version];
  }

  lemma ReaderLater(s: State, s': State, rd: Reader)
    requires Later(s, s') && ValidReader(s, rd)
    ensures ValidReader(s', rd)
  {
    if rd.keys.Some? {
      assert s'.db[rd.keys.value.origin.version] == s.db[rd.keys.value.origin.version];
    }
    if rd.definitions.Some? {
      assert s'.db[rd.definitions.value.origin.version] == s.db[rd.definitions.value.origin.version];
    }
    if rd.pc.AskGeneration? {
      GenuineLater(s, s', rd.pc.entry.value, rd.pc.entry.origin);
    }
  }

  /** A step that leaves the cache alone keeps every cell, SET and untouched reader valid. */
  lemma LaterKeeps(s: State, s': State)
    requires Inv(s) && Later(s, s') && ValidDb(s')
    requires s'.origins == s.origins
    requires forall k :: k in s'.cells && s'.cells[k].value.Doc? ==> k in s.cells && s'.cells[k] == s.cells[k]
    ensures forall k :: k in s'.cells ==> ValidCell(s', k)
    ensures forall i :: 0 <= i < |s.inflight| ==> Genuine(s', s.inflight[i].doc, s.inflight[i].origin)
    ensures forall r :: r in s.readers ==> ValidReader(s', s.readers[r])
  {
    forall k | k in s'.cells ensures ValidCell(s', k) {
      if s'.cells[k].value.Doc? {
        assert ValidCell(s, k);
        GenuineLater(s, s', s.cells[k].value.doc, s.origins[k]);
      }
    }
    forall i | 0 <= i < |s.inflight| ensures Genuine(s', s.inflight[i].doc, s.inflight[i].origin) {
      GenuineLater(s, s', s.inflight[i].doc, s.inflight[i].origin);
    }
    forall r | r in s.readers ensures ValidReader(s', s.readers[r]) {
      ReaderLater(s, s', s.readers[r]);
    }
  }

  /** What a live document under a subject's key is: genuine, about that subject, and not yet expired. */
  lemma LiveDocument(s: State, subject: Subject)
    requires Inv(s)
    requires Read(s.cells, KeyOf(subject), s.now).Some? && Read(s.cells, KeyOf(subject), s.now).value.Doc?
    ensures
      var o := OriginAt(s, KeyOf(subject));
      && o.subject == subject
      && Genuine(s, s.cells[KeyOf(subject)].value.doc, o)
      && o.stampedAt <= o.landedAt <= s.now < o.landedAt + s.ttl
  {
    var k := KeyOf(subject);
    assert ValidCell(s, k);
    KeysIdentifySubjects(subject, s.origins[k].subject);
  }

  lemma AskingStaysValid(s: State, rd: Reader, up: bool)
    requires Inv(s) && ValidReader(s, rd)
    ensures rd.pc.AskKeys? ==> ValidReader(s, StepAskKeys(s, rd, up))
    ensures rd.pc.AskGeneration? ==> ValidReader(s, StepAskGeneration(s, rd, up))
    ensures rd.pc.AskRoles? ==> ValidReader(s, StepAskRoles(s, rd, up))
  {
    if rd.pc.AskKeys? && FetchGrants(s.cells, s.now, rd.org, rd.user, rd.project, up).Some? {
      LiveDocument(s, GrantsOf(rd.org, rd.user, rd.project));
    }
    if rd.pc.AskRoles? && LookupRoles(s.cells, s.now, rd.org, rd.project, up).Some? {
      LiveDocument(s, RolesOf(rd.org, rd.project));
    }
  }

  lemma QueryingStaysValid(s: State, r: nat, rd: Reader, up: bool)
    requires Inv(s) && ValidReader(s, rd)
    ensures rd.pc.QueryKeys? ==> ValidReader(s, StepQueryKeys(s, r, rd, up))
    ensures rd.pc.QueryRoles? ==> ValidReader(s, StepQueryRoles(s, r, rd, up))
  {
  }

  lemma ClosingStaysValid(s: State, rd: Reader, up: bool)
    requires ValidReader(s, rd)
    ensures rd.pc.Stamp? ==> ValidReader(s, StepStamp(s, rd, up))
    ensures rd.pc.Conclude? ==> ValidReader(s, StepConclude(s, rd))
  {
  }

  lemma NextIsValid(s: State, r: nat, rd: Reader, up: bool)
    requires Inv(s) && ValidReader(s, rd)
    ensures ValidReader(s, Next(s, r, rd, up))
    ensures forall p :: p in Issued(s, rd) ==> Genuine(s, p.doc, p.origin)
  {
    AskingStaysValid(s, rd, up);
    QueryingStaysValid(s, r, rd, up);
    ClosingStaysValid(s, rd, up);
  }

  lemma AdvanceKeepsInv(s: State, r: nat, up: bool)
    requires Inv(s) && r in s.readers
    ensures Inv(AdvanceReader(s, r, up))
  {
    var s' := AdvanceReader(s, r, up);
    LaterKeeps(s, s');
    assert ValidReader(s, s.readers[r]);
    NextIsValid(s, r, s.readers[r], up);
    ReaderLater(s, s', s'.readers[r]);
    forall i | 0 <= i < |s'.inflight| ensures Genuine(s', s'.inflight[i].doc, s'.inflight[i].origin) {
      if i >= |s.inflight| {
        assert s'.inflight[i] in Issued(s, s.readers[r]);
        GenuineLater(s, s', s'.inflight[i].doc, s'.inflight[i].origin);
      }
    }
  }

  lemma LandKeepsInv(s: State, i: nat)
    requires Inv(s) && i < |s.inflight|
    ensures Inv(LandPut(s, i))
  {
    var s' := LandPut(s, i);
    var key := KeyOf(s.inflight[i].origin.subject);
    assert Later(s, s');
    forall k | k in s'.cells ensures ValidCell(s', k) {
      if k == key {
        GenuineLater(s, s', s.inflight[i].doc, s.inflight[i].origin);
      } else {
        assert ValidCell(s, k);
      }
    }
    forall r | r in s'.readers ensures ValidReader(s', s'.readers[r]) {
      ReaderLater(s, s', s.readers[r]);
    }
  }

  lemma TimeKeepsInv(s: State, step: Step)
    requires Inv(s) && (step.Tick? || step.DbWrite? || step.Start?)
    ensures Inv(Apply(s, step)) && Later(s, Apply(s, step))
  {
    LaterKeeps(s, Apply(s, step));
  }

  lemma RedisKeepsInv(s: State, step: Step)
    requires Inv(s) && (step.Lose? || step.Del? || step.Incr? || step.Spoil?)
    ensures Inv(Apply(s, step)) && Later(s, Apply(s, step))
  {
    LaterKeeps(s, Apply(s, step));
  }

  /** No document is ever stored under a counter's key, so EXPIRE moves no document's expiry. */
  lemma ExpireKeepsInv(s: State, g: GrantId)
    requires Inv(s)
    ensures Inv(Apply(s, Step.Expire(g))) && Later(s, Apply(s, Step.Expire(g)))
  {
    var key := KeyOf(GenerationOf(g));
    if Live(s.cells, key, s.now) && s.cells[key].value.Doc? {
      LiveDocument(s, GenerationOf(g));
    }
    LaterKeeps(s, Apply(s, Step.Expire(g)));
  }

  /** Every step keeps the invariant, and time only passes. */
  lemma StepKeepsInv(s: State, step: Step)
    requires Inv(s)
    ensures Inv(Apply(s, step))
    ensures Later(s, Apply(s, step))
  {
    match step
    case Advance(r, up) =>
      if r in s.readers {
        AdvanceKeepsInv(s, r, up);
      }
    case Land(i) =>
      if i < |s.inflight| {
        LandKeepsInv(s, i);
      }
    case Tick(_) => TimeKeepsInv(s, step);
    case DbWrite(_) => TimeKeepsInv(s, step);
    case Start(_, _, _, _, _) => TimeKeepsInv(s, step);
    case Expire(g) => ExpireKeepsInv(s, g);
    case _ => RedisKeepsInv(s, step);
  }

  lemma {:induction false} RunKeepsInv(s: State, steps: seq<Step>)
    requires Inv(s)
    ensures Inv(Run(s, steps))
    ensures Later(s, Run(s, steps))
    decreases |steps|
  {
    if steps != [] {
      StepKeepsInv(s, steps[0]);
      RunKeepsInv(Apply(s, steps[0]), steps[1..]);
    }
  }

  lemma {:induction false} RunAppend(s: State, a: seq<Step>, b: seq<Step>)
    ensures Run(s, a + b) == Run(Run(s, a), b)
    decreases |a|
  {
    if a == [] {
      assert a + b == b;
    } else {
      assert (a + b)[1..] == a[1..] + b;
      RunAppend(Apply(s, a[0]), a[1..], b);
    }
  }

  lemma RunOne(s: State, a: Step)
    ensures Run(s, [a]) == Apply(s, a)
  {
  }

  lemma RunTwo(s: State, a: Step, b: Step)
    ensures Run(s, [a, b]) == Apply(Apply(s, a), b)
  {
    assert [a, b][1..] == [b];
    RunOne(Apply(s, a), b);
  }

  lemma RunThree(s: State, a: Step, b: Step, c: Step)
    ensures Run(s, [a, b, c]) == Apply(Apply(Apply(s, a), b), c)
  {
    assert [a, b, c][1..] == [b, c];
    RunTwo(Apply(s, a), b, c);
  }

  lemma RunFour(s: State, a: Step, b: Step, c: Step, d: Step)
    ensures Run(s, [a, b, c, d]) == Apply(Apply(Apply(Apply(s, a), b), c), d)
  {
    assert [a, b, c, d][1..] == [b, c, d];
    RunThree(Apply(s, a), b, c, d);
  }

  lemma InitialInv(s: State)
    requires Initial(s)
    ensures Inv(s)
  {
  }
}
