/**
 When an invalidation makes a change immediate (authz/cache.go:76-83, grant/handler.go:116-121).

 The comments promise that once the post-commit delete lands the change is seen at once.  It is, with
 one exception: a check that took its snapshot before the commit may still have its SET ahead of it.
 `FreshExactlyWithoutStragglers` says that exception is the only one.
*/
module AuthzFreshness {
  import opened Wrappers
  import opened RedisStore
  import opened AuthzKeys
  import opened AuthzCache
  import opened Decisions
  import opened AuthzProtocol

  /** The reader has read `t` from the database and has not yet issued the SET for it. */
  predicate AboutToSet(rd: Reader, t: Subject) {
    || ((rd.pc.Stamp? || rd.pc.PutKeys?) && rd.keys.Some? && rd.keys.value.origin.subject == t)
    || (rd.pc.PutRoles? && rd.definitions.Some? && rd.definitions.value.origin.subject == t)
  }

  function SnapshotVersion(rd: Reader): nat {
    if rd.pc.PutRoles? && rd.definitions.Some? then rd.definitions.value.origin.version
    else if rd.keys.Some? then rd.keys.value.origin.version
    else 0
  }

  /** A SET of `t` from a snapshot older than version `v` is under way: in flight, or about to be issued. */
  predicate Straggler(s: State, t: Subject, v: nat) {
    || (exists i :: 0 <= i < |s.inflight| && s.inflight[i].origin.subject == t && s.inflight[i].origin.version < v)
    || (exists r :: r in s.readers && AboutToSet(s.readers[r], t) && SnapshotVersion(s.readers[r]) < v)
  }

  /** Whatever the reader holds about `t` is from version `v` or a newer one. */
  predicate SeesAtLeast(rd: Reader, t: Subject, v: nat) {
    && (rd.keys.Some? && rd.keys.value.origin.subject == t ==> v <= rd.keys.value.origin.version)
    && (rd.definitions.Some? && rd.definitions.value.origin.subject == t ==> v <= rd.definitions.value.origin.version)
  }

  predicate EntryAtLeast(rd: Reader, t: Subject, v: nat) {
    rd.pc.AskGeneration? && rd.pc.entry.origin.subject == t ==> v <= rd.pc.entry.origin.version
  }

  /** Nothing older than `v` can reach a reader that is not in `earlier`. */
  predicate Clean(s: State, t: Subject, v: nat, earlier: set<nat>) {
    && v < |s.db|
    && (KeyOf(t) in s.cells && s.cells[KeyOf(t)].value.Doc? ==> v <= OriginAt(s, KeyOf(t)).version)
    && (forall i :: 0 <= i < |s.inflight| && s.inflight[i].origin.subject == t ==> v <= s.inflight[i].origin.version)
    && (forall r :: r in s.readers && AboutToSet(s.readers[r], t) ==> v <= SnapshotVersion(s.readers[r]))
    && (forall r :: r in s.readers && r !in earlier ==>
          SeesAtLeast(s.readers[r], t, v) && EntryAtLeast(s.readers[r], t, v))
  }

  lemma DeletedIsClean(s: State, t: Subject, v: nat)
    requires v < |s.db| && KeyOf(t) !in s.cells && !Straggler(s, t, v)
    ensures Clean(s, t, v, s.readers.Keys)
  {
  }

  lemma AskingSeesAtLeast(s: State, r: nat, up: bool, t: Subject, v: nat, earlier: set<nat>)
    requires Inv(s) && Clean(s, t, v, earlier) && r in s.readers && r !in earlier
    requires var pc := s.readers[r].pc; pc.AskKeys? || pc.AskGeneration? || pc.AskRoles?
    ensures var rd := Next(s, r, s.readers[r], up); SeesAtLeast(rd, t, v) && EntryAtLeast(rd, t, v)
  {
    var rd := s.readers[r];
    assert ValidReader(s, rd);
    if rd.pc.AskKeys? && FetchGrants(s.cells, s.now, rd.org, rd.user, rd.project, up).Some? {
      LiveDocument(s, GrantsOf(rd.org, rd.user, rd.project));
    }
    if rd.pc.AskRoles? && LookupRoles(s.cells, s.now, rd.org, rd.project, up).Some? {
      LiveDocument(s, RolesOf(rd.org, rd.project));
    }
  }

  /** A reader's own snapshot is of the latest version, so what it goes on to SET is new enough. */
  lemma NextSetsAtLeast(s: State, r: nat, rd: Reader, up: bool, t: Subject, v: nat)
    requires ValidReader(s, rd) && v < |s.db|
    requires AboutToSet(rd, t) ==> v <= SnapshotVersion(rd)
    ensures var rd' := Next(s, r, rd, up); AboutToSet(rd', t) ==> v <= SnapshotVersion(rd')
    ensures forall p :: p in Issued(s, rd) && p.origin.subject == t ==> v <= p.origin.version
  {
  }

  lemma NextSeesAtLeast(s: State, r: nat, rd: Reader, up: bool, t: Subject, v: nat)
    requires v < |s.db| && SeesAtLeast(rd, t, v)
    requires !rd.pc.AskKeys? && !rd.pc.AskGeneration? && !rd.pc.AskRoles?
    ensures var rd' := Next(s, r, rd, up); SeesAtLeast(rd', t, v) && EntryAtLeast(rd', t, v)
  {
  }

  lemma AdvanceStaysClean(s: State, r: nat, up: bool, t: Subject, v: nat, earlier: set<nat>)
    requires Inv(s) && Clean(s, t, v, earlier) && r in s.readers
    ensures Clean(AdvanceReader(s, r, up), t, v, earlier)
  {
    var rd := s.readers[r];
    var s' := AdvanceReader(s, r, up);
    assert ValidReader(s, rd);
    NextSetsAtLeast(s, r, rd, up, t, v);
    if r !in earlier {
      if rd.pc.AskKeys? || rd.pc.AskGeneration? || rd.pc.AskRoles? {
        AskingSeesAtLeast(s, r, up, t, v, earlier);
      } else {
        NextSeesAtLeast(s, r, rd, up, t, v);
      }
    }
    forall i | 0 <= i < |s'.inflight| && s'.inflight[i].origin.subject == t
      ensures v <= s'.inflight[i].origin.version
    {
      if i >= |s.inflight| {
        assert s'.inflight[i] in Issued(s, rd);
      }
    }
    assert KeyOf(t) in s'.cells && s'.cells[KeyOf(t)].value.Doc? ==> v <= OriginAt(s', KeyOf(t)).version;
  }

  lemma LandStaysClean(s: State, i: nat, t: Subject, v: nat, earlier: set<nat>)
    requires Clean(s, t, v, earlier) && i < |s.inflight|
    ensures Clean(LandPut(s, i), t, v, earlier)
  {
    KeysIdentifySubjects(t, s.inflight[i].origin.subject);
  }

  lemma OthersStayClean(s: State, step: Step, t: Subject, v: nat, earlier: set<nat>)
    requires Clean(s, t, v, earlier) && !step.Advance? && !step.Land?
    ensures Clean(Apply(s, step), t, v, earlier)
  {
  }

  lemma StepStaysClean(s: State, step: Step, t: Subject, v: nat, earlier: set<nat>)
    requires Inv(s) && Clean(s, t, v, earlier)
    ensures Clean(Apply(s, step), t, v, earlier)
  {
    match step
    case Advance(r, up) =>
      if r in s.readers {
        AdvanceStaysClean(s, r, up, t, v, earlier);
      }
    case Land(i) =>
      if i < |s.inflight| {
        LandStaysClean(s, i, t, v, earlier);
      }
    case _ => OthersStayClean(s, step, t, v, earlier);
  }

  lemma {:induction false} RunStaysClean(s: State, steps: seq<Step>, t: Subject, v: nat, earlier: set<nat>)
    requires Inv(s) && Clean(s, t, v, earlier)
    ensures Clean(Run(s, steps), t, v, earlier)
    decreases |steps|
  {
    if steps != [] {
      StepKeepsInv(s, steps[0]);
      StepStaysClean(s, steps[0], t, v, earlier);
      RunStaysClean(Apply(s, steps[0]), steps[1..], t, v, earlier);
    }
  }

  /** In every continuation, every check that starts from here on sees version `v` or a newer one. */
  ghost predicate AlwaysFresh(s: State, t: Subject, v: nat) {
    forall steps, r ::
      r !in s.readers && r in Run(s, steps).readers ==> SeesAtLeast(Run(s, steps).readers[r], t, v)
  }

  /**
   Freshness after a change.  Right after the delete that follows the commit of version `v`, if no
   older SET is under way, every check that starts later sees that version or a newer one.
  */
  lemma FreshAfterInvalidation(s: State, t: Subject, v: nat)
    requires Inv(s) && v < |s.db|
    requires !Straggler(s, t, v)
    ensures AlwaysFresh(Apply(s, Del(KeyOf(t))), t, v)
  {
    var s1 := Apply(s, Del(KeyOf(t)));
    StepKeepsInv(s, Del(KeyOf(t)));
    DeletedIsClean(s1, t, v);
    forall steps, r | r !in s1.readers && r in Run(s1, steps).readers
      ensures SeesAtLeast(Run(s1, steps).readers[r], t, v)
    {
      RunStaysClean(s1, steps, t, v, s1.readers.Keys);
    }
  }

  // The other half: an older SET under way can reach a later check.

  lemma IdsAreBounded(used: set<nat>) returns (m: nat)
    ensures forall n :: n in used ==> n < m
  {
    m := 0;
    if used != {} {
      var n :| n in used;
      var rest := IdsAreBounded(used - {n});
      assert forall x :: x in used ==> x == n || x in used - {n};
      m := if n < rest then rest else n + 1;
    }
  }

  const ANY_REQUEST := Request("", "", "")

  function Increments(g: GrantId, n: nat): (steps: seq<Step>)
    ensures |steps| == n
  {
    if n == 0 then [] else Increments(g, n - 1) + [Step.Incr(g)]
  }

  /** From a missing counter, `n` increments leave it at `n`, and change nothing else. */
  lemma {:induction false} IncrementsReach(s: State, g: GrantId, n: nat)
    requires Read(s.cells, KeyOf(GenerationOf(g)), s.now).None?
    ensures
      var s' := Run(s, Increments(g, n));
      && s' == s.(cells := s'.cells)
      && Read(s'.cells, KeyOf(GenerationOf(g)), s'.now) == if n == 0 then None else Some(Int(n))
  {
    if n > 0 {
      IncrementsReach(s, g, n - 1);
      RunAppend(s, Increments(g, n - 1), [Step.Incr(g)]);
      RunOne(Run(s, Increments(g, n - 1)), Step.Incr(g));
    }
  }

  function Recount(g: GrantId, n: nat): seq<Step> {
    [Del(KeyOf(GenerationOf(g)))] + Increments(g, n)
  }

  lemma RecountReaches(s: State, g: GrantId, n: nat)
    ensures
      var s' := Run(s, Recount(g, n));
      && s' == s.(cells := s'.cells)
      && Generation(s'.cells, s'.now, g, true) == n
  {
    var deletion := Del(KeyOf(GenerationOf(g)));
    RunOne(s, deletion);
    IncrementsReach(Apply(s, deletion), g, n);
    RunAppend(s, [deletion], Increments(g, n));
  }

  /** A reader that has its generation issues its SET in one step. */
  lemma PutIsIssued(s: State, r: nat, t: Subject)
    requires Inv(s) && r in s.readers && AboutToSet(s.readers[r], t) && !s.readers[r].pc.Stamp?
    ensures
      var s' := Apply(s, Advance(r, true));
      && s'.readers.Keys == s.readers.Keys && s'.ttl == s.ttl
      && |s'.inflight| == |s.inflight| + 1
      && s'.inflight[|s.inflight|].origin.subject == t
      && s'.inflight[|s.inflight|].origin.version == SnapshotVersion(s.readers[r])
  {
    assert ValidReader(s, s.readers[r]);
  }

  /** A reader about to read its generation can read it. */
  lemma StampSucceeds(s: State, r: nat) returns (steps: seq<Step>)
    requires Inv(s) && r in s.readers && s.readers[r].pc.Stamp?
    ensures
      var s' := Run(s, steps);
      && s'.readers.Keys == s.readers.Keys && s'.ttl == s.ttl && s'.inflight == s.inflight
      && s'.readers[r].pc.PutKeys? && s'.readers[r].keys == s.readers[r].keys
  {
    assert ValidReader(s, s.readers[r]);
    var g := s.readers[r].keys.value.value.1.value;
    steps := Recount(g, 0) + [Advance(r, true)];
    RecountReaches(s, g, 0);
    RunAppend(s, Recount(g, 0), [Advance(r, true)]);
    var s1 := Run(s, Recount(g, 0));
    RunOne(s1, Advance(r, true));
  }

  predicate InFlight(s: State, i: nat, t: Subject, v: nat) {
    i < |s.inflight| && s.inflight[i].origin.subject == t && s.inflight[i].origin.version < v
  }

  lemma SetIsIssued(s: State, r: nat, t: Subject, v: nat) returns (steps: seq<Step>)
    requires Inv(s) && r in s.readers && AboutToSet(s.readers[r], t) && SnapshotVersion(s.readers[r]) < v
    ensures
      var s' := Run(s, steps);
      s'.readers.Keys == s.readers.Keys && s'.ttl == s.ttl && InFlight(s', |s.inflight|, t, v)
  {
    if s.readers[r].pc.Stamp? {
      var first := StampSucceeds(s, r);
      var s1 := Run(s, first);
      RunKeepsInv(s, first);
      PutIsIssued(s1, r, t);
      RunAppend(s, first, [Advance(r, true)]);
      RunOne(s1, Advance(r, true));
      steps := first + [Advance(r, true)];
    } else {
      PutIsIssued(s, r, t);
      RunOne(s, Advance(r, true));
      steps := [Advance(r, true)];
    }
  }

  /** An older SET about to be issued can be issued. */
  lemma StragglerGetsInFlight(s: State, t: Subject, v: nat) returns (steps: seq<Step>, i: nat)
    requires Inv(s) && Straggler(s, t, v)
    ensures
      var s' := Run(s, steps);
      s'.readers.Keys == s.readers.Keys && s'.ttl == s.ttl && InFlight(s', i, t, v)
  {
    if k :| 0 <= k < |s.inflight| && s.inflight[k].origin.subject == t && s.inflight[k].origin.version < v {
      steps, i := [], k;
    } else {
      var r :| r in s.readers && AboutToSet(s.readers[r], t) && SnapshotVersion(s.readers[r]) < v;
      steps := SetIsIssued(s, r, t, v);
      i := |s.inflight|;
    }
  }

  /** Once it is in flight it can land, and the next check is served it. */
  lemma GrantsStragglerIsServed(s: State, i: nat, r: nat, org: Id, user: Id, project: Id) returns (steps: seq<Step>)
    requires Inv(s) && s.ttl > 0 && i < |s.inflight| && r !in s.readers
    requires s.inflight[i].origin.subject == GrantsOf(org, user, project)
    requires
      var doc := s.inflight[i].doc;
      doc.GrantsEntry? && doc.via.Some? ==> Generation(s.cells, s.now, doc.via.value, true) == doc.gen
    ensures r in Run(s, steps).readers
    ensures
      var rd := Run(s, steps).readers[r];
      && rd.keys.Some? && rd.keys.value.cached && rd.keys.value.origin.subject == s.inflight[i].origin.subject
      && rd.keys.value.origin.version == s.inflight[i].origin.version
  {
    var put := s.inflight[i];
    assert Genuine(s, put.doc, put.origin);
    steps := [Land(i), Start(r, org, user, project, ANY_REQUEST), Advance(r, true), Advance(r, true)];
    RunFour(s, steps[0], steps[1], steps[2], steps[3]);
    var s1 := Apply(s, steps[0]);
    var s2 := Apply(s1, steps[1]);
    var s3 := Apply(s2, steps[2]);
    var key := KeyOf(GrantsOf(org, user, project));
    assert Read(s2.cells, key, s2.now) == Some(Doc(put.doc));
    if put.doc.via.Some? {
      KeysIdentifySubjects(GenerationOf(put.doc.via.value), GrantsOf(org, user, project));
      assert Accepts(s3, put.doc, true);
    }
  }

  lemma RolesStragglerIsServed(s: State, i: nat, r: nat, org: Id, project: Id) returns (steps: seq<Step>)
    requires Inv(s) && s.ttl > 0 && i < |s.inflight| && r !in s.readers
    requires s.inflight[i].origin.subject == RolesOf(org, project)
    ensures r in Run(s, steps).readers
    ensures
      var rd := Run(s, steps).readers[r];
      && rd.definitions.Some? && rd.definitions.value.origin.subject == s.inflight[i].origin.subject
      && rd.definitions.value.origin.version == s.inflight[i].origin.version
  {
    var put := s.inflight[i];
    assert Genuine(s, put.doc, put.origin);
    steps := [Land(i), Start(r, org, "", project, ANY_REQUEST), Advance(r, false), Advance(r, true)];
    RunFour(s, steps[0], steps[1], steps[2], steps[3]);
    var s1 := Apply(s, steps[0]);
    var s2 := Apply(s1, steps[1]);
    var s3 := Apply(s2, steps[2]);
    assert Read(s3.cells, KeyOf(RolesOf(org, project)), s3.now) == Some(Doc(put.doc));
    assert s3.readers[r].pc.AskRoles?;
  }

  /** With an older SET under way, some run serves a check that starts later from before version `v`. */
  lemma StragglersBreakFreshness(s: State, t: Subject, v: nat)
    requires Inv(s) && s.ttl > 0 && Straggler(s, t, v)
    ensures !AlwaysFresh(s, t, v)
  {
    var first, i := StragglerGetsInFlight(s, t, v);
    RunKeepsInv(s, first);
    var r := IdsAreBounded(s.readers.Keys);
    var second := InFlightIsServed(Run(s, first), i, r, t, v);
    RunAppend(s, first, second);
    assert !SeesAtLeast(Run(s, first + second).readers[r], t, v);
  }

  /** Whatever older document is in flight, some run from there has a new check read it. */
  lemma InFlightIsServed(s: State, i: nat, r: nat, t: Subject, v: nat) returns (steps: seq<Step>)
    requires Inv(s) && s.ttl > 0 && InFlight(s, i, t, v) && r !in s.readers
    ensures
      var s' := Run(s, steps);
      r in s'.readers && !SeesAtLeast(s'.readers[r], t, v)
  {
    assert Genuine(s, s.inflight[i].doc, s.inflight[i].origin);
    match t
    case GrantsOf(org, user, project) =>
      var doc := s.inflight[i].doc;
      var first := if doc.via.Some? then Recount(doc.via.value, doc.gen) else [];
      if doc.via.Some? {
        RecountReaches(s, doc.via.value, doc.gen);
      }
      RunKeepsInv(s, first);
      var second := GrantsStragglerIsServed(Run(s, first), i, r, org, user, project);
      RunAppend(s, first, second);
      steps := first + second;
    case RolesOf(org, project) =>
      steps := RolesStragglerIsServed(s, i, r, org, project);
    case GenerationOf(_) => assert false;
  }

  /** Invalidation is immediate exactly when no older SET is under way at the moment of the delete. */
  lemma FreshExactlyWithoutStragglers(s: State, t: Subject, v: nat)
    requires Inv(s) && s.ttl > 0 && v < |s.db|
    ensures AlwaysFresh(Apply(s, Del(KeyOf(t))), t, v) <==> !Straggler(s, t, v)
  {
    if Straggler(s, t, v) {
      StepKeepsInv(s, Del(KeyOf(t)));
      StragglersBreakFreshness(Apply(s, Del(KeyOf(t))), t, v);
    } else {
      FreshAfterInvalidation(s, t, v);
    }
  }
  // Such states are reached.

  /** A check that found nothing cached and has read its keys, but not yet issued its SET. */
  lemma ReadsItsKeys(s: State, r: nat, org: Id, user: Id, project: Id) returns (steps: seq<Step>)
    requires r !in s.readers
    ensures
      var s' := Run(s, steps);
      && s'.db == s.db && s'.inflight == s.inflight && s'.cells == s.cells && s'.now == s.now && s'.ttl == s.ttl
      && s'.readers.Keys == s.readers.Keys + {r}
      && var rd := s'.readers[r];
      && (rd.pc == if GrantsAt(CurrentDb(s), user, project).1.Some? then Stamp else PutKeys(0, s.now))
      && rd.keys.Some? && rd.keys.value.value == GrantsAt(CurrentDb(s), user, project)
      && rd.keys.value.origin.subject == GrantsOf(org, user, project) && rd.keys.value.origin.version == Latest(s)
  {
    steps := [Start(r, org, user, project, ANY_REQUEST), Advance(r, false), Advance(r, false), Advance(r, true)];
    RunFour(s, steps[0], steps[1], steps[2], steps[3]);
  }

  /** From every start, one check and one change of the database bring an older SET under way. */
  lemma StragglersAreReached(s0: State, org: Id, user: Id, project: Id) returns (steps: seq<Step>)
    requires Initial(s0)
    ensures
      var s := Run(s0, steps);
      Inv(s) && 1 < |s.db| && Straggler(s, GrantsOf(org, user, project), 1)
  {
    var first := ReadsItsKeys(s0, 0, org, user, project);
    var s1 := Run(s0, first);
    var change := DbWrite(CurrentDb(s0));
    RunOne(s1, change);
    RunAppend(s0, first, [change]);
    steps := first + [change];
    InitialInv(s0);
    RunKeepsInv(s0, steps);
    assert AboutToSet(Run(s0, steps).readers[0], GrantsOf(org, user, project));
  }
}
