/**
 The Redis keys of the authorization cache (authz/cache.go:143-164).

 Three families share one keyspace.  They never collide, and within a family the identifiers can be
 read back, as long as no identifier holds a colon; the service's identifiers are UUIDs.
*/
module AuthzKeys {
  type Id = s: string | ':' !in s

  type GrantId = s: string | s != "" && ':' !in s witness "g"

  function GrantsKey(org: string, user: string, project: string): string {
    "authz:grants:" + org + ":" + user + ":" + project
  }

  function RolesKey(org: string, project: string): string {
    "authz:roles:" + org + ":" + project
  }

  function GenerationKey(grant: string): string {
    "authz:grantgen:" + grant
  }

  /** What a key of the cache is about. */
  datatype Subject =
    | GrantsOf(org: Id, user: Id, project: Id)
    | RolesOf(org: Id, project: Id)
    | GenerationOf(grant: Id)

  function KeyOf(subject: Subject): string {
    match subject
    case GrantsOf(o, u, p) => GrantsKey(o, u, p)
    case RolesOf(o, p) => RolesKey(o, p)
    case GenerationOf(g) => GenerationKey(g)
  }

  lemma ColonSplits(a: string, x: string, b: string, y: string)
    requires ':' !in a && ':' !in b
    requires a + ":" + x == b + ":" + y
    ensures a == b && x == y
  {
    var s := a + ":" + x;
    assert s[|a|] == ':' && s[|b|] == ':';
    assert forall i :: 0 <= i < |a| ==> s[i] == a[i];
    assert forall i :: 0 <= i < |b| ==> s[i] == b[i];
    assert |a| == |b|;
    assert a == s[..|a|] && b == s[..|b|];
    assert x == s[|a| + 1..] && y == s[|b| + 1..];
  }

  /** No key of one family is a key of another, whatever the identifiers hold. */
  lemma FamiliesAreDisjoint(o: string, u: string, p: string, o': string, p': string, g: string)
    ensures GrantsKey(o, u, p) != RolesKey(o', p')
    ensures GrantsKey(o, u, p) != GenerationKey(g)
    ensures RolesKey(o', p') != GenerationKey(g)
  {
    assert GrantsKey(o, u, p)[6] == 'g' && GrantsKey(o, u, p)[11] == 's';
    assert RolesKey(o', p')[6] == 'r';
    assert GenerationKey(g)[6] == 'g' && GenerationKey(g)[11] == 'g';
  }

  lemma GrantsKeyInjective(o: Id, u: Id, p: Id, o': Id, u': Id, p': Id)
    requires GrantsKey(o, u, p) == GrantsKey(o', u', p')
    ensures o == o' && u == u' && p == p'
  {
    var k, k' := GrantsKey(o, u, p), GrantsKey(o', u', p');
    assert k[|"authz:grants:"|..] == o + ":" + (u + ":" + p);
    assert k'[|"authz:grants:"|..] == o' + ":" + (u' + ":" + p');
    ColonSplits(o, u + ":" + p, o', u' + ":" + p');
    ColonSplits(u, p, u', p');
  }

  lemma RolesKeyInjective(o: Id, p: Id, o': Id, p': Id)
    requires RolesKey(o, p) == RolesKey(o', p')
    ensures o == o' && p == p'
  {
    var k, k' := RolesKey(o, p), RolesKey(o', p');
    assert k[|"authz:roles:"|..] == o + ":" + p;
    assert k'[|"authz:roles:"|..] == o' + ":" + p';
    ColonSplits(o, p, o', p');
  }

  /** Two subjects share a key exactly when they are the same subject. */
  lemma KeysIdentifySubjects(a: Subject, b: Subject)
    ensures KeyOf(a) == KeyOf(b) <==> a == b
  {
    if KeyOf(a) == KeyOf(b) {
      match (a, b)
      case (GrantsOf(o, u, p), GrantsOf(o', u', p')) => GrantsKeyInjective(o, u, p, o', u', p');
      case (RolesOf(o, p), RolesOf(o', p')) => RolesKeyInjective(o, p, o', p');
      case (GenerationOf(g), GenerationOf(g')) =>
        assert GenerationKey(g)[|"authz:grantgen:"|..] == g;
        assert GenerationKey(g')[|"authz:grantgen:"|..] == g';
      case (GrantsOf(o, u, p), RolesOf(o', p')) => FamiliesAreDisjoint(o, u, p, o', p', "");
      case (RolesOf(o', p'), GrantsOf(o, u, p)) => FamiliesAreDisjoint(o, u, p, o', p', "");
      case (GrantsOf(o, u, p), GenerationOf(g)) => FamiliesAreDisjoint(o, u, p, "", "", g);
      case (GenerationOf(g), GrantsOf(o, u, p)) => FamiliesAreDisjoint(o, u, p, "", "", g);
      case (RolesOf(o, p), GenerationOf(g)) => FamiliesAreDisjoint("", "", "", o, p, g);
      case (GenerationOf(g), RolesOf(o, p)) => FamiliesAreDisjoint("", "", "", o, p, g);
    }
  }

  /** Without the ban on colons the grants family is ambiguous: a colon may move between fields. */
  lemma ColonsWouldCollide(a: string, b: string, u: string, p: string)
    ensures GrantsKey(a + ":" + b, u, p) == GrantsKey(a, b + ":" + u, p)
  {
    assert GrantsKey(a + ":" + b, u, p) == "authz:grants:" + a + ":" + b + ":" + u + ":" + p;
    assert GrantsKey(a, b + ":" + u, p) == "authz:grants:" + a + ":" + b + ":" + u + ":" + p;
  }
}
