/** What the audit writer does to a payload before it is stored for good. */
module Redaction {
  import opened Wrappers

  /** A payload value; a map may be nil. Lists are leaves here: redaction does not look inside them. */
  datatype Json = Leaf(text: string) | Object(fields: map<string, Json>) | NilObject

  const REDACTED: string := "[REDACTED]"

  /** One value under an ordinary key. */
  function Cleaned(v: Json, sensitive: string -> bool): Json
    decreases v
  {
    match v
    case Leaf(_) => v
    case NilObject => Object(map[])
    case Object(fields) =>
      Object(map k | k in fields :: if sensitive(k) then Leaf(REDACTED) else Cleaned(fields[k], sensitive))
  }

  /** A whole payload: the loop over its keys, recursing into maps. */
  method RedactPayload(p: Json, sensitive: string -> bool) returns (clean: map<string, Json>)
    requires !p.Leaf?
    ensures Object(clean) == Cleaned(p, sensitive)
    decreases p
  {
    if p.NilObject? {
      return map[];
    }
    clean := map[];
    var todo := p.fields.Keys;
    while todo != {}
      invariant todo <= p.fields.Keys
      invariant clean.Keys == p.fields.Keys - todo
      invariant forall k :: k in clean ==>
        clean[k] == if sensitive(k) then Leaf(REDACTED) else Cleaned(p.fields[k], sensitive)
      decreases |todo|
    {
      var k :| k in todo;
      todo := todo - {k};
      if sensitive(k) {
        clean := clean[k := Leaf(REDACTED)];
        continue;
      }
      if !p.fields[k].Leaf? {
        var m := RedactPayload(p.fields[k], sensitive);
        clean := clean[k := Object(m)];
        continue;
      }
      clean := clean[k := p.fields[k]];
    }
  }

  // What a reader of the stored payload finds at a path.

  /** The value at a path of keys; a nil map has none. */
  function At(v: Json, path: seq<string>): Option<Json>
    decreases |path|
  {
    if path == [] then Some(v)
    else if v.Object? && path[0] in v.fields then At(v.fields[path[0]], path[1..])
    else None
  }

  /** The number of keys up to and including the first sensitive one; all of them and none if there is none. */
  function FirstSensitive(path: seq<string>, sensitive: string -> bool): Option<nat> {
    if path == [] then None
    else if sensitive(path[0]) then Some(1)
    else
      match FirstSensitive(path[1..], sensitive)
      case None => None
      case Some(n) => Some(n + 1)
  }

  /** Same leaf, or maps with the same keys. */
  predicate SameShape(v: Json, w: Json) {
    if v.Leaf? then w == v
    else w.Object? && w.fields.Keys == (if v.Object? then v.fields.Keys else {})
  }

  /**
   At every path through the maps of a payload, to any depth: below a sensitive key there is nothing, at
   the first sensitive key the mark, and on a path without one the same leaf or a map with the same keys;
   and where the original has nothing neither has the stored payload.
  */
  lemma {:induction false} EveryPath(v: Json, path: seq<string>, sensitive: string -> bool)
    ensures
      var after := At(Cleaned(v, sensitive), path);
      match FirstSensitive(path, sensitive)
      case None =>
        && (after.Some? <==> At(v, path).Some?)
        && (after.Some? ==> SameShape(At(v, path).value, after.value))
      case Some(n) =>
        && 1 <= n <= |path|
        && (n == |path| ==> after == if At(v, path).Some? then Some(Leaf("[REDACTED]")) else None)
        && (n < |path| ==> after.None?)
    decreases |path|
  {
    if path != [] && v.Object? && path[0] in v.fields {
      if sensitive(path[0]) {
        assert Cleaned(v, sensitive).fields[path[0]] == Leaf(REDACTED);
        if |path| == 1 {
          assert path[1..] == [];
        }
      } else {
        EveryPath(v.fields[path[0]], path[1..], sensitive);
      }
    } else if path != [] {
      assert At(Cleaned(v, sensitive), path).None?;
      FirstSensitiveIsWithin(path, sensitive);
    }
  }

  lemma {:induction false} FirstSensitiveIsWithin(path: seq<string>, sensitive: string -> bool)
    ensures FirstSensitive(path, sensitive).Some? ==> 1 <= FirstSensitive(path, sensitive).value <= |path|
  {
    if path != [] {
      FirstSensitiveIsWithin(path[1..], sensitive);
    }
  }

  /** Redacting again changes nothing. */
  lemma {:induction false} RedactingTwice(v: Json, sensitive: string -> bool)
    ensures Cleaned(Cleaned(v, sensitive), sensitive) == Cleaned(v, sensitive)
    decreases v
  {
    if v.Object? {
      forall k | k in v.fields && !sensitive(k)
        ensures Cleaned(Cleaned(v.fields[k], sensitive), sensitive) == Cleaned(v.fields[k], sensitive)
      {
        RedactingTwice(v.fields[k], sensitive);
      }
      var once := Cleaned(v, sensitive);
      assert Cleaned(once, sensitive).fields == once.fields;
    }
  }
}
