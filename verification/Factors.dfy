/** Whether a sign-in must present a second factor: the factor framework's question, asked of the stored factors. */
module Factors {
  import opened Wrappers

  type Id = string

  type Kind = string

  const WEBAUTHN: Kind := "webauthn"
  const TOTP: Kind := "totp"

  datatype Factor = Factor(id: Id, kind: Kind, active: bool)

  /** What this build can verify: typed codes of some kinds, and passkeys. */
  datatype Framework = Framework(codes: set<Kind>, passkeys: bool)

  predicate Empty(fw: Framework) { fw.codes == {} && !fw.passkeys }

  predicate CanVerify(fw: Framework, kind: Kind) {
    if kind == WEBAUTHN then fw.passkeys else kind in fw.codes
  }

  predicate Answerable(fw: Framework, f: Factor) {
    f.active && CanVerify(fw, f.kind)
  }

  /** The user holds a factor this build can challenge with. */
  predicate HoldsAnswerable(fw: Framework, factors: seq<Factor>) {
    exists i :: 0 <= i < |factors| && Answerable(fw, factors[i])
  }

  /** Spelled out: a confirmed factor, of a kind this build verifies; a passkey is verified by its own ceremony. */
  lemma HoldsAnswerableIff(fw: Framework, factors: seq<Factor>)
    ensures HoldsAnswerable(fw, factors) <==>
      exists i :: 0 <= i < |factors| && factors[i].active &&
        (if factors[i].kind == "webauthn" then fw.passkeys else factors[i].kind in fw.codes)
    ensures (forall i :: 0 <= i < |factors| ==> !factors[i].active) ==> !HoldsAnswerable(fw, factors)
  {
    if i :| 0 <= i < |factors| && factors[i].active &&
            (if factors[i].kind == "webauthn" then fw.passkeys else factors[i].kind in fw.codes) {
      assert Answerable(fw, factors[i]);
    }
  }

  /** The ids of the answerable factors, in the order stored. */
  function AnswerableIds(fw: Framework, factors: seq<Factor>): seq<Id> {
    if factors == [] then []
    else
      var before, f := AnswerableIds(fw, factors[..|factors| - 1]), factors[|factors| - 1];
      if Answerable(fw, f) then before + [f.id] else before
  }

  /** They are the ids of exactly those factors, and a factor stored later comes later. */
  lemma {:induction false} AnswerableIdsAre(fw: Framework, factors: seq<Factor>, n: nat)
    requires n <= |factors|
    ensures forall id :: id in AnswerableIds(fw, factors) <==>
      exists i :: 0 <= i < |factors| && factors[i].id == id && factors[i].active &&
        (if factors[i].kind == "webauthn" then fw.passkeys else factors[i].kind in fw.codes)
    ensures AnswerableIds(fw, factors[..n]) <= AnswerableIds(fw, factors)
    decreases |factors|
  {
    if factors == [] {
    } else {
      var before, f := factors[..|factors| - 1], factors[|factors| - 1];
      AnswerableIdsAre(fw, before, if n < |factors| then n else |before|);
      assert factors == before + [f];
      if n < |factors| {
        assert before[..n] == factors[..n];
      } else {
        assert factors[..n] == factors;
      }
      assert forall id :: id in AnswerableIds(fw, factors) <==>
        id in AnswerableIds(fw, before) || (Answerable(fw, f) && id == f.id);
    }
  }

  method Survey(fw: Framework, factors: seq<Factor>) returns (ids: seq<Id>, offered: seq<Kind>)
    ensures ids == AnswerableIds(fw, factors)
    ensures ids == [] <==>
      !exists i :: 0 <= i < |factors| && factors[i].active &&
        (if factors[i].kind == "webauthn" then fw.passkeys else factors[i].kind in fw.codes)
    ensures forall k :: k in offered <==>
      exists i :: 0 <= i < |factors| && factors[i].kind == k && factors[i].active &&
        (if k == "webauthn" then fw.passkeys else k in fw.codes)
    ensures forall i, j :: 0 <= i < j < |offered| ==> offered[i] != offered[j]
  {
    ids, offered := [], [];
    var seen: set<Kind> := {};
    for i := 0 to |factors|
      invariant ids == AnswerableIds(fw, factors[..i])
      invariant ids == [] <==> !exists j :: 0 <= j < i && Answerable(fw, factors[j])
      invariant forall k :: k in offered <==> k in seen
      invariant forall k :: k in seen <==> exists j :: 0 <= j < i && Answerable(fw, factors[j]) && factors[j].kind == k
      invariant forall a, b :: 0 <= a < b < |offered| ==> offered[a] != offered[b]
    {
      assert factors[..i + 1][..i] == factors[..i];
      var f := factors[i];
      if !f.active {
        continue;
      }
      if !CanVerify(fw, f.kind) {
        continue;
      }
      ids := ids + [f.id];
      if f.kind !in seen {
        seen := seen + {f.kind};
        offered := offered + [f.kind];
      }
    }
    assert factors[..|factors|] == factors;
  }

  datatype Decision = NoChallenge | Challenge(ids: seq<Id>, offered: seq<Kind>, recovery: bool)

  datatype Undecided = Undecided

  /**
   `stored` is None when the factors cannot be read; the other flags say whether drawing a handle,
   starting a passkey ceremony and storing the challenge work.
  */
  method Required(fw: Option<Framework>, stored: Option<seq<Factor>>, entropy: bool, ceremony: bool, stores: bool,
                  recovery: Option<bool>)
    returns (r: Result<Decision, Undecided>)
    ensures r == Success(NoChallenge) <==>
      || fw.None? || (fw.value.codes == {} && !fw.value.passkeys)
      || (stored.Some? &&
          !exists i :: 0 <= i < |stored.value| && stored.value[i].active &&
            (if stored.value[i].kind == "webauthn" then fw.value.passkeys else stored.value[i].kind in fw.value.codes))
    ensures r.Failure? <==>
      && fw.Some? && (fw.value.codes != {} || fw.value.passkeys)
      && (stored.None? ||
          (&& HoldsAnswerable(fw.value, stored.value)
           && (!entropy || !stores ||
               (!ceremony && fw.value.passkeys &&
                exists i :: 0 <= i < |stored.value| && stored.value[i].active && stored.value[i].kind == "webauthn"))))
    ensures r.Success? && r.value.Challenge? ==>
      && fw.Some? && stored.Some?
      && r.value.ids == AnswerableIds(fw.value, stored.value) != []
      && (forall k :: k in r.value.offered <==>
            exists i :: 0 <= i < |stored.value| && stored.value[i].kind == k && stored.value[i].active &&
              (if k == "webauthn" then fw.value.passkeys else k in fw.value.codes))
      && r.value.recovery == (recovery == Some(true))
  {
    if fw.None? || Empty(fw.value) {
      return Success(NoChallenge);
    }
    if stored.None? {
      return Failure(Undecided);
    }
    var ids, offered := Survey(fw.value, stored.value);
    HoldsAnswerableIff(fw.value, stored.value);
    if ids == [] {
      return Success(NoChallenge);
    }
    if !entropy || (WEBAUTHN in offered && !ceremony) || !stores {
      return Failure(Undecided);
    }
    return Success(Challenge(ids, offered, recovery == Some(true)));
  }
}
