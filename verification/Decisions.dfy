/** The decision itself (authz/decide.go). */
module Decisions {
  import opened AuthzKeys

  datatype Request = Request(subjectUserId: Id, action: string, resourceType: string)

  function Permission(req: Request): string {
    req.resourceType + ":" + req.action
  }

  datatype Grant = Grant(roleKey: string, permissionKeys: seq<string>)

  /** The three sentences a reason can be. */
  datatype Reason =
    | HoldsRole(role: string)
    | RoleCarries(role: string, permission: string)
    | NoRoleCarries(permission: string)

  datatype Decision = Decision(allowed: bool, matchedPolicy: string, reasons: seq<Reason>)

  function Allow(role: string, permission: string): Decision {
    Decision(true, role, [HoldsRole(role), RoleCarries(role, permission)])
  }

  function Deny(permission: string): Decision {
    Decision(false, "", [NoRoleCarries(permission)])
  }

  function Decide(req: Request, grants: seq<Grant>): Decision {
    if grants == [] then Deny(Permission(req))
    else if Permission(req) in grants[0].permissionKeys then Allow(grants[0].roleKey, Permission(req))
    else Decide(req, grants[1..])
  }

  /** A request is allowed exactly when some grant carries its permission, and the first one is named. */
  lemma {:induction false} DecideNamesTheFirstCarrier(req: Request, grants: seq<Grant>)
    ensures Decide(req, grants).allowed <==>
      exists i :: 0 <= i < |grants| && req.resourceType + ":" + req.action in grants[i].permissionKeys
    ensures Decide(req, grants).allowed ==>
      exists i ::
        && 0 <= i < |grants| && req.resourceType + ":" + req.action in grants[i].permissionKeys
        && (forall j :: 0 <= j < i ==> req.resourceType + ":" + req.action !in grants[j].permissionKeys)
        && Names(Decide(req, grants), grants[i].roleKey, req.resourceType + ":" + req.action)
    ensures !Decide(req, grants).allowed ==>
      Decide(req, grants) == Decision(false, "", [NoRoleCarries(req.resourceType + ":" + req.action)])
  {
    if grants != [] && Permission(req) !in grants[0].permissionKeys {
      var rest := grants[1..];
      DecideNamesTheFirstCarrier(req, rest);
      assert forall i :: 0 <= i < |rest| ==> rest[i] == grants[i + 1];
      if Decide(req, rest).allowed {
        var i :| 0 <= i < |rest| && Permission(req) in rest[i].permissionKeys &&
          (forall j :: 0 <= j < i ==> Permission(req) !in rest[j].permissionKeys) &&
          Names(Decide(req, rest), rest[i].roleKey, Permission(req));
        forall j | 0 <= j < i + 1 ensures Permission(req) !in grants[j].permissionKeys {
          if j > 0 {
            assert grants[j] == rest[j - 1];
          }
        }
        assert Permission(req) in grants[i + 1].permissionKeys;
        assert Names(Decide(req, grants), grants[i + 1].roleKey, Permission(req));
      }
    }
  }

  /** The answer names this role, as the policy matched and in both reasons. */
  predicate Names(d: Decision, role: string, permission: string) {
    d == Decision(true, role, [HoldsRole(role), RoleCarries(role, permission)])
  }
}
