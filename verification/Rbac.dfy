/** Users, principals and the permissions a role grants. */
module Rbac {

  datatype User = User(
    id: string, role: string, enabled: bool, environments: seq<string>,
    mfaRequired: bool, mfaEnabled: bool, forcePassword: bool)

  /** An authenticated caller; a non-empty token id means the scopes of that token apply. */
  datatype Principal = Principal(user: User, tokenId: string, scopes: seq<string>, mfa: bool)

  const READ: seq<string> := [
    "host.read", "resource.read", "container.read", "container.logs", "service.read", "service.logs",
    "kubernetes.read", "nomad.read", "deployment.read", "operation.read", "alert.read", "incident.read", "llm.use"
  ]

  const OPERATE: seq<string> := [
    "container.create", "container.start", "container.stop", "container.restart", "container.pause",
    "container.unpause", "container.recreate", "container.up", "container.down", "container.exec",
    "service.start", "service.stop", "service.restart", "service.reload", "kubernetes.scale",
    "kubernetes.restart", "kubernetes.delete", "kubernetes.rollback", "kubernetes.deploy", "nomad.run",
    "nomad.stop", "nomad.restart", "swarm.scale", "swarm.restart", "deployment.execute",
    "deployment.rollback", "schedule.manage", "incident.manage"
  ]

  function Permissions(role: string): seq<string> {
    if role == "ADMIN" then ["*"]
    else if role == "OPERATOR" then READ + OPERATE
    else if role == "APPROVER" then READ + ["operation.approve", "audit.read"]
    else if role == "AUDITOR" then READ + ["audit.read"]
    else if role == "VIEWER" then READ
    else []
  }

  predicate Allowed(p: Principal, permission: string, environment: string) {
    && p.user.enabled
    && (p.user.role == "ADMIN" || environment == "" || "*" in p.user.environments || environment in p.user.environments)
    && ("*" in Permissions(p.user.role) || permission in Permissions(p.user.role))
    && (p.tokenId == "" || permission in p.scopes)
  }

  predicate HasPrefix(s: string, prefix: string) {
    prefix <= s
  }

  /** The first part of the permissions on a provider's resources. */
  function Family(provider: string): string {
    if provider == "docker" || provider == "dockercompose" || provider == "podman" || provider == "podmancompose"
       || provider == "provisioning" then "container"
    else if provider == "kubernetes" || provider == "kubernetes-api" then "kubernetes"
    else if provider == "nomad" then "nomad"
    else if provider == "swarm" then "swarm"
    else "service"
  }

  function Permission(provider: string, action: string): string {
    var prefix := Family(provider);
    if action == "logs" then
      if prefix == "kubernetes" || prefix == "nomad" || prefix == "swarm" then "resource.read" else prefix + ".logs"
    else if HasPrefix(action, "rollout") || action == "inspect" || action == "stats" || action == "describe"
            || action == "events" || action == "status" then "resource.read"
    else prefix + "." + action
  }

  lemma {:induction false} NobodyReadsOrOperatesEverything()
    ensures "*" !in READ && "*" !in OPERATE
  {
    assert "*" !in READ;
  }

  lemma {:induction false} ApprovingIsNotReading()
    ensures "operation.approve" !in READ
  {}

  lemma {:induction false} ApprovingIsNotOperating()
    ensures "operation.approve" !in OPERATE
  {}

  lemma {:induction false} ReconcilingIsNotReading()
    ensures "host.update" !in READ
  {}

  lemma {:induction false} ReconcilingIsNotOperating()
    ensures "host.update" !in OPERATE
  {}

  /** Only enabled administrators and approvers can approve. */
  lemma {:induction false} WhoApproves(p: Principal, environment: string)
    requires Allowed(p, "operation.approve", environment)
    ensures p.user.enabled && (p.user.role == "ADMIN" || p.user.role == "APPROVER")
  {
    ApprovingIsNotReading();
    ApprovingIsNotOperating();
    AllowedMeans(p, "operation.approve", environment);
    hide Allowed, READ, OPERATE;
  }

  /** Only enabled administrators can release a lease by reconciliation. */
  lemma {:induction false} WhoReconciles(p: Principal, environment: string)
    requires Allowed(p, "host.update", environment)
    ensures p.user.enabled && p.user.role == "ADMIN"
  {
    ReconcilingIsNotReading();
    ReconcilingIsNotOperating();
    AllowedMeans(p, "host.update", environment);
    hide Allowed, READ, OPERATE;
  }

  /** What a role is granted, without wildcards. */
  ghost predicate Granted(role: string, permission: string) {
    || role == "ADMIN"
    || (role in {"OPERATOR", "APPROVER", "AUDITOR", "VIEWER"} && permission in READ)
    || (role == "OPERATOR" && permission in OPERATE)
    || (role == "APPROVER" && permission in {"operation.approve", "audit.read"})
    || (role == "AUDITOR" && permission == "audit.read")
  }

  lemma {:induction false} RolePermissions(role: string, permission: string)
    requires permission != "*"
    ensures "*" in Permissions(role) || permission in Permissions(role) <==> Granted(role, permission)
  {
    NobodyReadsOrOperatesEverything();
    if role == "ADMIN" {
      assert "*" in Permissions(role);
    } else {
      hide READ, OPERATE;
      assert "*" !in Permissions(role);
    }
  }

  /**
   * Who is allowed what: an enabled user, in an environment of theirs unless the permission is not
   * bound to one or they are an administrator, whose role is granted it and whose token has it in scope.
   */
  lemma {:induction false} AllowedMeans(p: Principal, permission: string, environment: string)
    requires permission != "*"
    ensures Allowed(p, permission, environment) <==>
              && p.user.enabled
              && (environment == "" || p.user.role == "ADMIN" ||
                  exists e :: e in p.user.environments && (e == "*" || e == environment))
              && Granted(p.user.role, permission)
              && (p.tokenId != "" ==> permission in p.scopes)
  {
    RolePermissions(p.user.role, permission);
    hide Permissions, Granted;
  }

  /** The family of permissions that govern a provider's resources; services are the rest. */
  const FAMILIES: map<string, string> := map[
    "docker" := "container", "dockercompose" := "container", "podman" := "container", "podmancompose" := "container",
    "provisioning" := "container", "kubernetes" := "kubernetes", "kubernetes-api" := "kubernetes", "nomad" := "nomad",
    "swarm" := "swarm"]

  /** Reading needs a read permission, and every other action its own permission in the provider's family. */
  lemma {:induction false} PermissionMeans(provider: string, action: string)
    ensures var family := if provider in FAMILIES then FAMILIES[provider] else "service";
            && (action in {"inspect", "stats", "describe", "events", "status"} || "rollout" <= action ==>
                  Permission(provider, action) == "resource.read")
            && (action == "logs" && family in {"kubernetes", "nomad", "swarm"} ==>
                  Permission(provider, action) == "resource.read")
            && (action == "logs" && family in {"container", "service"} ==>
                  Permission(provider, action) == family + "." + action)
            && (action !in {"logs", "inspect", "stats", "describe", "events", "status"} && !("rollout" <= action) ==>
                  Permission(provider, action) == family + "." + action)
  {
    FamilyMeans(provider);
    hide Family, FAMILIES;
    if action == "logs" {
      assert !("rollout" <= action) by { assert "rollout"[0] != action[0]; }
    }
  }

  lemma {:induction false} FamilyMeans(provider: string)
    ensures Family(provider) == if provider in FAMILIES then FAMILIES[provider] else "service"
    ensures Family(provider) in {"container", "kubernetes", "nomad", "swarm", "service"}
  {}
}
