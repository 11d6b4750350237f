/** backend/controllers/serviceexportrequest: the life of an APIServiceExportRequest. */
module ExportRequest {
  import opened Kube
  import opened ClaimableApis

  datatype Phase = Pending | Succeeded | Failed

  datatype Resource = Resource(group: string, resource: string, versions: seq<string>) {
    function ResourceGroupName(): string {
      GroupName(group, resource)
    }
  }

  datatype Claim = Claim(group: string, resource: string, selector: string)

  /** The spec of a request; its fields are immutable. */
  datatype Spec = Spec(resources: seq<Resource>, claims: seq<Claim>)

  /** The spec of the APIServiceExport that a request asks for. */
  datatype Export = Export(resources: seq<Resource>, claims: seq<Claim>)

  /** What one reconcile meets in the clusters: the exported schemas with their scopes (None if they cannot be
      listed), the bound schemas, what the cache says about the export, which calls fail, and the age of the request.
      */
  datatype Surroundings = Surroundings(
    exportedSchemas: Option<map<string, string>>,
    boundSchemas: set<string>,
    ensureSchemasFails: bool,
    cacheFails: bool,
    cacheShowsExport: bool,
    createFails: bool,
    statusUpdateFails: bool,
    ageSeconds: nat)

  /** The export that a request created, with the scopes that were validated just before. */
  datatype Made = Made(content: Export, scopes: map<string, string>)

  /** The stored phase of the request, the export of the same name, the one that this request created, and whether the
      request has been deleted. */
  datatype State = State(phase: Phase, existing: Option<Export>, made: Option<Made>, gone: bool)

  ghost predicate Claimable(c: Claim) {
    (c.group, c.resource) in CLAIMABLE_APIS
  }

  method IsClaimableAPI(c: Claim) returns (r: bool)
    ensures r == Claimable(c)
  {
    var i := 0;
    while i < |CLAIMABLE_APIS|
      invariant 0 <= i <= |CLAIMABLE_APIS|
      invariant forall j | 0 <= j < i :: CLAIMABLE_APIS[j] != (c.group, c.resource)
    {
      if c.group == CLAIMABLE_APIS[i].0 && c.resource == CLAIMABLE_APIS[i].1 {
        return true;
      }
      i := i + 1;
    }
    return false;
  }

  ghost predicate DistinctClaims(claims: seq<Claim>) {
    forall i, j | 0 <= i < j < |claims| ::
      (claims[i].group, claims[i].resource) != (claims[j].group, claims[j].resource)
  }

  ghost predicate ValidClaims(claims: seq<Claim>) {
    (forall c | c in claims :: Claimable(c)) && DistinctClaims(claims)
  }

  /** All resources are exported, and all of one scope. */
  ghost predicate OneScope(resources: seq<Resource>, schemas: map<string, string>) {
    && (forall r | r in resources :: r.ResourceGroupName() in schemas)
    && forall r, q | r in resources && q in resources ::
         schemas[r.ResourceGroupName()] == schemas[q.ResourceGroupName()]
  }

  datatype Verdict = Fine | Rejected | Invalid

  /** The loop over the scopes: the first non-empty scope is compared with all that follow. */
  predicate ScopesPass(resources: seq<Resource>, schemas: map<string, string>, first: string) {
    resources == [] ||
    (var name := resources[0].ResourceGroupName();
     && name in schemas
     && (first == "" || schemas[name] == first)
     && ScopesPass(resources[1..], schemas, if first == "" then schemas[name] else first))
  }

  /** With non-empty scopes the loop passes exactly the exported resources that are all of one scope. */
  lemma {:induction false} ScopesPassIffOneScope(resources: seq<Resource>, schemas: map<string, string>, first: string)
    requires NoScopeIsEmpty(schemas)
    ensures ScopesPass(resources, schemas, first) <==>
            && OneScope(resources, schemas)
            && (first != "" ==> forall r | r in resources :: schemas[r.ResourceGroupName()] == first)
  {
    if resources == [] {
    } else {
      var r, rest := resources[0], resources[1..];
      assert forall q :: q in resources <==> q == r || q in rest;
      if r.ResourceGroupName() in schemas {
        ScopesPassIffOneScope(rest, schemas, if first == "" then schemas[r.ResourceGroupName()] else first);
      }
    }
  }

  ghost function Validation(spec: Spec, exportedSchemas: Option<map<string, string>>): Verdict {
    if exportedSchemas.None? || exportedSchemas.value == map[] || !ScopesPass(spec.resources, exportedSchemas.value, "")
    then Rejected
    else if ValidClaims(spec.claims) then Fine
    else Invalid
  }

  method Validate(spec: Spec, exportedSchemas: Option<map<string, string>>) returns (v: Verdict)
    ensures v == Validation(spec, exportedSchemas)
  {
    if exportedSchemas.None? || exportedSchemas.value == map[] {
      return Rejected;
    }
    var oneScope := SameScope(spec.resources, exportedSchemas.value);
    if !oneScope {
      return Rejected;
    }
    var claimable := AllClaimable(spec.claims);
    if !claimable {
      return Invalid;
    }
    var distinct := NoDuplicates(spec.claims);
    return if distinct then Fine else Invalid;
  }

  method SameScope(resources: seq<Resource>, schemas: map<string, string>) returns (ok: bool)
    ensures ok == ScopesPass(resources, schemas, "")
  {
    var first := "";
    var i := 0;
    while i < |resources|
      invariant 0 <= i <= |resources|
      invariant ScopesPass(resources, schemas, "") == ScopesPass(resources[i..], schemas, first)
    {
      var name := resources[i].ResourceGroupName();
      assert resources[i..][1..] == resources[i + 1..];
      if name !in schemas {
        return false;
      }
      if first == "" {
        first := schemas[name];
      } else if schemas[name] != first {
        return false;
      }
      i := i + 1;
    }
    return true;
  }

  method AllClaimable(claims: seq<Claim>) returns (ok: bool)
    ensures ok == forall c | c in claims :: Claimable(c)
  {
    var i := 0;
    while i < |claims|
      invariant 0 <= i <= |claims|
      invariant forall j | 0 <= j < i :: Claimable(claims[j])
    {
      var claimable := IsClaimableAPI(claims[i]);
      if !claimable {
        assert claims[i] in claims;
        return false;
      }
      i := i + 1;
    }
    return true;
  }

  function SeenKey(c: Claim): string {
    c.group + "/" + c.resource
  }

  lemma SeenKeysAreFaithful(c: Claim, d: Claim)
    requires Claimable(c) && Claimable(d)
    ensures SeenKey(c) == SeenKey(d) <==> (c.group, c.resource) == (d.group, d.resource)
  {
  }

  method NoDuplicates(claims: seq<Claim>) returns (ok: bool)
    requires forall c | c in claims :: Claimable(c)
    ensures ok == DistinctClaims(claims)
  {
    var seen: set<string> := {};
    var i := 0;
    while i < |claims|
      invariant 0 <= i <= |claims|
      invariant seen == set j | 0 <= j < i :: SeenKey(claims[j])
      invariant DistinctClaims(claims[..i])
    {
      var key := SeenKey(claims[i]);
      forall j | 0 <= j < i
        ensures SeenKey(claims[j]) == key <==>
                (claims[j].group, claims[j].resource) == (claims[i].group, claims[i].resource)
      {
        SeenKeysAreFaithful(claims[j], claims[i]);
      }
      if key in seen {
        var j :| 0 <= j < i && SeenKey(claims[j]) == key;
        return false;
      }
      seen := seen + {key};
      i := i + 1;
    }
    assert claims[..i] == claims;
    return true;
  }

  predicate AllBound(resources: seq<Resource>, boundSchemas: set<string>) {
    forall r | r in resources :: r.ResourceGroupName() in boundSchemas
  }

  function Requested(spec: Spec): Export {
    Export(spec.resources, spec.claims)
  }

  /** ensureExports on a validated request: the new state before the status is stored. */
  function EnsureExports(spec: Spec, s: State, env: Surroundings): State {
    if s.phase == Pending then
      if !AllBound(spec.resources, env.boundSchemas) || env.cacheFails || env.cacheShowsExport || env.createFails then s
      else if s.existing.Some? then s  // the create answers that it already exists
      else
        s.(existing := Some(Requested(spec)),
           made := Some(Made(Requested(spec), if env.exportedSchemas.Some? then env.exportedSchemas.value else map[])),
           phase := if env.ageSeconds > 60 then Failed else Succeeded,
           gone := env.ageSeconds > 600)
    else s.(gone := env.ageSeconds > 600)
  }

  /** One reconcile of the request, with its status stored at the end if the phase has changed. */
  ghost function Reconciled(spec: Spec, s: State, env: Surroundings): State {
    if s.gone || env.ensureSchemasFails then s
    else
      var s' := match Validation(spec, env.exportedSchemas)
                case Rejected => s
                case Invalid => s.(phase := Failed)
                case Fine => EnsureExports(spec, s, env);
      if env.statusUpdateFails then s'.(phase := s.phase) else s'
  }

  /** Others may create or delete an export of that name. */
  datatype Action = Reconcile(env: Surroundings) | ExportAppears(e: Export) | ExportVanishes

  ghost function After(spec: Spec, s: State, a: Action): State {
    match a
    case Reconcile(env) => Reconciled(spec, s, env)
    case ExportAppears(e) => if s.existing.Some? then s else s.(existing := Some(e))
    case ExportVanishes => s.(existing := None)
  }

  ghost predicate IsRun(spec: Spec, states: seq<State>, actions: seq<Action>) {
    && |states| == |actions| + 1
    && states[0].phase == Pending && states[0].made.None?
    && forall i | 0 <= i < |actions| :: states[i + 1] == After(spec, states[i], actions[i])
  }

  /** Success is what it claims to be: this request created an export with exactly its resources and claims, the
      claims are claimable and distinct, and the resources were exported with one scope. */
  ghost predicate Honest(spec: Spec, s: State) {
    s.phase == Succeeded ==>
      && s.made.Some? && s.made.value.content == Export(spec.resources, spec.claims)
      && ValidClaims(spec.claims)
      && ScopesPass(spec.resources, s.made.value.scopes, "")
      && (NoScopeIsEmpty(s.made.value.scopes) ==> OneScope(spec.resources, s.made.value.scopes))
  }

  ghost predicate NoScopeIsEmpty(schemas: map<string, string>) {
    forall n | n in schemas :: schemas[n] != ""
  }

  lemma {:induction false} RunsAreHonest(spec: Spec, states: seq<State>, actions: seq<Action>, n: nat)
    requires IsRun(spec, states, actions) && n < |states|
    ensures Honest(spec, states[n])
  {
    if n == 0 {
    } else {
      RunsAreHonest(spec, states, actions, n - 1);
      assert states[n - 1 + 1] == After(spec, states[n - 1], actions[n - 1]);
      var made := states[n].made;
      if made.Some? && NoScopeIsEmpty(made.value.scopes) {
        ScopesPassIffOneScope(spec.resources, made.value.scopes, "");
      }
    }
  }

  /** Succeeded and Failed are final in every run that starts from Pending. */
  lemma {:induction false} FinalPhasesStay(spec: Spec, states: seq<State>, actions: seq<Action>, m: nat, n: nat)
    requires IsRun(spec, states, actions) && m <= n < |states| && states[m].phase != Pending
    ensures states[n].phase == states[m].phase
    decreases n
  {
    if m == n {
    } else {
      FinalPhasesStay(spec, states, actions, m, n - 1);
      RunsAreHonest(spec, states, actions, n - 1);
      assert states[n - 1 + 1] == After(spec, states[n - 1], actions[n - 1]);
    }
  }

  /** A pending request succeeds in exactly these surroundings; in particular never once an export of its name exists,
      not even the one it created itself before a failed status update. */
  lemma WhenPendingSucceeds(spec: Spec, s: State, env: Surroundings)
    requires s.phase == Pending
    ensures Reconciled(spec, s, env).phase == Succeeded <==>
            && !s.gone && s.existing.None?
            && !env.ensureSchemasFails && Validation(spec, env.exportedSchemas) == Fine
            && (forall res | res in spec.resources :: GroupName(res.group, res.resource) in env.boundSchemas)
            && !env.cacheFails && !env.cacheShowsExport && !env.createFails && !env.statusUpdateFails
            && env.ageSeconds <= 60
    ensures s.existing.Some? && ValidClaims(spec.claims) ==> Reconciled(spec, s, env) == s
  {
  }

  /** The exported schemas can be listed, and the resources are among them with one scope. */
  ghost predicate Served(spec: Spec, env: Surroundings) {
    && env.exportedSchemas.Some? && env.exportedSchemas.value != map[]
    && ScopesPass(spec.resources, env.exportedSchemas.value, "")
  }

  /** An export is created in this reconcile. */
  ghost predicate Creates(spec: Spec, s: State, env: Surroundings) {
    && s.phase == Pending && !s.gone && s.existing.None?
    && !env.ensureSchemasFails && Served(spec, env) && ValidClaims(spec.claims)
    && (forall res | res in spec.resources :: GroupName(res.group, res.resource) in env.boundSchemas)
    && !env.cacheFails && !env.cacheShowsExport && !env.createFails
  }

  /** A pending request fails exactly if its claims are bad, or if its export is created too late. */
  lemma WhenPendingFails(spec: Spec, s: State, env: Surroundings)
    requires s.phase == Pending
    ensures Reconciled(spec, s, env).phase == Failed <==>
            && !s.gone && !env.ensureSchemasFails && !env.statusUpdateFails && Served(spec, env)
            && (!ValidClaims(spec.claims) || (Creates(spec, s, env) && env.ageSeconds > 60))
  {
  }

  /** What else a reconcile does: the one export it creates is the one requested, nothing else changes the export, and
      the request is deleted after ten minutes, once its export is created or its phase is final. */
  lemma WhatIsDone(spec: Spec, s: State, env: Surroundings)
    ensures var s' := Reconciled(spec, s, env);
            && (Creates(spec, s, env) ==>
                  && s'.existing == Some(Export(spec.resources, spec.claims))
                  && s'.made.Some? && s'.made.value.content == Export(spec.resources, spec.claims)
                  && s'.made.value.scopes == env.exportedSchemas.value)
            && (!Creates(spec, s, env) ==> s'.existing == s.existing && s'.made == s.made)
            && (s'.gone <==>
                  || s.gone
                  || (env.ageSeconds > 600 &&
                      (Creates(spec, s, env) ||
                       (s.phase != Pending && !env.ensureSchemasFails && Served(spec, env) &&
                        ValidClaims(spec.claims)))))
  {
  }

  class Reconciler {
    var state: State

    constructor ()
      ensures state == State(Pending, None, None, false)
    {
      state := State(Pending, None, None, false);
    }

    method BuildExport(spec: Spec) returns (e: Export)
      ensures e == Requested(spec)
    {
      var resources := [];
      var i := 0;
      while i < |spec.resources|
        invariant 0 <= i <= |spec.resources|
        invariant resources == spec.resources[..i]
      {
        var res := spec.resources[i];
        resources := resources + [Resource(res.group, res.resource, res.versions)];
        i := i + 1;
      }
      return Export(resources, spec.claims);
    }

    method AllSchemasBound(resources: seq<Resource>, boundSchemas: set<string>) returns (ok: bool)
      ensures ok == AllBound(resources, boundSchemas)
    {
      var i := 0;
      while i < |resources|
        invariant 0 <= i <= |resources|
        invariant forall j | 0 <= j < i :: resources[j].ResourceGroupName() in boundSchemas
      {
        if resources[i].ResourceGroupName() !in boundSchemas {
          assert resources[i] in resources;
          return false;
        }
        i := i + 1;
      }
      return true;
    }

    method ReconcileRequest(spec: Spec, env: Surroundings)
      modifies this
      ensures state == Reconciled(spec, old(state), env)
    {
      if state.gone || env.ensureSchemasFails {
        return;
      }
      var original := state.phase;
      var verdict := Validate(spec, env.exportedSchemas);
      match verdict {
        case Rejected =>
        case Invalid => state := state.(phase := Failed);
        case Fine => CreateExport(spec, env);
      }
      if state.phase != original && env.statusUpdateFails {
        state := state.(phase := original);
      }
    }

    method CreateExport(spec: Spec, env: Surroundings)
      modifies this
      ensures state == EnsureExports(spec, old(state), env)
    {
      if state.phase == Pending {
        var bound := AllSchemasBound(spec.resources, env.boundSchemas);
        if !bound || env.cacheFails {
          return;
        }
        if env.cacheShowsExport {
          return;
        }
        var e := BuildExport(spec);
        if env.createFails || state.existing.Some? {
          return;
        }
        var scopes := if env.exportedSchemas.Some? then env.exportedSchemas.value else map[];
        state := state.(existing := Some(e), made := Some(Made(e, scopes)), phase := Succeeded);
        if env.ageSeconds > 60 {
          state := state.(phase := Failed);
        }
      }
      state := state.(gone := env.ageSeconds > 600);
    }
  }
}
