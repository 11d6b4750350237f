/** pkg/konnector/controllers/cluster/serviceexport: which sync workers run for an APIServiceExport. */
module ExportWorkers {
  import opened Kube
  import opened ClaimableApis
  import opened ContextStore

  datatype GroupResource = GroupResource(group: string, resource: string) {
    function ResourceGroupName(): string {
      GroupName(group, resource)
    }
  }

  datatype Export = Export(generation: int, resources: seq<GroupResource>)
  datatype Binding = Binding(generation: int, permissionClaims: seq<GroupResource>)
  datatype BindingLookup = BindingFound(binding: Binding) | BindingMissing | BindingError

  /** What fetching the BoundSchema of a resource yields. */
  datatype Fetch = Fetched | SchemaNotFound | FetchError

  /** The clusters as the reconciler meets them: which schemas can be fetched, which workers can be started, and for
      which of the others the failure is returned; that of making a controller is only logged. */
  datatype Surroundings = Surroundings(schema: string -> Fetch, starts: Key -> bool, reports: Key -> bool)

  /** ResolveClaimableAPI: the claimable resources, printed as GroupVersionResource. */
  function ResolveClaimableAPI(claim: GroupResource): Option<string> {
    if (claim.group, claim.resource) in CLAIMABLE_APIS then Some(claim.group + "/v1, Resource=" + claim.resource)
    else None
  }

  /** Exactly the core config maps, secrets and service accounts resolve, each to a key part of its own. */
  lemma ClaimsResolve(c: GroupResource, d: GroupResource)
    ensures ResolveClaimableAPI(c).Some? <==>
            c.group == "" && c.resource in {"configmaps", "secrets", "serviceaccounts"}
    ensures ResolveClaimableAPI(c).Some? && ResolveClaimableAPI(c) == ResolveClaimableAPI(d) ==> c == d
  {
    var infix := "/v1, Resource=";
    if ResolveClaimableAPI(c).Some? && ResolveClaimableAPI(c) == ResolveClaimableAPI(d) {
      assert c.group == d.group == "";
      assert (infix + c.resource)[|infix|..] == c.resource;
      assert (infix + d.resource)[|infix|..] == d.resource;
      assert "" + infix + c.resource == infix + c.resource && "" + infix + d.resource == infix + d.resource;
    }
  }

  /** Resources without dots in their names have names of their own, but for the empty group, which is called core. */
  lemma NamesTellResources(c: GroupResource, d: GroupResource)
    requires '.' !in c.resource && '.' !in d.resource
    ensures c.ResourceGroupName() == d.ResourceGroupName() <==>
            c.resource == d.resource && (c.group == d.group || {c.group, d.group} == {"", "core"})
  {
    var g, h := if c.group == "" then "core" else c.group, if d.group == "" then "core" else d.group;
    var n, m := c.ResourceGroupName(), d.ResourceGroupName();
    assert n == c.resource + "." + g && m == d.resource + "." + h;
    if n == m {
      assert n[|c.resource|] == '.' && n[|d.resource|] == '.';
      assert forall i | 0 <= i < |c.resource| :: n[i] == c.resource[i] && c.resource[i] in c.resource;
      assert forall i | 0 <= i < |d.resource| :: n[i] == d.resource[i] && d.resource[i] in d.resource;
      assert |c.resource| == |d.resource|;
      assert n[..|c.resource|] == c.resource && n[..|d.resource|] == d.resource;
      assert n[|c.resource| + 1..] == g && n[|d.resource| + 1..] == h;
    }
  }

  function ExportKey(ns: string, name: string): Key {
    ns + "." + name
  }

  function SchemaKey(exportKey: Key, schema: string): Key {
    exportKey + "." + schema
  }

  function ClaimPrefix(exportKey: Key): Key {
    exportKey + "." + "claim"
  }

  function ClaimKey(exportKey: Key, gvr: string): Key {
    exportKey + "." + ("claim" + "." + gvr)
  }

  /** The keys above are those that NewKey builds. */
  lemma KeysAreNewKeys(ns: string, name: string, part: string)
    ensures ExportKey(ns, name) == NewKey(ns, name, [])
    ensures SchemaKey(ExportKey(ns, name), part) == NewKey(ns, name, [part])
    ensures ClaimPrefix(ExportKey(ns, name)) == NewKey(ns, name, ["claim"])
    ensures ClaimKey(ExportKey(ns, name), part) == NewKey(ns, name, ["claim", part])
  {
  }

  predicate FoundSchemaKey(env: Surroundings, exportKey: Key, res: GroupResource, key: Key) {
    env.schema(res.ResourceGroupName()) == Fetched && key == SchemaKey(exportKey, res.ResourceGroupName())
  }

  predicate ResolvedClaimKey(exportKey: Key, claim: GroupResource, key: Key) {
    ResolveClaimableAPI(claim).Some? && key == ClaimKey(exportKey, ResolveClaimableAPI(claim).value)
  }

  /** What is swept when a schema is missing: the code puts the schema's name where the export's name belongs. */
  function SweptFor(ns: string, schema: string): Key {
    SchemaKey(ExportKey(ns, schema), schema)
  }

  type Entries = map<Key, SyncContext>

  predicate Same(s: Entries, s': Entries, k: Key) {
    (k in s <==> k in s') && (k in s ==> s[k] == s'[k])
  }

  /** What a key holds on the way of a reconcile: nothing, the worker from its beginning, or a newer one. */
  datatype Slot = Empty | Kept(generation: int) | Renewed(generation: int) {
    /** A worker of the right generation stays, any other is replaced. */
    function Ensured(wanted: int, starts: bool): Slot {
      if !Empty? && generation == wanted then this else if starts then Renewed(wanted) else Empty
    }
  }

  function SlotIn(s0: Entries, s: Entries, k: Key): Slot {
    if k !in s then Empty else if k in s0 && s[k] == s0[k] then Kept(s[k].generation) else Renewed(s[k].generation)
  }

  function FirstSlot(s0: Entries, k: Key): Slot {
    SlotIn(s0, s0, k)
  }

  /** An export with a binding, and the clusters around it. */
  datatype Job = Job(env: Surroundings, ns: string, name: string, se: Export, binding: Binding) {
    function Prefix(): Key {
      ExportKey(ns, name)
    }

    function Owner(): ExportName {
      ExportName(ns, name)
    }

    /** The worker is one of this export. */
    ghost predicate Owns(c: SyncContext) {
      c.cancel.owner == Owner()
    }

    predicate WantedSchema(key: Key) {
      exists i: nat :: i < |se.resources| && FoundSchemaKey(env, Prefix(), se.resources[i], key)
    }

    predicate WantedClaim(key: Key) {
      exists i: nat :: i < |binding.permissionClaims| && ResolvedClaimKey(Prefix(), binding.permissionClaims[i], key)
    }

    /** The workers that should run: one per found schema and one per resolvable claim. */
    predicate Wanted(key: Key) {
      WantedSchema(key) || WantedClaim(key)
    }

    function Generation(key: Key): int {
      if WantedSchema(key) then se.generation else binding.generation
    }

    ghost predicate FoundName(schema: string) {
      env.schema(schema) == Fetched &&
      exists i: nat :: i < |se.resources| && se.resources[i].ResourceGroupName() == schema
    }

    predicate Swept(res: GroupResource, k: Key) {
      env.schema(res.ResourceGroupName()) == SchemaNotFound && HasPrefix(k, SweptFor(ns, res.ResourceGroupName()))
    }

    /** The key is swept for one of the first n resources. */
    ghost predicate HitBefore(k: Key, n: nat)
      requires n <= |se.resources|
    {
      exists i: nat :: i < n && Swept(se.resources[i], k)
    }

    /** The key is swept for a missing schema, whoever it belongs to. */
    ghost predicate Hit(k: Key) {
      HitBefore(k, |se.resources|)
    }

    /** Among the first n resources, no sweep hits the key after the last one that wants it. */
    ghost predicate FoundLast(k: Key, n: nat)
      requires n <= |se.resources|
    {
      exists i: nat :: i < n && FoundSchemaKey(env, Prefix(), se.resources[i], k) &&
                       forall j | i < j < n :: !Swept(se.resources[j], k)
    }

    /** The key names neither a claim nor a found schema; outside the export's own keys the whole key is looked at. */
    ghost predicate Unreferenced(k: Key) {
      var schemaName := TrimPrefix(k, Prefix() + ".");
      !HasPrefix(schemaName, "claim.") && !FoundName(schemaName)
    }

    /** What the loop over the resources, the loop over the claims and the two clean-ups make of one key. */
    function AfterSchemas(k: Key, n: nat, x: Slot): Slot
      requires n <= |se.resources|
    {
      if n == 0 then x
      else
        var y, res := AfterSchemas(k, n - 1, x), se.resources[n - 1];
        if Swept(res, k) then Empty
        else if FoundSchemaKey(env, Prefix(), res, k) then y.Ensured(se.generation, env.starts(k))
        else y
    }

    function AfterClaims(k: Key, n: nat, x: Slot): Slot
      requires n <= |binding.permissionClaims|
    {
      if n == 0 then x
      else
        var y := AfterClaims(k, n - 1, x);
        if ResolvedClaimKey(Prefix(), binding.permissionClaims[n - 1], k) then
          y.Ensured(binding.generation, env.starts(k))
        else y
    }

    ghost function AfterClaimCleanUp(k: Key, x: Slot): Slot {
      if HasPrefix(k, ClaimPrefix(Prefix())) && !WantedClaim(k) then Empty else x
    }

    ghost function AfterSchemaCleanUp(k: Key, x: Slot): Slot {
      if HasPrefix(k, Prefix()) && Unreferenced(k) then Empty else x
    }

    ghost function After(k: Key, x: Slot): Slot {
      var y := AfterSchemas(k, |se.resources|, x);
      AfterSchemaCleanUp(k, AfterClaimCleanUp(k, AfterClaims(k, |binding.permissionClaims|, y)))
    }

    /** A reconcile that nobody interferes with turns s0 into s. */
    ghost predicate Ran(s0: Entries, s: Entries) {
      && (forall k :: SlotIn(s0, s, k) == After(k, FirstSlot(s0, k)))
      && (forall k | SlotIn(s0, s, k).Renewed? :: Owns(s[k]))
    }

    /** The workers of this export are exactly the wanted ones, at the right generations. */
    ghost predicate Converged(s: Entries) {
      && (forall k | k in s && Owns(s[k]) :: Wanted(k))
      && (forall k | Wanted(k) :: k in s && Owns(s[k]) && s[k].generation == Generation(k))
    }

    /** What a reconcile should make of the store s0: the wanted workers run and no other of this export, and the
        workers of other exports and those that were up to date are the same as before. */
    ghost predicate Outcome(s0: Entries, s: Entries) {
      && Converged(s)
      && (forall k | (k in s0 && !Owns(s0[k])) || (k in s && !Owns(s[k])) :: Same(s0, s, k))
      && (forall k | k in s0 && Wanted(k) && s0[k].generation == Generation(k) :: Same(s0, s, k))
    }

    /** A running worker has the generation that is wanted of it. */
    ghost predicate Current(k: Key, generation: int) {
      (WantedSchema(k) ==> generation == se.generation) && (WantedClaim(k) ==> generation == binding.generation)
    }

    /** The running worker is neither replaced nor swept. */
    ghost predicate Survives(k: Key, generation: int) {
      && Current(k, generation) && !Hit(k)
      && (HasPrefix(k, ClaimPrefix(Prefix())) ==> WantedClaim(k))
      && (HasPrefix(k, Prefix()) ==> !Unreferenced(k))
    }

    /** A worker is started under this key. */
    ghost predicate Restarts(k: Key, x: Slot) {
      Wanted(k) && (x.Kept? && Current(k, x.generation) ==> Hit(k))
    }

    /** The wanted worker will be there: one that is up to date is not swept; any other can be started, and no sweep
        of a missing schema follows. A schema worker must not lie under the claim prefix, where it is cleaned up,
        unless it is a claim worker of the same generation. */
    ghost predicate Attainable(k: Key, x: Slot) {
      && (if x.Kept? && x.generation == Generation(k) then !Hit(k)
          else env.starts(k) && (WantedClaim(k) || FoundLast(k, |se.resources|)))
      && (WantedSchema(k) && HasPrefix(k, ClaimPrefix(Prefix())) ==>
            WantedClaim(k) && se.generation == binding.generation)
    }

    /** No sweep of a missing schema and no clean-up reaches the key: it does not continue the export's key, or it
        does so without a dot and starts with "claim." or is the name of a found schema as a whole. */
    ghost predicate Spared(k: Key) {
      && !Hit(k)
      && (HasPrefix(k, Prefix()) ==> !HasPrefix(k, Prefix() + ".") && (HasPrefix(k, "claim.") || FoundName(k)))
    }

    /** The exact condition for the outcome, on the store before the reconcile: the wanted keys are attainable and not
        taken by other exports, and exactly the workers of other exports are spared. */
    ghost predicate Favourable(s0: Entries) {
      && (forall k | Wanted(k) :: Attainable(k, FirstSlot(s0, k)) && (k in s0 ==> Owns(s0[k])))
      && (forall k | k in s0 && !Wanted(k) :: Spared(k) <==> !Owns(s0[k]))
    }

    ghost predicate NoClaimNames() {
      forall res | res in se.resources :: !HasPrefix(res.ResourceGroupName(), "claim")
    }
  }

  lemma SchemaKeyPrefix(exportKey: Key, s: string, prefix: string)
    ensures HasPrefix(SchemaKey(exportKey, s), exportKey + ".")
    ensures HasPrefix(SchemaKey(exportKey, s), exportKey)
    ensures TrimPrefix(SchemaKey(exportKey, s), exportKey + ".") == s
    ensures HasPrefix(SchemaKey(exportKey, s), exportKey + "." + prefix) <==> HasPrefix(s, prefix)
  {
    var e, k := exportKey + ".", SchemaKey(exportKey, s);
    assert k == e + s && k[|e|..] == s && k[..|exportKey|] == exportKey;
    if |prefix| <= |s| {
      assert k[..|e + prefix|] == e + s[..|prefix|];
      assert (e + prefix)[|e|..] == prefix && (e + s[..|prefix|])[|e|..] == s[..|prefix|];
    }
  }

  /** Wanted keys lie under the export's key, claims under the claim prefix, and the last clean-up spares both. */
  lemma WantedKeys(job: Job, k: Key)
    ensures job.Wanted(k) ==> HasPrefix(k, job.Prefix() + ".") && HasPrefix(k, job.Prefix()) && !job.Unreferenced(k)
    ensures job.WantedClaim(k) ==>
              HasPrefix(k, ClaimPrefix(job.Prefix())) && HasPrefix(TrimPrefix(k, job.Prefix() + "."), "claim.")
    ensures job.WantedSchema(k) ==> job.FoundName(TrimPrefix(k, job.Prefix() + "."))
  {
    if job.WantedSchema(k) {
      var i: nat :| i < |job.se.resources| && FoundSchemaKey(job.env, job.Prefix(), job.se.resources[i], k);
      SchemaKeyPrefix(job.Prefix(), job.se.resources[i].ResourceGroupName(), "");
    }
    if job.WantedClaim(k) {
      var i: nat :| i < |job.binding.permissionClaims| &&
                    ResolvedClaimKey(job.Prefix(), job.binding.permissionClaims[i], k);
      var rest := "claim" + "." + ResolveClaimableAPI(job.binding.permissionClaims[i]).value;
      SchemaKeyPrefix(job.Prefix(), rest, "claim");
      assert HasPrefix(rest, "claim") && HasPrefix(rest, "claim.");
    }
  }

  /** If no resource is called "claim...", the two kinds of wanted keys never meet. */
  lemma KindsOfWantedKeys(job: Job, k: Key)
    requires job.NoClaimNames() && job.Wanted(k)
    ensures job.WantedClaim(k) <==> !job.WantedSchema(k)
    ensures job.WantedClaim(k) <==> HasPrefix(k, ClaimPrefix(job.Prefix()))
  {
    WantedKeys(job, k);
    if job.WantedSchema(k) {
      var i: nat :| i < |job.se.resources| && FoundSchemaKey(job.env, job.Prefix(), job.se.resources[i], k);
      assert job.se.resources[i] in job.se.resources;
      SchemaKeyPrefix(job.Prefix(), job.se.resources[i].ResourceGroupName(), "claim");
    }
  }

  /** Keys of the export that nobody wants are cleaned up. */
  lemma UnwantedIsCleanedUp(job: Job, k: Key, x: Slot)
    requires HasPrefix(k, job.Prefix() + ".") && !job.Wanted(k)
    ensures job.After(k, x) == Empty
  {
    var n := TrimPrefix(k, job.Prefix() + ".");
    assert k == SchemaKey(job.Prefix(), n);
    SchemaKeyPrefix(job.Prefix(), n, "claim");
    if HasPrefix(n, "claim.") {
      assert n[..5] == "claim";
    }
  }

  /** Without a sweep, the resources leave alone what they do not want or what has their generation. */
  lemma {:induction false} SchemasLeave(job: Job, k: Key, n: nat, x: Slot)
    requires n <= |job.se.resources| && !job.HitBefore(k, n)
    requires job.WantedSchema(k) ==> !x.Empty? && x.generation == job.se.generation
    ensures job.AfterSchemas(k, n, x) == x
  {
    if n == 0 {
    } else {
      SchemasLeave(job, k, n - 1, x);
    }
  }

  /** A sweep ends the worker for good, unless a resource that follows starts it again. */
  lemma {:induction false} SchemasSweep(job: Job, k: Key, n: nat, x: Slot)
    requires n <= |job.se.resources| && job.HitBefore(k, n)
    ensures !job.AfterSchemas(k, n, x).Kept?
    ensures !job.FoundLast(k, n) ==> job.AfterSchemas(k, n, x) == Empty
    decreases n
  {
    assert n > 0;
    var res := job.se.resources[n - 1];
    if !job.Swept(res, k) {
      assert job.HitBefore(k, n - 1);
      SchemasSweep(job, k, n - 1, x);
      if job.FoundLast(k, n - 1) {
        FoundLastAgain(job, k, n);
      }
      assert FoundSchemaKey(job.env, job.Prefix(), res, k) ==> job.FoundLast(k, n);
    }
  }

  lemma FoundLastAgain(job: Job, k: Key, n: nat)
    requires 0 < n <= |job.se.resources| && job.FoundLast(k, n - 1) && !job.Swept(job.se.resources[n - 1], k)
    ensures job.FoundLast(k, n)
  {
    var i: nat :| i < n - 1 && FoundSchemaKey(job.env, job.Prefix(), job.se.resources[i], k) &&
                  forall j | i < j < n - 1 :: !job.Swept(job.se.resources[j], k);
    assert forall j | i < j < n :: !job.Swept(job.se.resources[j], k);
  }

  /** A schema that is found after the last sweep has its worker, if that can be started. */
  lemma {:induction false} SchemasStart(job: Job, k: Key, n: nat, x: Slot)
    requires n <= |job.se.resources| && job.FoundLast(k, n) && job.env.starts(k)
    ensures var y := job.AfterSchemas(k, n, x);
            !y.Empty? && y.generation == job.se.generation
  {
    var i: nat :| i < n && FoundSchemaKey(job.env, job.Prefix(), job.se.resources[i], k) &&
                  forall j | i < j < n :: !job.Swept(job.se.resources[j], k);
    if i < n - 1 {
      assert job.FoundLast(k, n - 1);
      SchemasStart(job, k, n - 1, x);
    }
  }

  /** What cannot be started is not renewed. */
  lemma {:induction false} SchemasCannotStart(job: Job, k: Key, n: nat, x: Slot)
    requires n <= |job.se.resources| && !job.env.starts(k)
    ensures job.AfterSchemas(k, n, x) in {x, Empty}
    ensures (exists i: nat :: i < n && FoundSchemaKey(job.env, job.Prefix(), job.se.resources[i], k)) ==>
              var y := job.AfterSchemas(k, n, x);
              y.Empty? || y.generation == job.se.generation
  {
    if n == 0 {
    } else {
      SchemasCannotStart(job, k, n - 1, x);
    }
  }

  /** All claims that resolve to a key do the same to it. */
  lemma {:induction false} ClaimsEnsure(job: Job, k: Key, n: nat, x: Slot)
    requires n <= |job.binding.permissionClaims|
    ensures job.AfterClaims(k, n, x) ==
            if exists i: nat :: i < n && ResolvedClaimKey(job.Prefix(), job.binding.permissionClaims[i], k)
            then x.Ensured(job.binding.generation, job.env.starts(k)) else x
  {
    if n == 0 {
    } else {
      ClaimsEnsure(job, k, n - 1, x);
    }
  }

  /** A worker comes through the reconcile exactly if it survives its steps. */
  lemma SurvivalIsExact(job: Job, k: Key, generation: int)
    ensures job.After(k, Kept(generation)) == Kept(generation) <==> job.Survives(k, generation)
    ensures !job.Wanted(k) ==> (job.Survives(k, generation) <==> job.Spared(k))
  {
    var n, x := |job.se.resources|, Kept(generation);
    WantedKeys(job, k);
    ClaimsEnsure(job, k, |job.binding.permissionClaims|, job.AfterSchemas(k, n, x));
    if job.Hit(k) {
      SchemasSweep(job, k, n, x);
    } else if job.WantedSchema(k) && generation != job.se.generation {
      SchemasReplace(job, k, n, x);
    } else {
      SchemasLeave(job, k, n, x);
    }
    ClaimPrefixIsOurs(job, k);
    if HasPrefix(k, job.Prefix() + ".") && !job.Wanted(k) {
      UnwantedIsCleanedUp(job, k, x);
    }
  }

  lemma {:induction false} SchemasReplace(job: Job, k: Key, n: nat, x: Slot)
    requires n <= |job.se.resources| && !x.Empty? && x.generation != job.se.generation
    requires exists i: nat :: i < n && FoundSchemaKey(job.env, job.Prefix(), job.se.resources[i], k)
    ensures !job.AfterSchemas(k, n, x).Kept?
  {
    var i: nat :| i < n && FoundSchemaKey(job.env, job.Prefix(), job.se.resources[i], k);
    if i < n - 1 {
      SchemasReplace(job, k, n - 1, x);
    } else {
      SchemasKeepOrNot(job, k, n - 1, x);
    }
  }

  lemma {:induction false} SchemasKeepOrNot(job: Job, k: Key, n: nat, x: Slot)
    requires n <= |job.se.resources|
    ensures job.AfterSchemas(k, n, x).Kept? ==> job.AfterSchemas(k, n, x) == x
  {
    if n == 0 {
    } else {
      SchemasKeepOrNot(job, k, n - 1, x);
    }
  }

  lemma ClaimPrefixIsOurs(job: Job, k: Key)
    ensures HasPrefix(k, ClaimPrefix(job.Prefix())) ==> HasPrefix(k, job.Prefix() + ".") && HasPrefix(k, job.Prefix())
    ensures HasPrefix(k, job.Prefix() + ".") ==> HasPrefix(k, job.Prefix())
  {
    var p := job.Prefix() + ".";
    if HasPrefix(k, ClaimPrefix(job.Prefix())) {
      assert k[..|p|] == ClaimPrefix(job.Prefix())[..|p|] == p;
    }
    if HasPrefix(k, p) {
      assert k[..|job.Prefix()|] == p[..|job.Prefix()|] == job.Prefix();
    }
  }

  /** A wanted worker is there in the end, at its generation and kept if it was up to date, exactly if it is
      attainable. */
  lemma AttainabilityIsExact(job: Job, k: Key, x: Slot)
    requires job.Wanted(k) && !x.Renewed?
    ensures var y := job.After(k, x);
            && !y.Empty? && y.generation == job.Generation(k)
            && (!x.Empty? && x.generation == job.Generation(k) ==> y == x)
            <==> job.Attainable(k, x)
  {
    var n := |job.se.resources|;
    var y := job.AfterSchemas(k, n, x);
    WantedKeys(job, k);
    ClaimsEnsure(job, k, |job.binding.permissionClaims|, y);
    if job.Hit(k) {
      SchemasSweep(job, k, n, x);
    } else if job.WantedSchema(k) {
      UnhitIsFoundLast(job, k);
    }
    if job.FoundLast(k, n) && job.env.starts(k) {
      SchemasStart(job, k, n, x);
    }
    if !job.env.starts(k) {
      SchemasCannotStart(job, k, n, x);
    }
    if !job.Hit(k) && (job.WantedSchema(k) ==> !x.Empty? && x.generation == job.se.generation) {
      SchemasLeave(job, k, n, x);
    }
  }

  lemma UnhitIsFoundLast(job: Job, k: Key)
    requires job.WantedSchema(k) && !job.Hit(k)
    ensures job.FoundLast(k, |job.se.resources|)
  {
    var i: nat :| i < |job.se.resources| && FoundSchemaKey(job.env, job.Prefix(), job.se.resources[i], k);
    assert forall j | i < j < |job.se.resources| :: !job.Swept(job.se.resources[j], k);
  }

  /** Sync-worker convergence: a reconcile that nobody interferes with has the outcome it should exactly if the store
      and the surroundings were favourable. */
  lemma ConvergenceIsExact(job: Job, s0: Entries, s: Entries)
    requires job.Ran(s0, s)
    ensures job.Outcome(s0, s) <==> job.Favourable(s0)
  {
    forall k
      ensures KeyFavourable(job, s0, k) <==> KeyOutcome(job, s0, s, k)
    {
      KeyOutcomeIsExact(job, s0, s, k);
    }
    if job.Outcome(s0, s) {
      assert forall k :: KeyOutcome(job, s0, s, k);
      forall k
        ensures job.Wanted(k) ==> job.Attainable(k, FirstSlot(s0, k)) && (k in s0 ==> job.Owns(s0[k]))
        ensures k in s0 && !job.Wanted(k) ==> (job.Spared(k) <==> !job.Owns(s0[k]))
      {
        assert KeyFavourable(job, s0, k);
      }
    }
    if job.Favourable(s0) {
      assert forall k :: KeyFavourable(job, s0, k);
      KeysMakeTheOutcome(job, s0, s);
    }
  }

  lemma KeysMakeTheOutcome(job: Job, s0: Entries, s: Entries)
    requires forall k :: KeyOutcome(job, s0, s, k)
    ensures job.Outcome(s0, s)
  {
    forall k
      ensures k in s && job.Owns(s[k]) ==> job.Wanted(k)
      ensures job.Wanted(k) ==> k in s && job.Owns(s[k]) && s[k].generation == job.Generation(k)
      ensures (k in s0 && !job.Owns(s0[k])) || (k in s && !job.Owns(s[k])) ==> Same(s0, s, k)
      ensures k in s0 && job.Wanted(k) && s0[k].generation == job.Generation(k) ==> Same(s0, s, k)
    {
      assert KeyOutcome(job, s0, s, k);
    }
  }

  /** What favourable surroundings and the outcome ask of a single key. */
  ghost predicate KeyFavourable(job: Job, s0: Entries, k: Key) {
    && (job.Wanted(k) ==> job.Attainable(k, FirstSlot(s0, k)) && (k in s0 ==> job.Owns(s0[k])))
    && (k in s0 && !job.Wanted(k) ==> (job.Spared(k) <==> !job.Owns(s0[k])))
  }

  ghost predicate KeyOutcome(job: Job, s0: Entries, s: Entries, k: Key) {
    && (k in s && job.Owns(s[k]) ==> job.Wanted(k))
    && (job.Wanted(k) ==> k in s && job.Owns(s[k]) && s[k].generation == job.Generation(k))
    && ((k in s0 && !job.Owns(s0[k])) || (k in s && !job.Owns(s[k])) ==> Same(s0, s, k))
    && (k in s0 && job.Wanted(k) && s0[k].generation == job.Generation(k) ==> Same(s0, s, k))
  }

  lemma KeyOutcomeIsExact(job: Job, s0: Entries, s: Entries, k: Key)
    requires job.Ran(s0, s)
    ensures KeyFavourable(job, s0, k) <==> KeyOutcome(job, s0, s, k)
  {
    var x := FirstSlot(s0, k);
    assert SlotIn(s0, s, k) == job.After(k, x);
    if job.Wanted(k) {
      AttainabilityIsExact(job, k, x);
    } else if k in s0 {
      SurvivalIsExact(job, k, x.generation);
      NobodyStarts(job, k, x);
    } else {
      NobodyStarts(job, k, x);
    }
  }

  /** What is not wanted is not started. */
  lemma NobodyStarts(job: Job, k: Key, x: Slot)
    requires !job.Wanted(k)
    ensures job.After(k, x) in {x, Empty}
  {
    var n := |job.se.resources|;
    ClaimsEnsure(job, k, |job.binding.permissionClaims|, job.AfterSchemas(k, n, x));
    if job.Hit(k) {
      SchemasSweep(job, k, n, x);
      assert !job.FoundLast(k, n);
    } else {
      SchemasLeave(job, k, n, x);
    }
  }

  /** What cannot be started is, when the claims are looked at, as it was or gone. */
  lemma NeverStarted(job: Job, k: Key, x: Slot, j: nat)
    requires j <= |job.binding.permissionClaims| && !job.env.starts(k)
    ensures job.AfterClaims(k, j, job.AfterSchemas(k, |job.se.resources|, x)) in {x, Empty}
  {
    SchemasCannotStart(job, k, |job.se.resources|, x);
    ClaimsEnsure(job, k, j, job.AfterSchemas(k, |job.se.resources|, x));
  }

  /** A worker that is up to date and not swept is found so whenever the reconcile looks at its key. */
  lemma NoNeedToStart(job: Job, k: Key, x: Slot, i: nat, j: nat)
    requires x.Kept? && job.Current(k, x.generation) && !job.Hit(k)
    requires i <= |job.se.resources| && j <= |job.binding.permissionClaims|
    ensures job.AfterSchemas(k, i, x) == x
    ensures job.AfterClaims(k, j, x) == x
  {
    SchemasLeave(job, k, i, x);
    ClaimsEnsure(job, k, j, x);
  }

  /** The usual favourable case: no resource is called "claim...", all workers can be started, keys that have the
      export's key as a string prefix belong to the export, and no missing schema sweeps a wanted or a foreign key. */
  lemma UsuallyFavourable(job: Job, s0: Entries)
    requires job.NoClaimNames()
    requires forall k | job.Wanted(k) :: job.env.starts(k) && !job.Hit(k)
    requires forall k | k in s0 && (HasPrefix(k, job.Prefix()) || job.Hit(k)) :: job.Owns(s0[k])
    requires forall k | k in s0 && job.Owns(s0[k]) :: HasPrefix(k, job.Prefix() + ".")
    ensures job.Favourable(s0)
  {
    forall k | job.Wanted(k)
      ensures job.Attainable(k, FirstSlot(s0, k)) && (k in s0 ==> job.Owns(s0[k]))
    {
      WantedKeys(job, k);
      KindsOfWantedKeys(job, k);
      if job.WantedSchema(k) {
        UnhitIsFoundLast(job, k);
      }
    }
    forall k | k in s0 && !job.Wanted(k)
      ensures job.Spared(k) <==> !job.Owns(s0[k])
    {
      ClaimPrefixIsOurs(job, k);
    }
  }

  /** The reconcile of one export stops the worker of another: export "a" lacks the schema of "b" in group "g", and
      the worker of that schema runs for an export called "b.g". */
  lemma MissingSchemaStopsAnother(job: Job, s0: Entries, s: Entries)
    requires job.ns == "ns" && job.name == "a" && GroupResource("g", "b") in job.se.resources
    requires job.env.schema("b.g") == SchemaNotFound && job.Ran(s0, s)
    ensures var k := NewKey("ns", "b.g", ["b.g"]);
            !HasPrefix(k, job.Prefix()) && k !in s && (k in s0 && !job.Owns(s0[k]) ==> !job.Favourable(s0))
  {
    var k := NewKey("ns", "b.g", ["b.g"]);
    var i: nat :| i < |job.se.resources| && job.se.resources[i] == GroupResource("g", "b");
    assert job.se.resources[i].ResourceGroupName() == "b.g";
    assert k == SweptFor("ns", "b.g") && HasPrefix(k, k);
    assert job.Swept(job.se.resources[i], k) && job.Hit(k);
    assert k[3] == 'b' && job.Prefix()[3] == 'a';
    ClaimPrefixIsOurs(job, k);
    WantedKeys(job, k);
    UnsparedIsStopped(job, s0, s, k);
  }

  /** A key that is neither wanted nor spared is free afterwards, whoever had it. */
  lemma UnsparedIsStopped(job: Job, s0: Entries, s: Entries, k: Key)
    requires job.Ran(s0, s) && !job.Wanted(k) && !job.Spared(k)
    ensures k !in s
    ensures k in s0 && !job.Owns(s0[k]) ==> !job.Favourable(s0)
  {
    var x := FirstSlot(s0, k);
    assert SlotIn(s0, s, k) == job.After(k, x);
    NobodyStarts(job, k, x);
    if k in s0 {
      SurvivalIsExact(job, k, x.generation);
    }
  }

  /** So does the raw prefix: whatever export "a" is about, its reconcile stops the workers of export "ab". */
  lemma RawPrefixStopsAnother(job: Job, s0: Entries, s: Entries, schema: string)
    requires job.ns == "ns" && job.name == "a" && job.Ran(s0, s)
    requires !job.FoundName(NewKey("ns", "ab", [schema]))
    ensures var k := NewKey("ns", "ab", [schema]);
            !HasPrefix(k, job.Prefix() + ".") && k !in s && (k in s0 && !job.Owns(s0[k]) ==> !job.Favourable(s0))
  {
    var k := NewKey("ns", "ab", [schema]);
    assert job.Prefix() == "ns.a" && k == "ns.ab." + schema;
    assert k[..4] == "ns.a" && k[4] == 'b' && (job.Prefix() + ".")[4] == '.';
    assert k[0] != "claim."[0];
    WantedKeys(job, k);
    UnsparedIsStopped(job, s0, s, k);
  }

  /** And so does a dot in a name: the workers of an export "a.b" are taken for left-over ones of export "a", which
      stops all those that it does not want itself. */
  lemma DottedNameStopsAnother(a: Job, b: Job, s0: Entries, s: Entries, k: Key)
    requires a.ns == b.ns && a.name != b.name && HasPrefix(b.name + ".", a.name + ".")
    requires b.Wanted(k) && !a.Wanted(k) && a.Ran(s0, s)
    ensures k !in s && !b.Converged(s)
    ensures b.Converged(s0) ==> !a.Favourable(s0)
  {
    WantedKeys(b, k);
    LongerNameIsUnder(a, b, k);
    ClaimPrefixIsOurs(a, k);
    UnsparedIsStopped(a, s0, s, k);
  }

  lemma LongerNameIsUnder(a: Job, b: Job, k: Key)
    requires a.ns == b.ns && HasPrefix(b.name + ".", a.name + ".") && HasPrefix(k, b.Prefix() + ".")
    ensures HasPrefix(k, a.Prefix() + ".")
  {
    var p, q := a.Prefix() + ".", b.Prefix() + ".";
    assert p == a.ns + "." + (a.name + ".") && q == a.ns + "." + (b.name + ".");
    assert q[..|p|] == a.ns + "." + (b.name + ".")[..|a.name| + 1] == p;
    assert k[..|p|] == k[..|q|][..|p|];
  }

  /** Such exports: "cowboys" for nothing at all, and "cowboys.wildwest" for one resource, whose worker is stopped by
      the reconcile of the first. */
  lemma DottedNameExample(s0: Entries, s: Entries)
    ensures var env := Surroundings(schema => Fetched, key => true, key => true);
            var a := Job(env, "ns", "cowboys", Export(1, []), Binding(1, []));
            var b := Job(env, "ns", "cowboys.wildwest", Export(1, [GroupResource("dev", "sheriffs")]), Binding(1, []));
            var k := NewKey("ns", "cowboys.wildwest", ["sheriffs.dev"]);
            b.Wanted(k) && (b.Converged(s0) && a.Ran(s0, s) ==> k !in s && !b.Converged(s))
  {
    var env := Surroundings(schema => Fetched, key => true, key => true);
    var a := Job(env, "ns", "cowboys", Export(1, []), Binding(1, []));
    var b := Job(env, "ns", "cowboys.wildwest", Export(1, [GroupResource("dev", "sheriffs")]), Binding(1, []));
    var k := NewKey("ns", "cowboys.wildwest", ["sheriffs.dev"]);
    assert b.se.resources[0].ResourceGroupName() == "sheriffs.dev";
    assert FoundSchemaKey(env, b.Prefix(), b.se.resources[0], k);
    assert (b.name + ".")[..8] == a.name + ".";
    if a.Ran(s0, s) {
      DottedNameStopsAnother(a, b, s0, s, k);
    }
  }

  /** After a reconcile with the right outcome, a second one starts and stops nothing, exactly if no missing schema
      sweeps a wanted worker; otherwise that worker is stopped in every reconcile. */
  lemma SecondRunIsIdle(job: Job, s0: Entries, s: Entries, s2: Entries)
    requires job.Favourable(s0) && job.Ran(s0, s) && job.Ran(s, s2)
    ensures job.Converged(s)
    ensures s2 == s <==> forall k | job.Wanted(k) :: !job.Hit(k)
    ensures s2 == s <==> job.Favourable(s)
  {
    ConvergenceIsExact(job, s0, s);
    ConvergenceIsExact(job, s, s2);
    FavourableAgain(job, s0, s);
    if job.Outcome(s, s2) {
      ConvergedIsKept(job, s, s2);
    }
  }

  /** What is new is wanted and belongs to the export. */
  lemma NewIsWanted(job: Job, s0: Entries, s: Entries)
    requires job.Ran(s0, s)
    ensures forall k | k in s && !Same(s0, s, k) :: job.Owns(s[k]) && job.Wanted(k)
  {
    forall k | k in s && !Same(s0, s, k)
      ensures job.Owns(s[k]) && job.Wanted(k)
    {
      assert SlotIn(s0, s, k) == job.After(k, FirstSlot(s0, k));
      if !job.Wanted(k) {
        NobodyStarts(job, k, FirstSlot(s0, k));
      }
    }
  }

  lemma FavourableAgain(job: Job, s0: Entries, s: Entries)
    requires job.Favourable(s0) && job.Outcome(s0, s)
    ensures job.Favourable(s) <==> forall k | job.Wanted(k) :: !job.Hit(k)
  {
    forall k | k in s && !job.Wanted(k)
      ensures job.Spared(k) && !job.Owns(s[k])
    {
      assert Same(s0, s, k);
    }
    forall k | job.Wanted(k)
      ensures job.Attainable(k, FirstSlot(s, k)) <==> !job.Hit(k)
    {
      assert job.Attainable(k, FirstSlot(s0, k));
    }
  }

  /** A converged store is not touched. */
  lemma ConvergedIsKept(job: Job, s: Entries, s': Entries)
    requires job.Converged(s) && job.Outcome(s, s')
    ensures s' == s
  {
    forall k
      ensures Same(s, s', k)
    {
      if k in s && job.Owns(s[k]) {
        assert job.Wanted(k);
      }
    }
  }

  lemma OthersAreKept(job: Job, s: Entries, s': Entries, key: Key)
    requires job.Outcome(s, s') && key !in s
    requires forall k | k in s && job.Owns(s[k]) :: job.Wanted(k)
    requires forall k | job.Wanted(k) && k != key :: k in s && s[k].generation == job.Generation(k)
    ensures s' - {key} == s
  {
    forall k | k != key
      ensures Same(s, s', k)
    {
      if k in s && job.Owns(s[k]) {
        assert job.Wanted(k);
      }
    }
  }

  /** What a converged store means: every found schema has a worker at the export's generation, and every resolvable
      claim one at the binding's; different claims have different workers; there are no others. */
  lemma ConvergedMeans(job: Job, s: Entries)
    requires job.NoClaimNames() && job.Converged(s) && forall k | k in s :: s[k].cancel.key == k
    ensures forall res | res in job.se.resources && job.env.schema(res.ResourceGroupName()) == Fetched ::
              var k := NewKey(job.ns, job.name, [res.ResourceGroupName()]);
              k in s && job.Owns(s[k]) && s[k].generation == job.se.generation
    ensures forall c | c in job.binding.permissionClaims && Claimable(c) ::
              var k := WorkerOfClaim(job, c);
              k in s && job.Owns(s[k]) && s[k].generation == job.binding.generation
    ensures forall c, d | Claimable(c) && Claimable(d) && c != d && WorkerOfClaim(job, c) in s &&
                          WorkerOfClaim(job, d) in s ::
              s[WorkerOfClaim(job, c)].cancel != s[WorkerOfClaim(job, d)].cancel
    ensures forall k | k in s && job.Owns(s[k]) ::
              || (exists res | res in job.se.resources :: k == NewKey(job.ns, job.name, [res.ResourceGroupName()]))
              || (exists c | c in job.binding.permissionClaims :: Claimable(c) && k == WorkerOfClaim(job, c))
  {
    forall res | res in job.se.resources && job.env.schema(res.ResourceGroupName()) == Fetched
      ensures var k := NewKey(job.ns, job.name, [res.ResourceGroupName()]);
              k in s && job.Owns(s[k]) && s[k].generation == job.se.generation
    {
      var i: nat :| i < |job.se.resources| && job.se.resources[i] == res;
      KeysAreNewKeys(job.ns, job.name, res.ResourceGroupName());
      var k := SchemaKey(job.Prefix(), res.ResourceGroupName());
      assert FoundSchemaKey(job.env, job.Prefix(), job.se.resources[i], k);
    }
    forall c | c in job.binding.permissionClaims && Claimable(c)
      ensures var k := WorkerOfClaim(job, c);
              k in s && job.Owns(s[k]) && s[k].generation == job.binding.generation
    {
      ClaimIsWanted(job, c);
      KindsOfWantedKeys(job, WorkerOfClaim(job, c));
    }
    forall c, d | Claimable(c) && Claimable(d) && c != d && WorkerOfClaim(job, c) in s && WorkerOfClaim(job, d) in s
      ensures s[WorkerOfClaim(job, c)].cancel != s[WorkerOfClaim(job, d)].cancel
    {
      DifferentClaims(job, c, d);
    }
    forall k | k in s && job.Owns(s[k])
      ensures || (exists res | res in job.se.resources :: k == NewKey(job.ns, job.name, [res.ResourceGroupName()]))
              || (exists c | c in job.binding.permissionClaims :: Claimable(c) && k == WorkerOfClaim(job, c))
    {
      WhoWants(job, k);
    }
  }

  predicate Claimable(c: GroupResource) {
    c.group == "" && c.resource in {"configmaps", "secrets", "serviceaccounts"}
  }

  /** The key of the worker for a claimable resource, as NewKey makes it of the resource's printed form. */
  function WorkerOfClaim(job: Job, c: GroupResource): Key {
    NewKey(job.ns, job.name, ["claim", c.group + "/v1, Resource=" + c.resource])
  }

  lemma ClaimIsWanted(job: Job, c: GroupResource)
    requires c in job.binding.permissionClaims && Claimable(c)
    ensures job.WantedClaim(WorkerOfClaim(job, c))
  {
    var i: nat :| i < |job.binding.permissionClaims| && job.binding.permissionClaims[i] == c;
    ClaimsResolve(c, c);
    KeysAreNewKeys(job.ns, job.name, ResolveClaimableAPI(c).value);
    assert ResolvedClaimKey(job.Prefix(), job.binding.permissionClaims[i], WorkerOfClaim(job, c));
  }

  lemma DifferentClaims(job: Job, c: GroupResource, d: GroupResource)
    requires Claimable(c) && Claimable(d) && c != d
    ensures WorkerOfClaim(job, c) != WorkerOfClaim(job, d)
  {
    ClaimsResolve(c, d);
    var x, y := ResolveClaimableAPI(c).value, ResolveClaimableAPI(d).value;
    KeysAreNewKeys(job.ns, job.name, x);
    KeysAreNewKeys(job.ns, job.name, y);
    ClaimKeysTell(job.Prefix(), x, y);
  }

  lemma ClaimKeysTell(exportKey: Key, x: string, y: string)
    ensures ClaimKey(exportKey, x) == ClaimKey(exportKey, y) ==> x == y
  {
    var a, b := "claim" + "." + x, "claim" + "." + y;
    SchemaKeyPrefix(exportKey, a, "");
    SchemaKeyPrefix(exportKey, b, "");
    assert a[6..] == x && b[6..] == y;
  }

  lemma WhoWants(job: Job, k: Key)
    requires job.Wanted(k)
    ensures || (exists res | res in job.se.resources :: k == NewKey(job.ns, job.name, [res.ResourceGroupName()]))
            || (exists c | c in job.binding.permissionClaims :: Claimable(c) && k == WorkerOfClaim(job, c))
  {
    if job.WantedSchema(k) {
      var i: nat :| i < |job.se.resources| && FoundSchemaKey(job.env, job.Prefix(), job.se.resources[i], k);
      assert job.se.resources[i] in job.se.resources;
      KeysAreNewKeys(job.ns, job.name, job.se.resources[i].ResourceGroupName());
    } else {
      var i: nat :| i < |job.binding.permissionClaims| &&
                    ResolvedClaimKey(job.Prefix(), job.binding.permissionClaims[i], k);
      var c := job.binding.permissionClaims[i];
      assert c in job.binding.permissionClaims;
      ClaimsResolve(c, c);
      KeysAreNewKeys(job.ns, job.name, ResolveClaimableAPI(c).value);
    }
  }

  /** A claim worker that ends late deletes its key even if a newer worker has taken it. The next reconcile in
      favourable surroundings restarts that worker and no other. */
  lemma LateDeleteIsRepaired(job: Job, s: Entries, key: Key, s': Entries)
    requires job.Converged(s) && job.Wanted(key)
    requires job.Favourable(s - {key}) && job.Ran(s - {key}, s')
    ensures !job.Converged(s - {key})
    ensures job.Converged(s') && s' - {key} == s - {key}
  {
    ConvergenceIsExact(job, s - {key}, s');
    OthersAreKept(job, s - {key}, s', key);
  }
}
