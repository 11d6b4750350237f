/** ensureControllers and its helpers, as they work on the store of sync workers. Two of them run at the same time,
    for different exports, and claim workers that end delete their keys whenever they like; so between any two calls
    to the store others may have changed it. */
module ExportReconciler {
  import opened Kube
  import opened ContextStore
  import opened ExportWorkers
  import opened ExportsTogether

  /** What others may do while a reconcile runs: delete any of these keys, and start the workers of other exports. */
  datatype Others = Others(deleting: set<Key>, jobs: seq<Job>) {
    predicate Starts(k: Key) {
      exists i: nat :: i < |jobs| && jobs[i].Wanted(k)
    }

    predicate Touches(k: Key) {
      k in deleting || Starts(k)
    }

    ghost predicate Nobody() {
      deleting == {} && jobs == []
    }
  }

  /** No other reconcile wants a key that this one wants. */
  ghost predicate Exclusive(job: Job, others: Others) {
    forall k | job.Wanted(k) :: !others.Starts(k)
  }

  /** The names of the exports tell. */
  lemma NamesMakeExclusive(job: Job, others: Others)
    requires forall other | other in others.jobs :: other.ns == job.ns && !NamesOverlap(job.name, other.name)
    ensures Exclusive(job, others)
  {
    forall k | job.Wanted(k)
      ensures !others.Starts(k)
    {
      forall i: nat | i < |others.jobs|
        ensures !others.jobs[i].Wanted(k)
      {
        assert others.jobs[i] in others.jobs;
        if others.jobs[i].Wanted(k) {
          CommonKeyMeansOverlap(job, others.jobs[i], k);
        }
      }
    }
  }

  datatype Call = Drop(key: Key) | Start(i: nat, key: Key, generation: int)

  class Reconciler {
    const syncStore: Store

    constructor ()
      ensures syncStore.Valid() && syncStore.store == map[] && fresh(syncStore)
    {
      syncStore := new Store();
    }

    /** Starts and stops the workers of one export. No worker is leaked, whatever others do meanwhile, if they start
        none under a wanted key. For all keys that others leave alone: without an export or a binding those that have
        the export's key as a prefix are stopped; with a binding a running worker is kept exactly if it survives, and
        the whole effect is that of `After`. If nobody interferes, the wanted workers run afterwards, each at its
        generation, with no other worker of this export, the workers of other exports and those that were up to date
        being kept, exactly if the surroundings were favourable. A worker is started only where none was up to date,
        or a sweep hit it. */
    method EnsureControllers(ns: string, name: string, se: Option<Export>, lookup: BindingLookup, env: Surroundings,
                             others: Others)
      returns (err: bool)
      requires syncStore.Valid()
      requires se.Some? && lookup.BindingFound? ==>
                 Exclusive(Job(env, ns, name, se.value, lookup.binding), others)
      modifies syncStore, syncStore.started
      ensures syncStore.Valid() && old(syncStore.started) <= syncStore.started
      ensures fresh(syncStore.started - old(syncStore.started))
      ensures se.None? || lookup.BindingMissing? ==>
                !err && forall k | !others.Touches(k) ::
                          SlotIn(old(syncStore.store), syncStore.store, k) ==
                          if HasPrefix(k, ExportKey(ns, name)) then Empty else FirstSlot(old(syncStore.store), k)
      ensures se.Some? && lookup.BindingError? ==> err && syncStore.store == old(syncStore.store)
      ensures se.Some? && lookup.BindingFound? ==>
                var job, s0 := Job(env, ns, name, se.value, lookup.binding), old(syncStore.store);
                && Effect(job, others, s0)
                && (forall k | k in s0 && !others.Touches(k) ::
                      k in syncStore.store && syncStore.store[k] == s0[k] <==> job.Survives(k, s0[k].generation))
                && (others.Nobody() ==> (job.Outcome(s0, syncStore.store) <==> job.Favourable(s0)))
                && Accounted(job, others, s0, old(syncStore.started))
                && ErrorsAreReal(job, others, s0, err)
    {
      if se.None? {
        Meanwhile(others);
        var deleted := syncStore.BulkDeletePrefixed(ExportKey(ns, name));
        return false;
      }
      match lookup {
        case BindingError => return true;
        case BindingMissing =>
          Meanwhile(others);
          var deleted := syncStore.BulkDeletePrefixed(ExportKey(ns, name));
          return false;
        case BindingFound(binding) =>
          ghost var s0 := syncStore.store;
          var job := Job(env, ns, name, se.value, binding);
          err := EnsureForBinding(job, others);
          forall k | k in s0 && !others.Touches(k)
            ensures k in syncStore.store && syncStore.store[k] == s0[k] <==> job.Survives(k, s0[k].generation)
          {
            SurvivalIsExact(job, k, s0[k].generation);
          }
          if others.Nobody() {
            ConvergenceIsExact(job, s0, syncStore.store);
          }
      }
    }

    /** What the reconcile has made of the keys that nobody else touched. */
    ghost predicate Effect(job: Job, others: Others, s0: Entries)
      reads syncStore
    {
      forall k | !others.Touches(k) ::
        && SlotIn(s0, syncStore.store, k) == job.After(k, FirstSlot(s0, k))
        && (SlotIn(s0, syncStore.store, k).Renewed? ==> job.Owns(syncStore.store[k]))
    }

    /** Every worker started meanwhile was started by others, or had to be. */
    ghost predicate Accounted(job: Job, others: Others, s0: Entries, before: set<Worker>)
      reads syncStore
    {
      forall w | w in syncStore.started && w !in before ::
        others.Touches(w.key) || job.Restarts(w.key, FirstSlot(s0, w.key))
    }

    /** A failed fetch and a wanted worker that is not there and cannot be started are reported, unless that failure
        is only logged; and an error means one of these. */
    ghost predicate ErrorsAreReal(job: Job, others: Others, s0: Entries, err: bool) {
      && (FetchFails(job) ==> err)
      && (!err ==> SchemasPass(job, others, s0, |job.se.resources|))
      && (!err ==> ClaimsPass(job, others, s0, |job.binding.permissionClaims|))
      && (err ==> FetchFails(job) || StartFails(job))
    }

    /** None of the first n resources has a schema whose worker is missing and refused. */
    ghost predicate SchemasPass(job: Job, others: Others, s0: Entries, n: nat)
      requires n <= |job.se.resources|
    {
      forall i: nat | i < n && job.env.schema(job.se.resources[i].ResourceGroupName()) == Fetched ::
        !Refused(job, others, s0, SchemaKey(job.Prefix(), job.se.resources[i].ResourceGroupName()), job.se.generation)
    }

    ghost predicate ClaimsPass(job: Job, others: Others, s0: Entries, n: nat)
      requires n <= |job.binding.permissionClaims|
    {
      forall i: nat | i < n && ResolveClaimableAPI(job.binding.permissionClaims[i]).Some? ::
        !Refused(job, others, s0,
                 ClaimKey(job.Prefix(), ResolveClaimableAPI(job.binding.permissionClaims[i]).value),
                 job.binding.generation)
    }

    ghost predicate FetchFails(job: Job) {
      exists res | res in job.se.resources :: job.env.schema(res.ResourceGroupName()) == FetchError
    }

    ghost predicate StartFails(job: Job) {
      exists k | job.Wanted(k) :: !job.env.starts(k) && job.env.reports(k)
    }

    /** Others leave the key alone, it has no worker of this generation, and none can be started, with an error that
        is returned. */
    ghost predicate Refused(job: Job, others: Others, s0: Entries, k: Key, generation: int) {
      !others.Touches(k) && FirstSlot(s0, k) != Kept(generation) && !job.env.starts(k) && job.env.reports(k)
    }

    /** What happens to the store between two calls of a reconcile: any calls of others, within their bounds. */
    method Meanwhile(others: Others)
      requires syncStore.Valid()
      modifies syncStore, syncStore.started
      ensures syncStore.Valid() && old(syncStore.started) <= syncStore.started
      ensures fresh(syncStore.started - old(syncStore.started))
      ensures forall k | !others.Touches(k) :: Same(old(syncStore.store), syncStore.store, k)
      ensures forall k | k in syncStore.store && !others.Starts(k) :: k in old(syncStore.store)
      ensures forall w | w in syncStore.started && w !in old(syncStore.started) :: others.Touches(w.key)
    {
      var calls: seq<Call> := *;
      var i := 0;
      while i < |calls|
        invariant 0 <= i <= |calls|
        invariant syncStore.Valid() && old(syncStore.started) <= syncStore.started
        invariant fresh(syncStore.started - old(syncStore.started))
        invariant forall k | !others.Touches(k) :: Same(old(syncStore.store), syncStore.store, k)
        invariant forall k | k in syncStore.store && !others.Starts(k) :: k in old(syncStore.store)
        invariant forall w | w in syncStore.started && w !in old(syncStore.started) :: others.Touches(w.key)
      {
        match calls[i] {
          case Drop(key) =>
            if others.Touches(key) {
              syncStore.Delete(key);
            }
          case Start(j, key, generation) =>
            if j < |others.jobs| && others.jobs[j].Wanted(key) && key !in syncStore.store {
              syncStore.Launch(key, generation, others.jobs[j].Owner());
            }
        }
        i := i + 1;
      }
    }

    method EnsureForBinding(job: Job, others: Others) returns (err: bool)
      requires syncStore.Valid() && Exclusive(job, others)
      modifies syncStore, syncStore.started
      ensures syncStore.Valid() && old(syncStore.started) <= syncStore.started
      ensures fresh(syncStore.started - old(syncStore.started))
      ensures Effect(job, others, old(syncStore.store))
      ensures Accounted(job, others, old(syncStore.store), old(syncStore.started))
      ensures ErrorsAreReal(job, others, old(syncStore.store), err)
    {
      ghost var s0, before := syncStore.store, syncStore.started;
      var processed, schemaErr := EnsureSchemas(job, others, s0, before);
      var claimErr := EnsureControllersForPermissionClaims(job, others, s0, before);
      DropStale(job.Prefix(), k => Referenced(job, processed, k), others);
      err := schemaErr || claimErr;
    }

    static predicate Referenced(job: Job, processed: set<string>, key: Key) {
      var schemaName := TrimPrefix(key, job.Prefix() + ".");
      HasPrefix(schemaName, "claim.") || schemaName in processed
    }

    /** The reconcile has dealt with i resources and j claims. */
    ghost predicate Reached(job: Job, others: Others, s0: Entries, i: nat, j: nat)
      requires i <= |job.se.resources| && j <= |job.binding.permissionClaims|
      reads syncStore
    {
      ReachedIn(job, others, s0, syncStore.store, i, j)
    }

    static ghost predicate ReachedIn(job: Job, others: Others, s0: Entries, s: Entries, i: nat, j: nat)
      requires i <= |job.se.resources| && j <= |job.binding.permissionClaims|
    {
      forall k | !others.Touches(k) ::
        && SlotIn(s0, s, k) == job.AfterClaims(k, j, job.AfterSchemas(k, i, FirstSlot(s0, k)))
        && (SlotIn(s0, s, k).Renewed? ==> job.Owns(s[k]))
    }

    /** One key has been ensured, and all others are the same. */
    static ghost predicate Ensured(job: Job, others: Others, s0: Entries, s: Entries, s': Entries, key: Key,
                                   generation: int)
    {
      && (forall k | !others.Touches(k) && k != key :: Same(s, s', k))
      && (!others.Touches(key) ==>
            && SlotIn(s0, s', key) == SlotIn(s0, s, key).Ensured(generation, job.env.starts(key))
            && (SlotIn(s0, s', key).Renewed? ==> job.Owns(s'[key])))
    }

    static lemma SchemaReached(job: Job, others: Others, s0: Entries, s: Entries, s': Entries, i: nat, key: Key)
      requires i < |job.se.resources| && FoundSchemaKey(job.env, job.Prefix(), job.se.resources[i], key)
      requires ReachedIn(job, others, s0, s, i, 0) && Ensured(job, others, s0, s, s', key, job.se.generation)
      ensures ReachedIn(job, others, s0, s', i + 1, 0)
    {
    }

    static lemma ClaimReached(job: Job, others: Others, s0: Entries, s: Entries, s': Entries, i: nat, key: Key)
      requires i < |job.binding.permissionClaims|
      requires ResolvedClaimKey(job.Prefix(), job.binding.permissionClaims[i], key)
      requires ReachedIn(job, others, s0, s, |job.se.resources|, i)
      requires Ensured(job, others, s0, s, s', key, job.binding.generation)
      ensures ReachedIn(job, others, s0, s', |job.se.resources|, i + 1)
    {
    }

    /** The loop over the resources: the found schemas get their worker at the export's generation, and for the
        missing ones something is swept. */
    method EnsureSchemas(job: Job, others: Others, ghost s0: Entries, ghost before: set<Worker>)
      returns (processed: set<string>, err: bool)
      requires syncStore.Valid() && s0 == syncStore.store && before == syncStore.started
      requires Exclusive(job, others)
      modifies syncStore, syncStore.started
      ensures syncStore.Valid() && before <= syncStore.started && fresh(syncStore.started - before)
      ensures Reached(job, others, s0, |job.se.resources|, 0)
      ensures Accounted(job, others, s0, before)
      ensures forall n :: n in processed <==> job.FoundName(n)
      ensures FetchFails(job) ==> err
      ensures !err ==> SchemasPass(job, others, s0, |job.se.resources|)
      ensures err ==> FetchFails(job) || StartFails(job)
    {
      processed, err := {}, false;
      var i := 0;
      while i < |job.se.resources|
        invariant 0 <= i <= |job.se.resources|
        invariant syncStore.Valid() && before <= syncStore.started && fresh(syncStore.started - before)
        invariant Reached(job, others, s0, i, 0)
        invariant Accounted(job, others, s0, before)
        invariant forall n | n in processed :: job.FoundName(n)
        invariant forall j | 0 <= j < i && job.env.schema(job.se.resources[j].ResourceGroupName()) == Fetched ::
                    job.se.resources[j].ResourceGroupName() in processed
        invariant err ==> FetchFails(job) || StartFails(job)
        invariant forall j | 0 <= j < i && job.env.schema(job.se.resources[j].ResourceGroupName()) == FetchError :: err
        invariant !err ==> SchemasPass(job, others, s0, i)
      {
        var failed, names := EnsureResource(job, others, i, s0, before);
        processed, err := processed + names, err || failed;
        i := i + 1;
      }
    }

    /** One resource of the export. */
    method EnsureResource(job: Job, others: Others, i: nat, ghost s0: Entries, ghost before: set<Worker>)
      returns (err: bool, names: set<string>)
      requires syncStore.Valid() && before <= syncStore.started
      requires i < |job.se.resources| && Exclusive(job, others)
      requires Reached(job, others, s0, i, 0) && Accounted(job, others, s0, before)
      modifies syncStore, syncStore.started
      ensures syncStore.Valid() && old(syncStore.started) <= syncStore.started
      ensures fresh(syncStore.started - old(syncStore.started))
      ensures Reached(job, others, s0, i + 1, 0) && Accounted(job, others, s0, before)
      ensures var name := job.se.resources[i].ResourceGroupName();
              && names == (if job.env.schema(name) == Fetched then {name} else {})
              && (job.env.schema(name) == FetchError ==> err)
      ensures err ==> FetchFails(job) || StartFails(job)
      ensures !err && SchemasPass(job, others, s0, i) ==> SchemasPass(job, others, s0, i + 1)
    {
      var name := job.se.resources[i].ResourceGroupName();
      assert job.se.resources[i] in job.se.resources;
      match job.env.schema(name) {
        case SchemaNotFound =>
          SweepMissing(job, others, i, s0, before);
          return false, {};
        case FetchError => return true, {};
        case Fetched =>
          err := EnsureSchema(job, others, i, s0, before);
          return err, {name};
      }
    }

    /** The sweep for a schema that is not there. */
    method SweepMissing(job: Job, others: Others, i: nat, ghost s0: Entries, ghost before: set<Worker>)
      requires syncStore.Valid() && before <= syncStore.started
      requires i < |job.se.resources| && job.env.schema(job.se.resources[i].ResourceGroupName()) == SchemaNotFound
      requires Reached(job, others, s0, i, 0) && Accounted(job, others, s0, before)
      modifies syncStore, syncStore.started
      ensures syncStore.Valid() && old(syncStore.started) <= syncStore.started
      ensures fresh(syncStore.started - old(syncStore.started))
      ensures Reached(job, others, s0, i + 1, 0) && Accounted(job, others, s0, before)
    {
      Meanwhile(others);
      var deleted := syncStore.BulkDeletePrefixed(SweptFor(job.ns, job.se.resources[i].ResourceGroupName()));
    }

    /** ensureControllerForSchema */
    method EnsureSchema(job: Job, others: Others, i: nat, ghost s0: Entries, ghost before: set<Worker>)
      returns (err: bool)
      requires syncStore.Valid() && before <= syncStore.started
      requires i < |job.se.resources| && job.env.schema(job.se.resources[i].ResourceGroupName()) == Fetched
      requires Exclusive(job, others)
      requires Reached(job, others, s0, i, 0) && Accounted(job, others, s0, before)
      modifies syncStore, syncStore.started
      ensures syncStore.Valid() && old(syncStore.started) <= syncStore.started
      ensures fresh(syncStore.started - old(syncStore.started))
      ensures Reached(job, others, s0, i + 1, 0) && Accounted(job, others, s0, before)
      ensures err ==> StartFails(job)
      ensures !err && SchemasPass(job, others, s0, i) ==> SchemasPass(job, others, s0, i + 1)
    {
      var key := SchemaKey(job.Prefix(), job.se.resources[i].ResourceGroupName());
      assert FoundSchemaKey(job.env, job.Prefix(), job.se.resources[i], key);
      ghost var s := syncStore.store;
      err := EnsureAt(job, key, job.se.generation, others);
      assert Ensured(job, others, s0, s, syncStore.store, key, job.se.generation);
      SchemaReached(job, others, s0, s, syncStore.store, i, key);
      SchemaErrors(job, others, s0, s, i, key, err);
      if !job.Restarts(key, FirstSlot(s0, key)) {
        NoNeedToStart(job, key, FirstSlot(s0, key), i, 0);
      }
    }

    lemma SchemaErrors(job: Job, others: Others, s0: Entries, s: Entries, i: nat, key: Key, err: bool)
      requires i < |job.se.resources| && key == SchemaKey(job.Prefix(), job.se.resources[i].ResourceGroupName())
      requires !others.Touches(key) ==> SlotIn(s0, s, key) == job.AfterSchemas(key, i, FirstSlot(s0, key))
      requires !others.Touches(key) && !UpToDate(s, key, job.se.generation) && !job.env.starts(key) ==>
                 err == job.env.reports(key)
      ensures !err && SchemasPass(job, others, s0, i) ==> SchemasPass(job, others, s0, i + 1)
    {
      if !job.env.starts(key) {
        SchemasCannotStart(job, key, i, FirstSlot(s0, key));
      }
    }

    static predicate UpToDate(s: Entries, key: Key, generation: int) {
      key in s && s[key].generation == generation
    }

    /** The part shared by schemas and claims: keep the worker of this generation, or replace it. */
    method EnsureAt(job: Job, key: Key, generation: int, others: Others) returns (err: bool)
      requires syncStore.Valid() && job.Wanted(key) && !others.Starts(key)
      modifies syncStore, syncStore.started
      ensures syncStore.Valid() && old(syncStore.started) <= syncStore.started
      ensures fresh(syncStore.started - old(syncStore.started))
      ensures forall k | !others.Touches(k) && k != key :: Same(old(syncStore.store), syncStore.store, k)
      ensures !others.Touches(key) && UpToDate(old(syncStore.store), key, generation) ==>
                Same(old(syncStore.store), syncStore.store, key)
      ensures !others.Touches(key) && !UpToDate(old(syncStore.store), key, generation) ==>
                && (key in syncStore.store <==> job.env.starts(key))
                && (key in syncStore.store ==> NewWorker(job, syncStore.store[key], generation))
      ensures !others.Touches(key) && !UpToDate(old(syncStore.store), key, generation) && key in syncStore.store ==>
                fresh(syncStore.store[key].cancel)
      ensures forall w | w in syncStore.started && w !in old(syncStore.started) ::
                others.Touches(w.key) || (w.key == key && !UpToDate(old(syncStore.store), key, generation))
      ensures err ==> !job.env.starts(key) && job.env.reports(key)
      ensures !others.Touches(key) && !UpToDate(old(syncStore.store), key, generation) && !job.env.starts(key) ==>
                err == job.env.reports(key)
    {
      var needed := MakeRoom(key, generation, others);
      if !needed {
        return false;
      }
      if !job.env.starts(key) {
        return job.env.reports(key);
      }
      StartAt(job, key, generation, others);
      return false;
    }

    ghost predicate NewWorker(job: Job, c: SyncContext, generation: int) {
      c.generation == generation && job.Owns(c)
    }

    /** Looks the key up, and deletes a worker of another generation. */
    method MakeRoom(key: Key, generation: int, others: Others) returns (needed: bool)
      requires syncStore.Valid() && !others.Starts(key)
      modifies syncStore, syncStore.started
      ensures syncStore.Valid() && old(syncStore.started) <= syncStore.started
      ensures fresh(syncStore.started - old(syncStore.started))
      ensures forall k | !others.Touches(k) && k != key :: Same(old(syncStore.store), syncStore.store, k)
      ensures needed ==> key !in syncStore.store
      ensures !others.Touches(key) ==> (needed <==> !UpToDate(old(syncStore.store), key, generation))
      ensures !others.Touches(key) && !needed ==> Same(old(syncStore.store), syncStore.store, key)
      ensures forall w | w in syncStore.started && w !in old(syncStore.started) :: others.Touches(w.key)
    {
      Meanwhile(others);
      var c := syncStore.Get(key);
      if c.Some? {
        if c.value.generation == generation {
          return false;
        }
        Meanwhile(others);
        syncStore.Delete(key);
      }
      return true;
    }

    method StartAt(job: Job, key: Key, generation: int, others: Others)
      requires syncStore.Valid() && job.Wanted(key) && !others.Starts(key) && key !in syncStore.store
      modifies syncStore, syncStore.started
      ensures syncStore.Valid() && old(syncStore.started) <= syncStore.started
      ensures fresh(syncStore.started - old(syncStore.started))
      ensures forall k | !others.Touches(k) && k != key :: Same(old(syncStore.store), syncStore.store, k)
      ensures key in syncStore.store && NewWorker(job, syncStore.store[key], generation)
      ensures fresh(syncStore.store[key].cancel)
      ensures forall w | w in syncStore.started && w !in old(syncStore.started) :: others.Touches(w.key) || w.key == key
    {
      Meanwhile(others);
      syncStore.Launch(key, generation, job.Owner());
    }

    /** The claims of the binding: the resolvable ones get their worker at the binding's generation, and every other
        worker under the claim prefix is stopped. */
    method EnsureControllersForPermissionClaims(job: Job, others: Others, ghost s0: Entries, ghost before: set<Worker>)
      returns (err: bool)
      requires syncStore.Valid() && before <= syncStore.started
      requires Exclusive(job, others)
      requires Reached(job, others, s0, |job.se.resources|, 0) && Accounted(job, others, s0, before)
      modifies syncStore, syncStore.started
      ensures syncStore.Valid() && old(syncStore.started) <= syncStore.started
      ensures fresh(syncStore.started - old(syncStore.started))
      ensures forall k | !others.Touches(k) ::
                && SlotIn(s0, syncStore.store, k) == job.AfterClaimCleanUp(k, AllEnsured(job, k, FirstSlot(s0, k)))
                && (SlotIn(s0, syncStore.store, k).Renewed? ==> job.Owns(syncStore.store[k]))
      ensures Accounted(job, others, s0, before)
      ensures err ==> StartFails(job)
      ensures !err ==> ClaimsPass(job, others, s0, |job.binding.permissionClaims|)
    {
      var processed;
      processed, err := EnsureClaims(job, others, s0, before);
      DropStale(ClaimPrefix(job.Prefix()), k => k in processed, others);
    }

    method EnsureClaims(job: Job, others: Others, ghost s0: Entries, ghost before: set<Worker>)
      returns (processed: set<Key>, err: bool)
      requires syncStore.Valid() && before <= syncStore.started && Exclusive(job, others)
      requires Reached(job, others, s0, |job.se.resources|, 0) && Accounted(job, others, s0, before)
      modifies syncStore, syncStore.started
      ensures syncStore.Valid() && old(syncStore.started) <= syncStore.started
      ensures fresh(syncStore.started - old(syncStore.started))
      ensures Reached(job, others, s0, |job.se.resources|, |job.binding.permissionClaims|)
      ensures Accounted(job, others, s0, before)
      ensures forall k :: k in processed <==> job.WantedClaim(k)
      ensures err ==> StartFails(job)
      ensures !err ==> ClaimsPass(job, others, s0, |job.binding.permissionClaims|)
    {
      processed, err := {}, false;
      var claims := job.binding.permissionClaims;
      var i := 0;
      while i < |claims|
        invariant 0 <= i <= |claims|
        invariant syncStore.Valid() && old(syncStore.started) <= syncStore.started
        invariant fresh(syncStore.started - old(syncStore.started))
        invariant Reached(job, others, s0, |job.se.resources|, i)
        invariant Accounted(job, others, s0, before)
        invariant Claimed(job, processed, i)
        invariant ClaimVerdict(job, others, s0, i, err)
      {
        var failed, keys := EnsureClaim(job, others, i, s0, before);
        ClaimedNext(job, processed, i, keys);
        ClaimVerdictNext(job, others, s0, i, err, failed);
        processed, err := processed + keys, err || failed;
        i := i + 1;
      }
    }

    /** The error after n claims is the right one. */
    ghost predicate ClaimVerdict(job: Job, others: Others, s0: Entries, n: nat, err: bool)
      requires n <= |job.binding.permissionClaims|
    {
      (err ==> StartFails(job)) && (!err ==> ClaimsPass(job, others, s0, n))
    }

    lemma ClaimVerdictNext(job: Job, others: Others, s0: Entries, n: nat, err: bool, failed: bool)
      requires n < |job.binding.permissionClaims| && ClaimVerdict(job, others, s0, n, err)
      requires failed ==> StartFails(job)
      requires !failed && ClaimsPass(job, others, s0, n) ==> ClaimsPass(job, others, s0, n + 1)
      ensures ClaimVerdict(job, others, s0, n + 1, err || failed)
    {
    }

    /** The keys of the first n claims. */
    static ghost predicate Claimed(job: Job, keys: set<Key>, n: nat)
      requires n <= |job.binding.permissionClaims|
    {
      forall k :: k in keys <==>
                  exists i: nat :: i < n && ResolvedClaimKey(job.Prefix(), job.binding.permissionClaims[i], k)
    }

    static lemma ClaimedNext(job: Job, keys: set<Key>, n: nat, more: set<Key>)
      requires n < |job.binding.permissionClaims| && Claimed(job, keys, n)
      requires forall k :: k in more <==> ResolvedClaimKey(job.Prefix(), job.binding.permissionClaims[n], k)
      ensures Claimed(job, keys + more, n + 1)
    {
    }

    static function AllEnsured(job: Job, k: Key, x: Slot): Slot {
      job.AfterClaims(k, |job.binding.permissionClaims|, job.AfterSchemas(k, |job.se.resources|, x))
    }

    /** One claim: skipped if it is not resolvable, otherwise ensured under its key. */
    method EnsureClaim(job: Job, others: Others, i: nat, ghost s0: Entries, ghost before: set<Worker>)
      returns (err: bool, keys: set<Key>)
      requires syncStore.Valid() && before <= syncStore.started
      requires i < |job.binding.permissionClaims| && Exclusive(job, others)
      requires Reached(job, others, s0, |job.se.resources|, i) && Accounted(job, others, s0, before)
      modifies syncStore, syncStore.started
      ensures syncStore.Valid() && old(syncStore.started) <= syncStore.started
      ensures fresh(syncStore.started - old(syncStore.started))
      ensures Reached(job, others, s0, |job.se.resources|, i + 1) && Accounted(job, others, s0, before)
      ensures forall k :: k in keys <==> ResolvedClaimKey(job.Prefix(), job.binding.permissionClaims[i], k)
      ensures err ==> StartFails(job)
      ensures !err && ClaimsPass(job, others, s0, i) ==> ClaimsPass(job, others, s0, i + 1)
    {
      var gvr := ResolveClaimableAPI(job.binding.permissionClaims[i]);
      if gvr.None? {
        return false, {};
      }
      var key := ClaimKey(job.Prefix(), gvr.value);
      assert ResolvedClaimKey(job.Prefix(), job.binding.permissionClaims[i], key);
      ghost var s := syncStore.store;
      err := EnsureAt(job, key, job.binding.generation, others);
      keys := {key};
      assert Ensured(job, others, s0, s, syncStore.store, key, job.binding.generation);
      ClaimReached(job, others, s0, s, syncStore.store, i, key);
      ClaimErrors(job, others, s0, s, i, key, err);
      if !job.Restarts(key, FirstSlot(s0, key)) {
        NoNeedToStart(job, key, FirstSlot(s0, key), |job.se.resources|, i);
      }
    }

    lemma ClaimErrors(job: Job, others: Others, s0: Entries, s: Entries, i: nat, key: Key, err: bool)
      requires i < |job.binding.permissionClaims|
      requires ResolvedClaimKey(job.Prefix(), job.binding.permissionClaims[i], key)
      requires !others.Touches(key) ==>
                 SlotIn(s0, s, key) ==
                 job.AfterClaims(key, i, job.AfterSchemas(key, |job.se.resources|, FirstSlot(s0, key)))
      requires !others.Touches(key) && !UpToDate(s, key, job.binding.generation) && !job.env.starts(key) ==>
                 err == job.env.reports(key)
      ensures !err && ClaimsPass(job, others, s0, i) ==> ClaimsPass(job, others, s0, i + 1)
    {
      if !job.env.starts(key) {
        NeverStarted(job, key, FirstSlot(s0, key), i);
      }
    }

    method DropKey(key: Key, others: Others)
      requires syncStore.Valid()
      modifies syncStore, syncStore.started
      ensures syncStore.Valid() && old(syncStore.started) <= syncStore.started && key !in syncStore.store
      ensures fresh(syncStore.started - old(syncStore.started))
      ensures forall k | !others.Touches(k) && k != key :: Same(old(syncStore.store), syncStore.store, k)
      ensures forall w | w in syncStore.started && w !in old(syncStore.started) :: others.Touches(w.key)
    {
      Meanwhile(others);
      syncStore.Delete(key);
    }

    /** Both clean-ups: of the keys with the prefix, those that are not to be kept are deleted. */
    method DropStale(prefix: Key, keep: Key -> bool, others: Others)
      requires syncStore.Valid()
      modifies syncStore, syncStore.started
      ensures syncStore.Valid() && old(syncStore.started) <= syncStore.started
      ensures fresh(syncStore.started - old(syncStore.started))
      ensures forall k | !others.Touches(k) ::
                if HasPrefix(k, prefix) && !keep(k) then k !in syncStore.store
                else Same(old(syncStore.store), syncStore.store, k)
      ensures forall w | w in syncStore.started && w !in old(syncStore.started) :: others.Touches(w.key)
    {
      Meanwhile(others);
      var contexts := syncStore.ListPrefixed(prefix);
      forall k | k in syncStore.store
        ensures Doomed(contexts, keep, k) <==> HasPrefix(k, prefix) && !keep(k)
      {
        assert syncStore.store[k] in contexts <==> HasPrefix(k, prefix);
      }
      DropListed(contexts, keep, others);
    }

    /** The key is listed and not to be kept. */
    static predicate Doomed(contexts: seq<SyncContext>, keep: Key -> bool, k: Key) {
      !keep(k) && exists i :: 0 <= i < |contexts| && contexts[i].key == k
    }

    method DropListed(contexts: seq<SyncContext>, keep: Key -> bool, others: Others)
      requires syncStore.Valid()
      modifies syncStore, syncStore.started
      ensures syncStore.Valid() && old(syncStore.started) <= syncStore.started
      ensures fresh(syncStore.started - old(syncStore.started))
      ensures forall k | !others.Touches(k) ::
                if Doomed(contexts, keep, k) then k !in syncStore.store
                else Same(old(syncStore.store), syncStore.store, k)
      ensures forall w | w in syncStore.started && w !in old(syncStore.started) :: others.Touches(w.key)
    {
      var i := 0;
      while i < |contexts|
        invariant 0 <= i <= |contexts|
        invariant syncStore.Valid() && old(syncStore.started) <= syncStore.started
        invariant fresh(syncStore.started - old(syncStore.started))
        invariant forall k | !others.Touches(k) ::
                    if Doomed(contexts[..i], keep, k) then k !in syncStore.store
                    else Same(old(syncStore.store), syncStore.store, k)
        invariant forall w | w in syncStore.started && w !in old(syncStore.started) :: others.Touches(w.key)
      {
        DoomedNext(contexts, keep, i);
        if !keep(contexts[i].key) {
          DropKey(contexts[i].key, others);
        }
        i := i + 1;
      }
      assert contexts[..i] == contexts;
    }

    static lemma DoomedNext(contexts: seq<SyncContext>, keep: Key -> bool, i: nat)
      requires i < |contexts|
      ensures forall k :: Doomed(contexts[..i + 1], keep, k) <==>
                          Doomed(contexts[..i], keep, k) || (k == contexts[i].key && !keep(k))
    {
      forall k
        ensures Doomed(contexts[..i + 1], keep, k) <==>
                Doomed(contexts[..i], keep, k) || (k == contexts[i].key && !keep(k))
      {
        assert contexts[..i + 1] == contexts[..i] + [contexts[i]];
        if Doomed(contexts[..i], keep, k) {
          var j :| 0 <= j < i && contexts[..i][j].key == k;
          assert contexts[..i + 1][j].key == k;
        }
        assert contexts[..i + 1][i] == contexts[i];
      }
    }
  }

  /** A step in the life of the store: an export is reconciled while others use the store, or a claim worker that has
      ended deletes its key, which by then may hold a newer worker. */
  datatype Step =
    | Reconciled(ns: string, name: string, se: Option<Export>, lookup: BindingLookup, env: Surroundings, others: Others)
    | LateDelete(key: Key)
  {
    ghost predicate Undisputed() {
      Reconciled? && se.Some? && lookup.BindingFound? ==>
        Exclusive(Job(env, ns, name, se.value, lookup.binding), others)
    }
  }

  /** No run leaks a worker: after any sequence of steps the started and not cancelled workers are those in the store.
      */
  method Run(r: Reconciler, steps: seq<Step>)
    requires r.syncStore.Valid() && forall step | step in steps :: step.Undisputed()
    modifies r.syncStore, r.syncStore.started
    ensures r.syncStore.Valid()
    ensures (set w | w in r.syncStore.started && !w.cancelled)
            == set k | k in r.syncStore.store :: r.syncStore.store[k].cancel
  {
    var i := 0;
    while i < |steps|
      invariant 0 <= i <= |steps|
      invariant r.syncStore.Valid() && fresh(r.syncStore.started - old(r.syncStore.started))
    {
      assert steps[i] in steps;
      match steps[i] {
        case Reconciled(ns, name, se, lookup, env, others) =>
          var err := r.EnsureControllers(ns, name, se, lookup, env, others);
        case LateDelete(key) => r.syncStore.Delete(key);
      }
      i := i + 1;
    }
  }

  /** Two exports that want the same key can lose a worker: the reconciles of both find it free, or make it so, before
      either starts its worker. Then the one that was filed first runs on and is out of reach. */
  method CollisionLeaks(r: Reconciler, a: Job, b: Job, key: Key) returns (lost: Worker)
    requires r.syncStore.Valid() && a.Wanted(key) && b.Wanted(key) && a.env.starts(key) && b.env.starts(key)
    requires !Reconciler.UpToDate(r.syncStore.store, key, a.Generation(key))
    requires !Reconciler.UpToDate(r.syncStore.store, key, b.Generation(key))
    modifies r.syncStore, r.syncStore.started
    ensures lost in r.syncStore.started && !lost.cancelled && lost.owner == a.Owner()
    ensures forall k | k in r.syncStore.store :: r.syncStore.store[k].cancel != lost
    ensures !r.syncStore.Valid()
  {
    var nobody := Others({}, []);
    var neededByA := r.MakeRoom(key, a.Generation(key), nobody);
    var neededByB := r.MakeRoom(key, b.Generation(key), nobody);
    assert neededByA && neededByB;
    r.StartAt(a, key, a.Generation(key), nobody);
    lost := r.syncStore.store[key].cancel;
    r.syncStore.Launch(key, b.Generation(key), b.Owner());
  }
}
