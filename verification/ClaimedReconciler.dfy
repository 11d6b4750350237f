/** The reconciler of claimed objects as it works on the two clusters, one API call after the other. */
module ClaimedReconciler {
  import opened Kube
  import opened ClaimedResources

  type Key = (string, string)

  /** What the lookup of the APIServiceNamespace behind a provider namespace yields. */
  datatype NamespaceLookup = Found(name: string, statusNamespace: string) | Missing | Failed

  method WithoutInfix(m: map<string, string>, infix: string) returns (r: map<string, string>)
    ensures r == Without(m, infix)
  {
    r := map[];
    var todo := m.Keys;
    while todo != {}
      invariant todo <= m.Keys
      invariant r == map k | k in m.Keys - todo && !Contains(k, infix) :: m[k]
      decreases todo
    {
      var k :| k in todo;
      todo := todo - {k};
      if !Contains(k, infix) {
        r := r[k := m[k]];
      }
    }
  }

  method CandidateFromOwnerObj(namespace: string, o: Object) returns (candidate: Object)
    ensures candidate == Candidate(namespace, o)
    ensures Carries(o, candidate) && Clean(candidate, namespace)
  {
    CandidateCarries(namespace, o, Provider);
    var labels := WithoutInfix(o.labels, CLAIMED_LABEL_INFIX);
    var annotations := WithoutInfix(o.annotations, CLUSTER_ANNOTATION_INFIX);
    candidate := o.(uid := 0, resourceVersion := 0, creationTimestamp := 0, namespace := namespace);
    candidate := candidate.(managedFields := [], deleting := false, ownerReferences := [], finalizers := []);
    candidate := candidate.(labels := labels, annotations := annotations);
  }

  class ReadReconciler {
    var provider: map<Key, Object>
    var consumer: map<Key, Object>
    var clock: nat

    ghost predicate Valid()
      reads this
    {
      && (forall k | k in provider ::
            (provider[k].namespace, provider[k].name) == k && Wellformed(Some(provider[k]), clock))
      && (forall k | k in consumer ::
            (consumer[k].namespace, consumer[k].name) == k && Wellformed(Some(consumer[k]), clock))
    }

    static function At(cluster: map<Key, Object>, k: Key): Option<Object> {
      if k in cluster then Some(cluster[k]) else None
    }

    static function With(cluster: map<Key, Object>, k: Key, cell: Option<Object>): map<Key, Object> {
      match cell
      case Some(o) => cluster[k := o]
      case None => cluster - {k}
    }

    ghost predicate Filed(k: Key, w: Written) {
      Wellformed(w.cell, w.clock) && (w.cell.Some? ==> (w.cell.value.namespace, w.cell.value.name) == k)
    }

    ghost function PairAt(pns: string, cns: string, name: string): Pair
      reads this
    {
      Pair(At(provider, (pns, name)), At(consumer, (cns, name)), clock)
    }

    constructor ()
      ensures Valid() && provider == map[] && consumer == map[]
    {
      provider, consumer, clock := map[], map[], 0;
    }

    /** The result of one write, filed under its key. */
    method StoreProvider(k: Key, w: Written) returns (answer: Answer)
      requires Valid() && clock <= w.clock && Filed(k, w)
      modifies this`provider, this`clock
      ensures Valid() && clock == w.clock && answer == w.answer
      ensures At(provider, k) == w.cell && provider - {k} == old(provider) - {k}
    {
      provider, clock := With(provider, k, w.cell), w.clock;
      return w.answer;
    }

    method StoreConsumer(k: Key, w: Written) returns (answer: Answer)
      requires Valid() && clock <= w.clock && Filed(k, w)
      modifies this`consumer, this`clock
      ensures Valid() && clock == w.clock && answer == w.answer
      ensures At(consumer, k) == w.cell && consumer - {k} == old(consumer) - {k}
    {
      consumer, clock := With(consumer, k, w.cell), w.clock;
      return w.answer;
    }

    /** Sets the owner label on the provider's own copy if needed. */
    method StampProvider(k: Key, p: Object) returns (err: bool)
      requires Valid() && At(provider, k) == Some(p)
      modifies this`provider, this`clock
      ensures Valid() && !err && provider - {k} == old(provider) - {k}
      ensures var stamped := MakeOwner(p, Provider);
              var w := if stamped != p then Update(Some(p), old(clock), stamped)
                       else Written(Some(p), old(clock), Accepted);
              w == Written(At(provider, k), clock, Accepted)
    {
      var ownerCandidate := MakeOwner(p, Provider);
      if ownerCandidate != p {
        var updated := StoreProvider(k, Update(Some(p), clock, ownerCandidate));
        return updated != Accepted;
      }
      return false;
    }

    /** Sets the owner label on the consumer's own copy if needed. */
    method StampConsumer(k: Key, c: Object) returns (err: bool)
      requires Valid() && At(consumer, k) == Some(c)
      modifies this`consumer, this`clock
      ensures Valid() && !err && consumer - {k} == old(consumer) - {k}
      ensures var stamped := MakeOwner(c, Consumer);
              var w := if stamped != c then Update(Some(c), old(clock), stamped)
                       else Written(Some(c), old(clock), Accepted);
              w == Written(At(consumer, k), clock, Accepted)
    {
      var ownerCandidate := MakeOwner(c, Consumer);
      if ownerCandidate != c {
        var updated := StoreConsumer(k, Update(Some(c), clock, ownerCandidate));
        return updated != Accepted;
      }
      return false;
    }

    /** Reconciling one name advances exactly the pair behind it by one step of the protocol; every other object of
        both clusters keeps its state, and without a ready service namespace nothing happens at all. */
    method Reconcile(pns: string, name: string, lookup: NamespaceLookup) returns (err: bool)
      requires Valid()
      modifies this
      ensures Valid()
      ensures pns != "" && (!lookup.Found? || lookup.statusNamespace == "") ==>
                err && provider == old(provider) && consumer == old(consumer) && clock == old(clock)
      ensures pns == "" || (lookup.Found? && lookup.statusNamespace != "") ==>
                var cns := if pns == "" then "" else lookup.name;
                && !err
                && PairAt(pns, cns, name) == Sync(pns, cns, old(PairAt(pns, cns, name)))
                && provider - {(pns, name)} == old(provider) - {(pns, name)}
                && consumer - {(cns, name)} == old(consumer) - {(cns, name)}
    {
      var cns := "";
      if pns != "" {
        if !lookup.Found? || lookup.statusNamespace == "" {
          return true;
        }
        cns := lookup.name;
      }
      err := ReconcilePair(pns, cns, name);
    }

    method ReconcilePair(pns: string, cns: string, name: string) returns (err: bool)
      requires Valid()
      modifies this
      ensures Valid() && !err
      ensures PairAt(pns, cns, name) == Sync(pns, cns, old(PairAt(pns, cns, name)))
      ensures provider - {(pns, name)} == old(provider) - {(pns, name)}
      ensures consumer - {(cns, name)} == old(consumer) - {(cns, name)}
    {
      var providerObj, consumerObj := At(provider, (pns, name)), At(consumer, (cns, name));
      if providerObj.None? && consumerObj.None? {
        return false;
      }
      var owner := DetermineOwner(providerObj, consumerObj);
      match owner
      case None => return false;
      case Some(Provider) =>
        err := FromProvider(pns, cns, name, providerObj, consumerObj);
      case Some(Consumer) =>
        err := FromConsumer(pns, cns, name, providerObj, consumerObj);
    }

    method FromProvider(pns: string, cns: string, name: string, providerObj: Option<Object>,
                        consumerObj: Option<Object>)
      returns (err: bool)
      requires Valid()
      requires providerObj == At(provider, (pns, name)) && consumerObj == At(consumer, (cns, name))
      requires DetermineOwner(providerObj, consumerObj) == Some(Provider)
      modifies this
      ensures Valid() && !err
      ensures PairAt(pns, cns, name) == SyncFromProvider(cns, old(PairAt(pns, cns, name)))
      ensures provider - {(pns, name)} == old(provider) - {(pns, name)}
      ensures consumer - {(cns, name)} == old(consumer) - {(cns, name)}
    {
      if providerObj.None? {
        var deleted := StoreConsumer((cns, name), Delete(consumerObj, clock));
        return deleted != Accepted && deleted != NotFound;
      }
      var p := providerObj.value;
      err := StampProvider((pns, name), p);
      if err {
        return;
      }
      var candidate := CandidateFromOwnerObj(cns, p);
      if consumerObj.None? {
        var created := StoreConsumer((cns, name), Create(None, clock, MakeOwner(candidate, Provider)));
        return created != Accepted;
      }
      if p.deleting {
        var deleted := StoreConsumer((cns, name), Delete(consumerObj, clock));
        return deleted != Accepted;
      }
      var current := CandidateFromOwnerObj(cns, consumerObj.value);
      if candidate != current {
        var updated := StoreConsumer((cns, name), Update(consumerObj, clock, candidate));
        return updated != Accepted;
      }
      return false;
    }

    method FromConsumer(pns: string, cns: string, name: string, providerObj: Option<Object>,
                        consumerObj: Option<Object>)
      returns (err: bool)
      requires Valid()
      requires providerObj == At(provider, (pns, name)) && consumerObj == At(consumer, (cns, name))
      requires DetermineOwner(providerObj, consumerObj) == Some(Consumer)
      modifies this
      ensures Valid() && !err
      ensures PairAt(pns, cns, name) == SyncFromConsumer(pns, old(PairAt(pns, cns, name)))
      ensures provider - {(pns, name)} == old(provider) - {(pns, name)}
      ensures consumer - {(cns, name)} == old(consumer) - {(cns, name)}
    {
      if consumerObj.None? {
        var deleted := StoreProvider((pns, name), Delete(providerObj, clock));
        return deleted != Accepted && deleted != NotFound;
      }
      var c := consumerObj.value;
      var ownerCandidate := MakeOwner(c, Consumer);
      err := StampConsumer((cns, name), c);
      if err {
        return;
      }
      var candidate := CandidateFromOwnerObj(pns, ownerCandidate);
      candidate := MakeOwner(candidate, Consumer);
      if providerObj.None? {
        var created := StoreProvider((pns, name), Create(None, clock, candidate));
        return created != Accepted;
      }
      var current := CandidateFromOwnerObj(pns, providerObj.value);
      if current != candidate {
        var updated := StoreProvider((pns, name), Update(providerObj, clock, candidate));
        return updated != Accepted;
      }
      return false;
    }
  }
}
