/** The reconcilers of the spec and the status controller as they work on the two clusters, call by call. */
module SyncReconcilers {
  import opened Kube
  import opened ClusterScoped
  import opened SpecStatusSync

  /** The APIServiceNamespace of the consumer namespace, after it was created if it was missing. */
  datatype ServiceNamespace = Unavailable | Known(name: string, statusNamespace: string)

  /** The objects cannot be translated: a new copy for a consumer object that is marked for another consumer, or a
      provider copy that names none. */
  predicate SpecFails(r: Route, obj: Object, up: Option<Object>) {
    match up
    case None => !obj.deleting && r.ForCreate(CleanedUp(r, obj)).None?
    case Some(u) => r.View(u).None?
  }

  /** Applying the object, whatever its fields, is neither refused by the translation nor by the server. */
  predicate Sendable(r: Route, upstream: Object, up: Option<Object>) {
    && up.Some? && upstream.uid in {0, up.value.uid} && upstream.resourceVersion in {0, up.value.resourceVersion}
    && r.ForApply(upstream).Some?
  }

  class Clusters {
    var down: Option<Object>
    var up: Option<Object>
    var clock: nat
    const providerNs: string
    const providerNsUid: nat

    constructor (providerNs: string, providerNsUid: nat)
      ensures this.providerNs == providerNs && this.providerNsUid == providerNsUid
      ensures WorldNow() == World(None, None, 0)
    {
      this.providerNs, this.providerNsUid := providerNs, providerNsUid;
      down, up, clock := None, None, 0;
    }

    ghost function WorldNow(): World
      reads this
    {
      World(down, up, clock)
    }

    function RouteTo(upstreamNs: string): Route {
      Route(providerNs, providerNsUid, upstreamNs)
    }

    method UpdateConsumerObject(o: Object) returns (err: bool, updated: Option<Object>)
      modifies this`down, this`clock
      ensures var w := old(Update(down, clock, o));
              down == w.cell && clock == w.clock && err == (w.answer != Accepted) && updated == w.cell
    {
      var w := Update(down, clock, o);
      down, clock := w.cell, w.clock;
      return w.answer != Accepted, down;
    }

    method FindFinalizer(o: Object) returns (found: bool)
      ensures found == HasFinalizer(o)
    {
      var i := 0;
      while i < |o.finalizers|
        invariant 0 <= i <= |o.finalizers|
        invariant forall j | 0 <= j < i :: o.finalizers[j] != DOWNSTREAM_FINALIZER
      {
        if o.finalizers[i] == DOWNSTREAM_FINALIZER {
          return true;
        }
        i := i + 1;
      }
      return false;
    }

    method EnsureDownstreamFinalizer(obj: Object) returns (err: bool, held: Object)
      modifies this`down, this`clock
      ensures HasFinalizer(obj) ==> !err && held == obj && down == old(down) && clock == old(clock)
      ensures !HasFinalizer(obj) ==>
                var w := old(Update(down, clock, WithFinalizer(obj)));
                && down == w.cell && clock == w.clock
                && err == !(w.answer == Accepted && w.cell.Some?)
                && (!err ==> held == w.cell.value)
    {
      var found := FindFinalizer(obj);
      held := obj;
      if !found {
        var updated;
        err, updated := UpdateConsumerObject(obj.(finalizers := obj.finalizers + [DOWNSTREAM_FINALIZER]));
        if err || updated.None? {
          return true, obj;
        }
        return false, updated.value;
      }
      return false, obj;
    }

    method OtherFinalizers(fs: seq<string>) returns (others: seq<string>, found: bool)
      ensures others == Remove(fs, DOWNSTREAM_FINALIZER) && found == (DOWNSTREAM_FINALIZER in fs)
    {
      others, found := [], false;
      var i := 0;
      while i < |fs|
        invariant 0 <= i <= |fs|
        invariant others == Remove(fs[..i], DOWNSTREAM_FINALIZER)
        invariant found <==> DOWNSTREAM_FINALIZER in fs[..i]
      {
        assert fs[..i + 1] == fs[..i] + [fs[i]];
        RemoveFromAppended(fs[..i], fs[i], DOWNSTREAM_FINALIZER);
        if fs[i] == DOWNSTREAM_FINALIZER {
          found := true;
        } else {
          others := others + [fs[i]];
        }
        i := i + 1;
      }
      assert fs[..i] == fs;
    }

    method RemoveDownstreamFinalizer(obj: Object) returns (err: bool)
      modifies this`down, this`clock
      ensures !HasFinalizer(obj) ==> !err && down == old(down) && clock == old(clock)
      ensures HasFinalizer(obj) ==>
                var w := old(Update(down, clock, WithoutFinalizer(obj)));
                down == w.cell && clock == w.clock && err == (w.answer != Accepted)
    {
      var finalizers, found := OtherFinalizers(obj.finalizers);
      if found {
        var updated;
        err, updated := UpdateConsumerObject(obj.(finalizers := finalizers));
        return err;
      }
      return false;
    }

    /** A reconcile of the spec controller that nobody interrupts is the worker's run of the protocol; without a ready
        service namespace nothing happens, and otherwise it fails exactly if the objects cannot be translated. */
    method ReconcileSpec(obj: Object, sn: ServiceNamespace) returns (err: bool)
      requires down == Some(obj)
      modifies this`down, this`up, this`clock
      ensures obj.namespace != "" && sn.Unavailable? ==> err && WorldNow() == old(WorldNow())
      ensures obj.namespace != "" && sn.Known? && sn.statusNamespace == "" ==> !err && WorldNow() == old(WorldNow())
      ensures obj.namespace == "" || (sn.Known? && sn.statusNamespace != "") ==>
                var r := RouteTo(if obj.namespace == "" then "" else sn.statusNamespace);
                && WorldNow() == SpecSync(r, old(WorldNow()))
                && (WellformedWorld(old(WorldNow())) ==>
                      && (err <==> SpecFails(r, obj, old(up)))
                      && (obj.deleting && old(up).Some? && old(up).value.deleting ==> WorldNow() == old(WorldNow())))
    {
      var ns := obj.namespace;
      if ns != "" {
        if sn.Unavailable? {
          return true;
        }
        if sn.statusNamespace == "" {
          return false;  // requeued
        }
        ns := sn.statusNamespace;
      }
      if obj.deleting && WellformedWorld(WorldNow()) {
        SpecSyncDeletes(RouteTo(ns), WorldNow());
      }
      err := ReconcileSpecAt(RouteTo(ns), obj);
    }

    method ReconcileSpecAt(r: Route, obj: Object) returns (err: bool)
      requires down == Some(obj)
      modifies this`down, this`up, this`clock
      ensures WorldNow() == Finish(r, old(State(WorldNow(), Loaded(obj))))
      ensures WellformedWorld(old(WorldNow())) ==> (err <==> SpecFails(r, obj, old(up)))
    {
      var current := obj;
      var upstream;
      ghost var s0 := State(WorldNow(), Loaded(obj));
      ghost var s1 := WorkerStep(r, s0);
      assert Finish(r, s0) == Finish(r, s1);
      assert s1.pc != Idle ==> Finish(r, s1) == Finish(r, WorkerStep(r, s1));
      if up.None? {
        if obj.deleting {
          err := RemoveDownstreamFinalizer(obj);
          return;
        }
        err, current := EnsureDownstreamFinalizer(obj);
        if err {
          return;
        }
        err, upstream := CreateProviderCopy(r, current);
        if err {
          return;
        }
      } else {
        var view := r.View(up.value);
        if view.None? {
          return true;
        }
        upstream := view.value;
        assert Sendable(r, upstream, up);
      }
      err := SyncExisting(r, current, upstream);
    }

    /** The part of the reconcile for a consumer object that has no provider copy yet. */
    method CreateProviderCopy(r: Route, obj: Object) returns (err: bool, upstream: Object)
      requires down == Some(obj) && up.None?
      modifies this`up, this`clock
      ensures err ==> WorldNow() == Finish(r, old(State(WorldNow(), Creating(obj))))
      ensures !err ==> Finish(r, State(WorldNow(), Decide(obj, upstream))) ==
                         Finish(r, old(State(WorldNow(), Creating(obj))))
      ensures err <==> r.ForCreate(CleanedUp(r, obj)).None?
      ensures !err ==> Sendable(r, upstream, up) && (WellformedWorld(old(WorldNow())) ==> WellformedWorld(WorldNow()))
    {
      ghost var s0 := State(WorldNow(), Creating(obj));
      assert Finish(r, s0) == Finish(r, WorkerStep(r, s0));
      upstream := CleanedUp(r, obj);
      var sent := r.ForCreate(upstream);
      if sent.None? {
        return true, upstream;
      }
      var w := Create(up, clock, sent.value);
      up, clock := w.cell, w.clock;
      if r.upstreamNs == "" {
        upstream := sent.value;
      }
      return false, upstream;
    }

    /** The part of the reconcile that follows once the provider copy exists. */
    method SyncExisting(r: Route, obj: Object, upstream: Object) returns (err: bool)
      requires down == Some(obj)
      modifies this`down, this`up, this`clock
      ensures WorldNow() == Finish(r, old(State(WorldNow(), Decide(obj, upstream))))
      ensures WellformedWorld(old(WorldNow())) && Sendable(r, upstream, old(up)) ==> !err
    {
      ghost var s0 := State(WorldNow(), Decide(obj, upstream));
      ghost var s1 := WorkerStep(r, s0);
      assert s0.pc != Idle ==> Finish(r, s0) == Finish(r, s1);
      assert s0.pc != Idle && s1.pc != Idle ==> Finish(r, s1) == Finish(r, WorkerStep(r, s1));
      if obj.deleting {
        if upstream.deleting {
          return false;
        }
        var w := Delete(up, clock);
        up, clock := w.cell, w.clock;
        err := RemoveDownstreamFinalizer(obj);
        return;
      }
      var current;
      err, current := EnsureDownstreamFinalizer(obj);
      if err {
        return;
      }
      err := SyncSpec(r, current, upstream);
    }

    /** The last part: the consumer's spec goes to the provider copy if it differs. */
    method SyncSpec(r: Route, obj: Object, upstream: Object) returns (err: bool)
      modifies this`up, this`clock
      ensures WorldNow() == Finish(r, old(State(WorldNow(), Compare(obj, upstream))))
      ensures Sendable(r, upstream, old(up)) ==> !err
    {
      var downstreamSpec := Field(obj, "spec");
      if NilView(downstreamSpec) == NilView(Field(upstream, "spec")) {
        return false;
      }
      ghost var s0 := State(WorldNow(), Compare(obj, upstream));
      assert Finish(r, s0) == Finish(r, WorkerStep(r, s0));
      var sent := r.ForApply(WithField(upstream, "spec", downstreamSpec).(managedFields := []));
      if sent.None? {
        return true;
      }
      var w := Apply(up, clock, sent.value);
      up, clock := w.cell, w.clock;
      return w.answer != Accepted;
    }

    /** A reconcile of the status controller for the provider copy; a missing consumer object takes the copy along. It
        fails exactly if the consumer object is marked for another consumer. */
    method ReconcileStatus(obj: Object, sn: ServiceNamespace) returns (err: bool)
      requires up == Some(obj)
      modifies this`down, this`up, this`clock
      ensures obj.namespace != "" && (sn.Unavailable? || sn.statusNamespace == "") ==>
                err == sn.Unavailable? && WorldNow() == old(WorldNow())
      ensures obj.namespace == "" || (sn.Known? && sn.statusNamespace != "") ==>
                var r := RouteTo(obj.namespace);
                && WorldNow() == StatusSync(r, old(WorldNow()))
                && (old(down).None? ==> down.None? && Deleted(obj, up))
                && (WellformedWorld(old(WorldNow())) ==>
                      (err <==> old(down).Some? && r.ConsumerView(old(down).value).None?))
    {
      if obj.namespace != "" {
        if sn.Unavailable? {
          return true;
        }
        if sn.statusNamespace == "" {
          return false;  // the error returned here is the nil one of the successful lookup
        }
      }
      var r := RouteTo(obj.namespace);
      if down.None? {
        var w := Delete(up, clock);
        up, clock := w.cell, w.clock;
        return w.answer != Accepted;
      }
      var orig := r.ConsumerView(down.value);
      if orig.None? {
        return true;
      }
      var downstream := orig.value;
      var status := Field(obj, "status");
      if status.Some? {
        downstream := downstream.(fields := downstream.fields["status" := status.value]);
      } else {
        downstream := downstream.(fields := downstream.fields - {"status"});
      }
      if orig.value != downstream {
        var sent := r.ForStatusUpdate(downstream);
        if sent.None? {
          return true;
        }
        var w := UpdateStatus(down, clock, sent.value);
        down, clock := w.cell, w.clock;
        return w.answer != Accepted;
      }
      return false;
    }
  }
}
