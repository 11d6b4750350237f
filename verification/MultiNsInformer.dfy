/** pkg/konnector/controllers/cluster/serviceexport/multinsinformer: one informer per service namespace, presented as
    one view that spans them all. */
module MultiNsInformer {
  import opened Kube

  type Handler = nat

  /** The objects of the provider cluster by namespace and name; every informer's cache is current. */
  type Objects = map<(string, string), Object>

  datatype GetResult = Got(obj: Object) | Absent | Ambiguous
  datatype ListResult = Listed(objs: set<Object>) | AmbiguousList

  /** GetterInformerWrapper: the same interface on an informer for the whole cluster. */
  function WrapperGet(objects: Objects, ns: string, name: string): GetResult {
    if (ns, name) in objects then Got(objects[(ns, name)]) else Absent
  }

  function WrapperList(objects: Objects, ns: string): ListResult {
    Listed(set k | k in objects && k.0 == ns :: objects[k])
  }

  /** The informer of one namespace, with the handlers attached to it. */
  class NamespaceInformer {
    ghost const serviceNamespace: string
    const namespace: string
    var attached: seq<Handler>
    var cancelled: bool

    constructor (ghost serviceNamespace: string, namespace: string)
      ensures this.serviceNamespace == serviceNamespace && this.namespace == namespace
      ensures attached == [] && !cancelled
    {
      this.serviceNamespace, this.namespace := serviceNamespace, namespace;
      attached, cancelled := [], false;
    }

    method AddEventHandler(h: Handler)
      modifies this`attached
      ensures attached == old(attached) + [h]
    {
      attached := attached + [h];
    }

    function Get(objects: Objects, ns: string, name: string): GetResult {
      if ns == namespace && (ns, name) in objects then Got(objects[(ns, name)]) else Absent
    }

    function List(objects: Objects, ns: string): ListResult {
      Listed(set k | k in objects && k.0 == ns && k.0 == namespace :: objects[k])
    }
  }

  /** What a service namespace event leads to: the log line of the branch for vanished service namespaces reads the
      status of the object that was not found. */
  datatype Outcome = Done | NilDereference

  class DynamicMultiNamespaceInformer {
    const providerNamespace: string
    /** The namespace that the backend assigns to each service namespace. */
    ghost const statusOf: string -> string
    /** The APIServiceNamespaces of the provider namespace with their status namespaces, "" while not ready. */
    var serviceNamespaces: map<string, string>
    /** The service namespaces that changed since their last event was handled. */
    ghost var pending: set<string>

    var namespaceInformers: map<string, NamespaceInformer>
    var namespaceCancel: map<string, NamespaceInformer>
    var handlers: seq<Handler>

    constructor (providerNamespace: string, ghost statusOf: string -> string)
      ensures Valid() && this.providerNamespace == providerNamespace && this.statusOf == statusOf
      ensures serviceNamespaces == map[] && handlers == [] && namespaceInformers == map[]
    {
      this.providerNamespace, this.statusOf := providerNamespace, statusOf;
      serviceNamespaces, pending := map[], {};
      namespaceInformers, namespaceCancel, handlers := map[], map[], [];
    }

    ghost function Informers(): set<NamespaceInformer>
      reads this
    {
      set n | n in namespaceInformers :: namespaceInformers[n]
    }

    ghost predicate Ready(name: string)
      reads this
    {
      name in serviceNamespaces && serviceNamespaces[name] != ""
    }

    /** Every handler is attached exactly once, in order, to every running informer; informers and cancel functions
        come in pairs; and the informer of a service namespace whose events are handled is the right one. */
    ghost predicate Valid()
      reads this, Informers()
    {
      && WellAttached()
      && (forall n | n !in pending :: n in namespaceInformers <==> Ready(n))
    }

    ghost predicate WellAttached()
      reads this, Informers()
    {
      && namespaceCancel == namespaceInformers
      && (forall n | n in namespaceInformers ::
            && namespaceInformers[n].serviceNamespace == n
            && namespaceInformers[n].attached == handlers
            && !namespaceInformers[n].cancelled
            && namespaceInformers[n].namespace == statusOf(n) != "")
      && (forall n | n in serviceNamespaces :: serviceNamespaces[n] in {"", statusOf(n)})
    }

    /** A service namespace is created, gets or loses its status namespace, or goes away. The backend only ever
        assigns it the one namespace. */
    method ServiceNamespaceChanged(name: string, now: Option<string>)
      requires Valid() && (now.Some? ==> now.value in {"", statusOf(name)})
      modifies this`serviceNamespaces, this`pending
      ensures Valid() && pending == old(pending) + {name}
      ensures serviceNamespaces == match now
                                   case Some(status) => old(serviceNamespaces)[name := status]
                                   case None => old(serviceNamespaces) - {name}
    {
      serviceNamespaces :=
        match now
        case Some(status) => serviceNamespaces[name := status]
        case None => serviceNamespaces - {name};
      pending := pending + {name};
    }

    /** Handles an event: afterwards the service namespace has an informer exactly if it is ready, carrying all
        handlers, and all other informers are as they were. A service namespace that is gone while its informer runs
        makes the handler fail before it changes anything. */
    method EnqueueServiceNamespace(ns: string, name: string) returns (outcome: Outcome)
      requires Valid()
      modifies this`namespaceInformers, this`namespaceCancel, this`pending, Informers()
      ensures Valid()
      ensures outcome == NilDereference <==>
                ns == providerNamespace && name !in serviceNamespaces && name in old(namespaceCancel)
      ensures ns != providerNamespace || outcome == NilDereference ==>
                namespaceInformers == old(namespaceInformers) && pending == old(pending)
      ensures ns == providerNamespace && outcome == Done ==>
                && pending == old(pending) - {name}
                && (name in namespaceInformers <==> Ready(name))
                && namespaceInformers - {name} == old(namespaceInformers) - {name}
                && (name in old(namespaceInformers) && name in namespaceInformers ==>
                      namespaceInformers[name] == old(namespaceInformers[name]))
      ensures fresh(Informers() - old(Informers()))
    {
      if ns != providerNamespace {
        return Done;
      }
      if name !in serviceNamespaces || serviceNamespaces[name] == "" {
        outcome := Disappeared(name);
        return;
      }
      pending := pending - {name};
      if name in namespaceCancel {
        return Done;
      }
      StartInformer(name);
      return Done;
    }

    /** The part for a service namespace that is gone or not ready. */
    method Disappeared(name: string) returns (outcome: Outcome)
      requires Valid() && !Ready(name)
      modifies this`namespaceInformers, this`namespaceCancel, this`pending, Informers()
      ensures Valid()
      ensures outcome == NilDereference <==> name !in serviceNamespaces && name in old(namespaceCancel)
      ensures outcome == NilDereference ==> namespaceInformers == old(namespaceInformers) && pending == old(pending)
      ensures outcome == Done ==>
                pending == old(pending) - {name} && namespaceInformers == old(namespaceInformers) - {name}
    {
      if name in namespaceCancel {
        if name !in serviceNamespaces {
          return NilDereference;
        }
        StopInformer(name);
      }
      pending := pending - {name};
      return Done;
    }

    method StopInformer(name: string)
      requires WellAttached() && name in namespaceInformers
      modifies this`namespaceInformers, this`namespaceCancel, {namespaceInformers[name]}
      ensures WellAttached() && namespaceInformers == old(namespaceInformers) - {name}
      ensures old(namespaceInformers[name]).cancelled
      ensures old(namespaceInformers[name]).attached == handlers
    {
      var cancel := namespaceCancel[name];
      namespaceCancel := namespaceCancel - {name};
      namespaceInformers := namespaceInformers - {name};
      cancel.cancelled := true;
    }

    method StartInformer(name: string)
      requires WellAttached() && name !in namespaceInformers && Ready(name)
      modifies this`namespaceInformers, this`namespaceCancel
      ensures WellAttached() && name in namespaceInformers && fresh(namespaceInformers[name])
      ensures namespaceInformers == old(namespaceInformers)[name := namespaceInformers[name]]
    {
      var informer := new NamespaceInformer(name, serviceNamespaces[name]);
      AttachAll(informer);
      namespaceCancel := namespaceCancel[name := informer];
      namespaceInformers := namespaceInformers[name := informer];
    }

    method AttachAll(informer: NamespaceInformer)
      requires informer.attached == []
      modifies informer`attached
      ensures informer.attached == handlers
    {
      var i := 0;
      while i < |handlers|
        invariant 0 <= i <= |handlers|
        invariant informer.attached == handlers[..i]
      {
        informer.AddEventHandler(handlers[i]);
        i := i + 1;
      }
      assert handlers[..i] == handlers;
    }

    /** Registers a handler with every running informer and for those to come; an informer that refuses it ends the
        registration, with the handler attached to some of the informers. */
    method AddEventHandler(h: Handler, refuses: string -> bool) returns (err: bool)
      requires Valid()
      modifies this`handlers, Informers()
      ensures err <==> exists n :: n in namespaceInformers && refuses(n)
      ensures !err ==> Valid() && handlers == old(handlers) + [h]
      ensures err ==>
                && handlers == old(handlers)
                && forall n | n in namespaceInformers :: namespaceInformers[n].attached in {handlers, handlers + [h]}
    {
      err := AttachToAll(h, refuses);
      if !err {
        handlers := handlers + [h];
      }
    }

    method AttachToAll(h: Handler, refuses: string -> bool) returns (err: bool)
      requires WellAttached()
      modifies Informers()
      ensures err <==> exists n :: n in namespaceInformers && refuses(n)
      ensures forall n | n in namespaceInformers ::
                && namespaceInformers[n].attached in {handlers, handlers + [h]}
                && (!err ==> namespaceInformers[n].attached == handlers + [h])
                && !namespaceInformers[n].cancelled
    {
      var todo := namespaceInformers.Keys;
      while todo != {}
        invariant todo <= namespaceInformers.Keys
        invariant forall n | n in namespaceInformers ::
                    && namespaceInformers[n].attached == (if n in todo then handlers else handlers + [h])
                    && !namespaceInformers[n].cancelled
        invariant forall n | n in namespaceInformers.Keys - todo :: !refuses(n)
        modifies Informers()
        decreases todo
      {
        var n :| n in todo;
        todo := todo - {n};
        if refuses(n) {
          return true;
        }
        namespaceInformers[n].AddEventHandler(h);
      }
      return false;
    }

    /** The service namespaces that map to a namespace: the index that Get and List consult. */
    function ByNamespace(ns: string): set<string>
      reads this
    {
      set n | n in serviceNamespaces && serviceNamespaces[n] == ns && ns != ""
    }

    /** The service namespace is ready with this namespace. */
    predicate MapsTo(n: string, ns: string)
      reads this
    {
      n in serviceNamespaces && serviceNamespaces[n] == ns && ns != ""
    }

    /** No other service namespace has the namespace of this one. */
    ghost predicate OnlyOne(n: string, ns: string)
      reads this
    {
      MapsTo(n, ns) && forall m | MapsTo(m, ns) :: m == n
    }

    ghost predicate Two(ns: string)
      reads this
    {
      exists m, n :: MapsTo(m, ns) && MapsTo(n, ns) && m != n
    }

    lemma IndexCounts(ns: string)
      ensures |ByNamespace(ns)| > 1 <==> Two(ns)
      ensures |ByNamespace(ns)| == 1 ==> exists n :: OnlyOne(n, ns)
      ensures |ByNamespace(ns)| == 0 <==> forall n :: !MapsTo(n, ns)
    {
      var found := ByNamespace(ns);
      assert forall n :: n in found <==> MapsTo(n, ns);
      if found != {} {
        var n :| n in found;
        var rest := found - {n};
        assert found == rest + {n} && |found| == |rest| + 1;
        if rest == {} {
          assert OnlyOne(n, ns);
        } else {
          var m :| m in rest;
          assert MapsTo(m, ns) && MapsTo(n, ns) && m != n;
        }
      }
    }

    method Informer(ns: string) returns (many: bool, i: Option<NamespaceInformer>)
      requires Valid()
      ensures many <==> Two(ns)
      ensures i.Some? ==> i.value.namespace == ns
      ensures (forall n :: !MapsTo(n, ns)) ==> i.None?
      ensures forall n | OnlyOne(n, ns) && n !in pending :: i.Some?
    {
      var found := ByNamespace(ns);
      IndexCounts(ns);
      many, i := |found| > 1, None;
      if |found| == 1 {
        var n :| n in found;
        assert MapsTo(n, ns);
        if n in namespaceInformers {
          i := Some(namespaceInformers[n]);
        }
      }
    }

    /** The view agrees with the one of the whole cluster on every ready service namespace whose events are handled
        and whose namespace no other one has, finds nothing where no service namespace is, and complains exactly if
        two have the namespace. */
    method Get(objects: Objects, ns: string, name: string) returns (r: GetResult)
      requires Valid()
      ensures r == Ambiguous <==> Two(ns)
      ensures (forall n :: !MapsTo(n, ns)) ==> r == Absent
      ensures forall n | OnlyOne(n, ns) && n !in pending :: r == WrapperGet(objects, ns, name)
      ensures r.Got? ==> r == WrapperGet(objects, ns, name)
    {
      var many, i := Informer(ns);
      if many {
        return Ambiguous;
      }
      return if i.None? then Absent else i.value.Get(objects, ns, name);
    }

    method List(objects: Objects, ns: string) returns (r: ListResult)
      requires Valid()
      ensures r == AmbiguousList <==> Two(ns)
      ensures (forall n :: !MapsTo(n, ns)) ==> r == Listed({})
      ensures forall n | OnlyOne(n, ns) && n !in pending :: r == WrapperList(objects, ns)
      ensures r.Listed? ==> r.objs <= WrapperList(objects, ns).objs
    {
      var many, i := Informer(ns);
      if many {
        return AmbiguousList;
      }
      return if i.None? then Listed({}) else i.value.List(objects, ns);
    }
  }

  datatype Step = Changed(name: string, now: Option<string>) | Event(ns: string, name: string) | Registered(h: Handler)

  /** Every interleaving of changes, events and registrations keeps the handlers complete, and a service namespace
      whose last change has been followed by its event has an informer exactly if it is ready. */
  method Run(inf: DynamicMultiNamespaceInformer, steps: seq<Step>)
    requires inf.Valid()
    requires forall s | s in steps && s.Changed? && s.now.Some? :: s.now.value in {"", inf.statusOf(s.name)}
    modifies inf, inf.Informers()
    ensures inf.Valid()
    ensures forall n | n in inf.namespaceInformers :: inf.namespaceInformers[n].attached == inf.handlers
  {
    var i := 0;
    while i < |steps|
      invariant 0 <= i <= |steps|
      invariant inf.Valid() && fresh(inf.Informers() - old(inf.Informers()))
    {
      assert steps[i] in steps;
      match steps[i] {
        case Changed(name, now) => inf.ServiceNamespaceChanged(name, now);
        case Event(ns, name) => var outcome := inf.EnqueueServiceNamespace(ns, name);
        case Registered(h) => var err := inf.AddEventHandler(h, n => false);
      }
      i := i + 1;
    }
  }

  /** The event of a service namespace that went away while its informer runs: the handler dereferences nil, and the
      informer runs on. */
  method Vanishes(providerNamespace: string, name: string, status: string)
    returns (inf: DynamicMultiNamespaceInformer, outcome: Outcome)
    requires status != ""
    ensures inf.Valid() && outcome == NilDereference
    ensures name !in inf.serviceNamespaces && name in inf.namespaceInformers && !inf.namespaceInformers[name].cancelled
  {
    inf := new DynamicMultiNamespaceInformer(providerNamespace, n => status);
    inf.ServiceNamespaceChanged(name, Some(status));
    outcome := inf.EnqueueServiceNamespace(providerNamespace, name);
    inf.ServiceNamespaceChanged(name, None);
    outcome := inf.EnqueueServiceNamespace(providerNamespace, name);
  }
}
