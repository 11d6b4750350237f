/** pkg/konnector/konnector_reconcile.go: service bindings with the same kubeconfig share one cluster controller,
    which is stopped when the last of them leaves. */
module SharedControllers {
  import opened Kube

  /** The kubeconfig of each binding that has a controller: all there is to know about the registry. */
  type View = map<string, string>

  /** What reading the kubeconfig secret yields; an absent key reads as the empty kubeconfig. */
  datatype Secret = Data(kubeconfig: string) | Missing | Unreadable

  predicate Mapped(v: View, kubeconfig: string) {
    exists n :: n in v && v[n] == kubeconfig
  }

  /** The registry after a reconcile of the binding; `usable` tells whether a kubeconfig parses and names a namespace.
      */
  function NextView(v: View, name: string, kubeconfig: string, usable: string -> bool): View {
    if kubeconfig != "" && (Mapped(v, kubeconfig) || usable(kubeconfig)) then v[name := kubeconfig]
    else v - {name}
  }

  lemma LeavingFirst(v: View, name: string, kubeconfig: string, usable: string -> bool)
    requires name in v ==> v[name] != kubeconfig
    ensures Mapped(v - {name}, kubeconfig) == Mapped(v, kubeconfig)
    ensures NextView(v - {name}, name, kubeconfig, usable) == NextView(v, name, kubeconfig, usable)
  {
    if Mapped(v, kubeconfig) {
      var n :| n in v && v[n] == kubeconfig;
      assert n in v - {name} && (v - {name})[n] == kubeconfig;
    }
    if kubeconfig != "" && (Mapped(v, kubeconfig) || usable(kubeconfig)) {
      assert (v - {name})[name := kubeconfig] == v[name := kubeconfig];
    } else {
      assert v - {name} - {name} == v - {name};
    }
  }

  /** A binding is reconciled with the kubeconfig that its secret holds at that time, "" if there is none. */
  datatype Event = Event(name: string, kubeconfig: string)

  function RunView(events: seq<Event>, usable: string -> bool): View {
    if events == [] then map[]
    else
      var e := events[|events| - 1];
      NextView(RunView(events[..|events| - 1], usable), e.name, e.kubeconfig, usable)
  }

  function LastKubeconfig(events: seq<Event>, name: string): string {
    if events == [] then ""
    else if events[|events| - 1].name == name then events[|events| - 1].kubeconfig
    else LastKubeconfig(events[..|events| - 1], name)
  }

  /** After any sequence of reconciles a binding has a controller exactly when its latest kubeconfig is usable, and
      the controller is the one for that kubeconfig: neither the order of the bindings nor older secrets matter. */
  lemma {:induction false} LatestSecretDecides(events: seq<Event>, usable: string -> bool, name: string)
    ensures var v, last := RunView(events, usable), LastKubeconfig(events, name);
            && (name in v <==> last != "" && usable(last))
            && (name in v ==> v[name] == last)
  {
    if events == [] {
    } else {
      var e := events[|events| - 1];
      var before := events[..|events| - 1];
      LatestSecretDecides(before, usable, name);
      if Mapped(RunView(before, usable), e.kubeconfig) {
        var m :| m in RunView(before, usable) && RunView(before, usable)[m] == e.kubeconfig;
        LatestSecretDecides(before, usable, m);
      }
    }
  }

  /** A controller and the bindings it serves, shared by reference between the entries of those bindings. */
  class ControllerContext {
    const kubeconfig: string
    /** The binding whose reconcile made the context, caught in the controller's binding filter. */
    const founder: string
    var cancelled: bool
    var serviceBindings: set<string>

    constructor (kubeconfig: string, founder: string)
      ensures this.kubeconfig == kubeconfig && this.founder == founder && serviceBindings == {founder} && !cancelled
    {
      this.kubeconfig, this.founder, serviceBindings, cancelled := kubeconfig, founder, {founder}, false;
    }

    method Cancel()
      modifies this`cancelled
      ensures cancelled
    {
      cancelled := true;
    }
  }

  function ViewOf(controllers: map<string, ControllerContext>): View {
    map n | n in controllers :: controllers[n].kubeconfig
  }

  lemma ViewOfChanged(controllers: map<string, ControllerContext>, name: string, context: ControllerContext)
    ensures ViewOf(controllers - {name}) == ViewOf(controllers) - {name}
    ensures ViewOf(controllers[name := context]) == ViewOf(controllers)[name := context.kubeconfig]
  {
  }

  class Reconciler {
    var controllers: map<string, ControllerContext>
    /** Every context ever made, also those that have left the map. */
    ghost var made: set<ControllerContext>
    /** The contexts in use, one for each kubeconfig. */
    ghost var live: map<string, ControllerContext>

    constructor ()
      ensures Valid() && controllers == map[] && made == {}
    {
      controllers, made, live := map[], {}, map[];
    }

    ghost predicate Valid()
      reads this, made
    {
      && (forall n | n in controllers ::
            && controllers[n] in made
            && n in controllers[n].serviceBindings
            && controllers[n].kubeconfig != ""
            && controllers[n].kubeconfig in live && live[controllers[n].kubeconfig] == controllers[n])
      && (forall k | k in live :: live[k] in made && live[k].kubeconfig == k && live[k].serviceBindings != {})
      && (forall c, n | c in made && n in c.serviceBindings :: n in controllers && controllers[n] == c)
      && (forall c | c in made :: c.cancelled <==> c.serviceBindings == {})
    }

    ghost function ViewNow(): View
      reads this
    {
      ViewOf(controllers)
    }

    /** The contexts that were made and not yet cancelled. */
    ghost function Running(): set<ControllerContext>
      reads this, made
    {
      set c | c in made && !c.cancelled
    }

    /** The contexts partition the bindings by kubeconfig, and the running ones are those in the registry. */
    lemma ContextsPartitionBindings()
      requires Valid()
      ensures forall n, m | n in controllers && m in controllers ::
                controllers[n] == controllers[m] <==> ViewNow()[n] == ViewNow()[m]
      ensures forall n, m | n in controllers ::
                m in controllers[n].serviceBindings <==> m in controllers && ViewNow()[m] == ViewNow()[n]
      ensures Running() == set n | n in controllers :: controllers[n]
    {
      forall c | c in Running()
        ensures c in set n | n in controllers :: controllers[n]
      {
        var n :| n in c.serviceBindings;
        assert controllers[n] == c;
      }
    }

    /** The filter that the controller of a context uses to pick its bindings; None stands for a nil dereference, when
        the founding binding has no entry. */
    function BindingFilter(context: ControllerContext, name: string): Option<bool>
      reads this, if context.founder in controllers then {controllers[context.founder]} else {}
    {
      if context.founder !in controllers then None else Some(name in controllers[context.founder].serviceBindings)
    }

    /** The filter of a running context is right exactly while its founding binding is still mapped to it. */
    lemma FilterIsRightWhileFounderStays(context: ControllerContext)
      requires Valid() && context in made && !context.cancelled
      ensures (forall n :: BindingFilter(context, n) == Some(n in context.serviceBindings)) <==>
              context.founder in controllers && controllers[context.founder] == context
    {
    }

    /** The registry is sound after every reconcile: each binding sits in the context it maps to and in no other,
        equal kubeconfigs share one context, and exactly the contexts without bindings are cancelled. The reconcile
        changes the registry to NextView; a failing start reports the error but keeps the entry. */
    method Reconcile(name: string, secret: Secret, usable: string -> bool, starts: bool) returns (err: bool)
      requires Valid()
      modifies this, made
      ensures Valid() && fresh(made - old(made)) && old(made) <= made
      ensures secret.Unreadable? ==> err && ViewNow() == old(ViewNow()) && made == old(made)
      ensures !secret.Unreadable? ==>
                ViewNow() == NextView(old(ViewNow()), name, if secret.Data? then secret.kubeconfig else "", usable)
      ensures forall n | n in controllers && n != name :: n in old(controllers) && controllers[n] == old(controllers[n])
      ensures made != old(made) ==>
                && name in controllers && made == old(made) + {controllers[name]}
                && !Mapped(old(ViewNow()), controllers[name].kubeconfig) && controllers[name].founder == name
      ensures forall c | c in old(made) && !old(c.cancelled) && c.cancelled ::
                old(c.serviceBindings) == {name} && (secret.Data? ==> c.kubeconfig != secret.kubeconfig)
      ensures forall c | c in old(made) && old(c.cancelled) :: c.cancelled
      ensures err <==> secret.Unreadable? || (made != old(made) && !starts)
    {
      if secret.Unreadable? {
        return true;
      }
      var kubeconfig := if secret.Data? then secret.kubeconfig else "";
      if name in controllers && controllers[name].kubeconfig != kubeconfig {
        LeavingFirst(ViewNow(), name, kubeconfig, usable);
        ViewOfChanged(controllers, name, controllers[name]);
        Leave(name);
      }
      if kubeconfig == "" {
        return false;
      }
      err := Attach(name, kubeconfig, usable, starts);
    }

    /** Gives the binding the context of its kubeconfig, an existing one or a new one. */
    method Attach(name: string, kubeconfig: string, usable: string -> bool, starts: bool) returns (err: bool)
      requires Valid() && kubeconfig != "" && (name in controllers ==> controllers[name].kubeconfig == kubeconfig)
      modifies this, made
      ensures Valid() && fresh(made - old(made)) && old(made) <= made
      ensures ViewNow() == NextView(old(ViewNow()), name, kubeconfig, usable)
      ensures forall n | n in controllers && n != name :: n in old(controllers) && controllers[n] == old(controllers[n])
      ensures made != old(made) ==>
                && name in controllers && made == old(made) + {controllers[name]}
                && controllers[name].kubeconfig == kubeconfig && !Mapped(old(ViewNow()), kubeconfig)
                && controllers[name].founder == name
      ensures forall c | c in old(made) :: c.cancelled == old(c.cancelled)
      ensures err <==> made != old(made) && !starts
    {
      var found, n := Find(kubeconfig);
      if found {
        ViewOfChanged(controllers, name, controllers[n]);
        Join(name, controllers[n]);
        return false;
      }
      assert name !in ViewNow();
      if !usable(kubeconfig) {
        return false;
      }
      ghost var before := controllers;
      LiveIsMapped();
      Begin(name, kubeconfig);
      ViewOfChanged(before, name, controllers[name]);
      return !starts;
    }

    /** Takes a binding out of its context, and stops the context if it was the last one. */
    method Leave(name: string)
      requires Valid() && name in controllers
      modifies this, made
      ensures Valid() && made == old(made)
      ensures controllers == old(controllers) - {name}
      ensures forall c | c in made ::
                c.cancelled == (old(c.cancelled) || (c == old(controllers)[name] && old(c.serviceBindings) == {name}))
    {
      var context := controllers[name];
      context.serviceBindings := context.serviceBindings - {name};
      if context.serviceBindings == {} {
        context.Cancel();
        live := live - {context.kubeconfig};
      }
      controllers := controllers - {name};
    }

    /** Looks through the registry for a context with the kubeconfig. */
    method Find(kubeconfig: string) returns (found: bool, n: string)
      ensures found ==> n in controllers && controllers[n].kubeconfig == kubeconfig
      ensures found == Mapped(ViewNow(), kubeconfig)
    {
      var todo := controllers.Keys;
      while todo != {}
        invariant todo <= controllers.Keys
        invariant forall m | m in controllers.Keys - todo :: controllers[m].kubeconfig != kubeconfig
        decreases todo
      {
        n :| n in todo;
        todo := todo - {n};
        if controllers[n].kubeconfig == kubeconfig {
          assert ViewNow()[n] == kubeconfig;
          return true, n;
        }
      }
      return false, "";
    }

    /** Adds the binding to a context that is in the registry. */
    method Join(name: string, context: ControllerContext)
      requires Valid() && (exists n :: n in controllers && controllers[n] == context)
      requires name in controllers ==> controllers[name] == context
      modifies this, made
      ensures Valid() && made == old(made)
      ensures controllers == old(controllers)[name := context]
      ensures forall c | c in made :: c.cancelled == old(c.cancelled)
    {
      controllers := controllers[name := context];
      context.serviceBindings := context.serviceBindings + {name};
    }

    lemma LiveIsMapped()
      requires Valid()
      ensures forall k | k in live :: Mapped(ViewNow(), k)
    {
      forall k | k in live
        ensures Mapped(ViewNow(), k)
      {
        var n :| n in live[k].serviceBindings;
        assert ViewNow()[n] == k;
      }
    }

    /** Makes a context for a kubeconfig that has none. */
    method Begin(name: string, kubeconfig: string)
      requires Valid() && name !in controllers && kubeconfig != "" && kubeconfig !in live
      modifies this
      ensures Valid() && name in controllers && controllers[name].kubeconfig == kubeconfig
      ensures fresh(controllers[name]) && controllers[name].founder == name && made == old(made) + {controllers[name]}
      ensures controllers == old(controllers)[name := controllers[name]]
    {
      var context := new ControllerContext(kubeconfig, name);
      controllers := controllers[name := context];
      made, live := made + {context}, live[kubeconfig := context];
    }

    /** Any sequence of reconciles, starting from nothing. */
    method Run(events: seq<Event>, usable: string -> bool, starts: seq<bool>)
      requires Valid() && controllers == map[] && |starts| == |events|
      modifies this, made
      ensures Valid() && fresh(made - old(made)) && ViewNow() == RunView(events, usable)
    {
      var i := 0;
      assert ViewNow() == map[];
      assert events[..0] == [];
      while i < |events|
        invariant 0 <= i <= |events|
        invariant Valid() && fresh(made - old(made)) && ViewNow() == RunView(events[..i], usable)
      {
        assert events[..i + 1][..i] == events[..i];
        var err := Reconcile(events[i].name, Data(events[i].kubeconfig), usable, starts[i]);
        i := i + 1;
      }
      assert events[..i] == events;
    }
  }

  method ShareKubeconfig(kubeconfig: string, usable: string -> bool) returns (r: Reconciler)
    requires kubeconfig != "" && usable(kubeconfig)
    ensures r.Valid() && fresh(r) && fresh(r.made)
    ensures r.ViewNow() == map["a" := kubeconfig, "b" := kubeconfig]
    ensures "b" in r.controllers && r.controllers["b"].founder == "a"
  {
    r := new Reconciler();
    var err := r.Reconcile("a", Data(kubeconfig), usable, true);
    assert r.ViewNow()["a"] == kubeconfig;
    err := r.Reconcile("b", Data(kubeconfig), usable, true);
    assert r.ViewNow()["b"] == kubeconfig;
  }

  /** Two bindings share a kubeconfig, and the first loses its secret: the controller of the second runs on with a
      filter that fails for every binding, its own included. */
  method FounderLeaves(kubeconfig: string, usable: string -> bool) returns (r: Reconciler)
    requires kubeconfig != "" && usable(kubeconfig)
    ensures r.Valid() && "b" in r.controllers && !r.controllers["b"].cancelled
    ensures forall n :: r.BindingFilter(r.controllers["b"], n) == None
  {
    r := ShareKubeconfig(kubeconfig, usable);
    var err := r.Reconcile("a", Missing, usable, true);
    assert "b" in r.ViewNow() && "a" !in r.ViewNow();
  }
}
