/** backend/controllers/servicenamespace: the provider namespace behind each APIServiceNamespace. */
module ServiceNamespaces {
  import opened Kube
  import opened ClusterScoped
  import opened Routing

  /** An APIServiceNamespace that exists, with its stored status namespace, or one that is gone; and the namespaces of
      the provider cluster. */
  datatype State = State(present: bool, status: string, namespaces: set<string>)

  /** Which calls of a reconcile fail; `listFails` stands for all that can fail once the status is set in memory. */
  datatype Failures = Failures(create: bool, delete: bool, roleBinding: bool, listFails: bool, statusUpdate: bool)

  const NO_FAILURES := Failures(false, false, false, false, false)

  /** One reconcile: creates the namespace if it is missing, and stores its name in the status. The name is that of
      the service namespace after the provider namespace and a dash, as for cluster-scoped objects. */
  function Reconciled(ns: string, name: string, s: State, f: Failures): State {
    if !s.present then (if f.delete then s else s.(namespaces := s.namespaces - {Prepend(name, ns)}))
    else
      var nsName := if s.status != "" then s.status else Prepend(name, ns);
      var missing := s.status == "" || nsName !in s.namespaces;
      if missing && f.create then s
      else
        var s' := s.(namespaces := s.namespaces + {nsName});
        if f.roleBinding || f.listFails || f.statusUpdate then s' else s'.(status := nsName)
  }

  datatype Action = Reconcile(f: Failures) | Removed | NamespaceDeleted(n: string)

  function After(ns: string, name: string, s: State, a: Action): State {
    match a
    case Reconcile(f) => Reconciled(ns, name, s, f)
    case Removed => s.(present := false)
    case NamespaceDeleted(n) => s.(namespaces := s.namespaces - {n})
  }

  ghost predicate IsRun(ns: string, name: string, states: seq<State>, actions: seq<Action>) {
    && |states| == |actions| + 1
    && states[0].present && states[0].status == ""
    && forall i | 0 <= i < |actions| :: states[i + 1] == After(ns, name, states[i], actions[i])
  }

  /** The assignment is stable: in every run the status namespace is set once, to the name that the deletion
      recomputes, and is never changed. */
  lemma {:induction false} AssignmentIsStable(ns: string, name: string, states: seq<State>, actions: seq<Action>,
                                              m: nat, n: nat)
    requires IsRun(ns, name, states, actions) && m <= n < |states|
    ensures states[n].status in {"", Prepend(name, ns)}
    ensures states[m].status != "" ==> states[n].status == states[m].status == Prepend(name, ns)
    decreases n
  {
    if n == 0 {
    } else {
      AssignmentIsStable(ns, name, states, actions, if m < n then m else n - 1, n - 1);
      assert states[n - 1 + 1] == After(ns, name, states[n - 1], actions[n - 1]);
    }
  }

  /** A reconcile without failures leaves the service namespace mapped to a namespace that exists. */
  lemma AssignmentArrives(ns: string, name: string, states: seq<State>, actions: seq<Action>, n: nat)
    requires IsRun(ns, name, states, actions) && n < |states| && states[n].present
    ensures var s := Reconciled(ns, name, states[n], NO_FAILURES);
            s.status == Prepend(name, ns) && s.namespaces == states[n].namespaces + {Prepend(name, ns)}
  {
    AssignmentIsStable(ns, name, states, actions, n, n);
  }

  /** The status is stored only at the end: a reconcile that fails anywhere before leaves it empty, and only a failed
      creation leaves the namespace missing. */
  lemma AssignmentNeedsAll(ns: string, name: string, s: State, f: Failures)
    requires s.present && s.status == ""
    ensures var s' := Reconciled(ns, name, s, f);
            && s'.present
            && (s'.status != "" <==> !f.create && !f.roleBinding && !f.listFails && !f.statusUpdate)
            && s'.namespaces == (if f.create then s.namespaces else s.namespaces + {Prepend(name, ns)})
  {
  }

  /** Once the service namespace is gone, a reconcile removes the very namespace it was mapped to. */
  lemma DeletionHitsTheAssigned(ns: string, name: string, states: seq<State>, actions: seq<Action>, n: nat, f: Failures)
    requires IsRun(ns, name, states, actions) && n < |states| && !f.delete
    requires !states[n].present && states[n].status != ""
    ensures Reconciled(ns, name, states[n], f).namespaces == states[n].namespaces - {states[n].status}
  {
    AssignmentIsStable(ns, name, states, actions, n, n);
  }

  /** Under one provider namespace different service namespaces get different namespaces. Across provider namespaces
      they can meet, exactly when one provider namespace with its dash is a prefix of the other. */
  lemma AssignmentsAreDistinct(p: string, m: string, q: string, n: string)
    ensures Prepend(m, p) == Prepend(n, p) ==> m == n
    ensures Prepend(m, p) == Prepend(n, q) ==> HasPrefix(p + "-", q + "-") || HasPrefix(q + "-", p + "-")
    ensures (exists m', n' :: m' != "" && n' != "" && Prepend(m', p) == Prepend(n', q)) <==>
            HasPrefix(p + "-", q + "-") || HasPrefix(q + "-", p + "-")
  {
    BeheadPrepend(m, p);
    BeheadPrepend(n, p);
    BeheadPrepend(n, q);
    if Prepend(m, p) == Prepend(n, q) {
      CommonPrefix(Prepend(m, p), p + "-", q + "-");
    }
    PrefixesOverlap(p, q);
  }

  /** Such a meeting: service namespace "c" of "a-b" and service namespace "b-c" of "a". */
  lemma AssignmentsMeet()
    ensures Prepend("c", "a-b") == Prepend("b-c", "a")
  {
  }

  class Reconciler {
    const ns: string
    const name: string
    var state: State

    constructor (ns: string, name: string, namespaces: set<string>)
      ensures this.ns == ns && this.name == name && state == State(true, "", namespaces)
    {
      this.ns, this.name, state := ns, name, State(true, "", namespaces);
    }

    method ReconcileOnce(f: Failures)
      modifies this`state
      ensures state == Reconciled(ns, name, old(state), f)
    {
      if !state.present {
        if !f.delete {
          state := state.(namespaces := state.namespaces - {ns + "-" + name});
        }
        return;
      }
      var nsName := ns + "-" + name;
      var found := false;
      if state.status != "" {
        nsName := state.status;
        found := nsName in state.namespaces;
      }
      if !found {
        if f.create {
          return;
        }
        state := state.(namespaces := state.namespaces + {nsName});
      } else {
        assert state.namespaces == state.namespaces + {nsName};
      }
      if f.roleBinding {
        return;
      }
      if state.status != nsName && !f.listFails && !f.statusUpdate {
        state := state.(status := nsName);
      }
    }

    /** Whatever happens from the beginning on, the status is empty or the one name. A reconcile without failures at
        the end assigns it and leaves the namespace existing, or, once the service namespace is gone, removes it. */
    method Run(actions: seq<Action>)
      requires state.present && state.status == ""
      modifies this`state
      ensures state.status in {"", Prepend(name, ns)}
      ensures actions != [] && actions[|actions| - 1] == Reconcile(NO_FAILURES) ==>
                && (state.present ==> state.status == Prepend(name, ns))
                && (state.present <==> Prepend(name, ns) in state.namespaces)
    {
      ghost var states := [state];
      var i := 0;
      while i < |actions|
        invariant 0 <= i <= |actions|
        invariant IsRun(ns, name, states, actions[..i]) && state == states[i]
        invariant 0 < i && actions[i - 1] == Reconcile(NO_FAILURES) ==>
                    && (state.present ==> state.status == Prepend(name, ns))
                    && (state.present <==> Prepend(name, ns) in state.namespaces)
      {
        if state.present {
          AssignmentIsStable(ns, name, states, actions[..i], i, i);
        }
        match actions[i] {
          case Reconcile(f) => ReconcileOnce(f);
          case Removed => state := state.(present := false);
          case NamespaceDeleted(n) => state := state.(namespaces := state.namespaces - {n});
        }
        states := states + [state];
        i := i + 1;
      }
      AssignmentIsStable(ns, name, states, actions[..i], i, i);
    }
  }
}
