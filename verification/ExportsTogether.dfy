/** Several exports in one namespace: when their workers get in each other's way. */
module ExportsTogether {
  import opened Kube
  import opened ContextStore
  import opened ExportWorkers

  /** One name continues the other after a dot, or they are equal. */
  predicate NamesOverlap(a: string, b: string) {
    HasPrefix(a + ".", b + ".") || HasPrefix(b + ".", a + ".")
  }

  /** Two exports can want the same key exactly if their names overlap: names have dots, and so have those of schemas.
      */
  lemma CollisionsAreExact(ns: string, a: string, b: string)
    ensures (exists x: Job, y: Job, k ::
               x.Owner() == ExportName(ns, a) && y.Owner() == ExportName(ns, b) && x.Wanted(k) && y.Wanted(k))
            <==> NamesOverlap(a, b)
  {
    if x: Job, y: Job, k :|
        x.Owner() == ExportName(ns, a) && y.Owner() == ExportName(ns, b) && x.Wanted(k) && y.Wanted(k) {
      CommonKeyMeansOverlap(x, y, k);
    }
    if HasPrefix(b + ".", a + ".") {
      var x, y, k := OverlapMeansCommonKey(ns, a, b);
    }
    if HasPrefix(a + ".", b + ".") {
      var y, x, k := OverlapMeansCommonKey(ns, b, a);
    }
  }

  lemma CommonKeyMeansOverlap(x: Job, y: Job, k: Key)
    requires x.ns == y.ns && x.Wanted(k) && y.Wanted(k)
    ensures NamesOverlap(x.name, y.name)
  {
    WantedKeys(x, k);
    WantedKeys(y, k);
    StartsWithName(x, k);
    StartsWithName(y, k);
    CommonPrefix(k[|x.ns| + 1..], x.name + ".", y.name + ".");
  }

  lemma StartsWithName(x: Job, k: Key)
    requires HasPrefix(k, x.Prefix() + ".")
    ensures |x.ns| + 1 <= |k| && HasPrefix(k[|x.ns| + 1..], x.name + ".")
  {
    var p := x.Prefix() + ".";
    assert p[|x.ns| + 1..] == x.name + ".";
    assert k[|x.ns| + 1..][..|x.name| + 1] == k[..|p|][|x.ns| + 1..];
  }

  /** An export that continues the name of another, and the keys they have in common: export "a" with resource "m" of
      group "c.d", and export "a.m" with resource "c" of group "d". */
  lemma OverlapMeansCommonKey(ns: string, a: string, b: string) returns (x: Job, y: Job, k: Key)
    requires HasPrefix(b + ".", a + ".")
    ensures x.Owner() == ExportName(ns, a) && y.Owner() == ExportName(ns, b) && x.Wanted(k) && y.Wanted(k)
  {
    var env := Surroundings(schema => Fetched, key => true, key => true);
    var own := GroupResource("d", "c");
    y := Job(env, ns, b, Export(1, [own]), Binding(1, []));
    k := SchemaKey(y.Prefix(), own.ResourceGroupName());
    assert FoundSchemaKey(env, y.Prefix(), y.se.resources[0], k);
    if a == b {
      x := y;
    } else {
      var m := RestOfName(a, b);
      var res := GroupResource("c.d", m);
      x := Job(env, ns, a, Export(1, [res]), Binding(1, []));
      assert own.ResourceGroupName() == "c.d" && res.ResourceGroupName() == m + "." + "c.d";
      assert k == ns + "." + a + "." + m + "." + "c.d" == SchemaKey(x.Prefix(), res.ResourceGroupName());
      assert FoundSchemaKey(env, x.Prefix(), x.se.resources[0], k);
    }
  }

  lemma RestOfName(a: string, b: string) returns (m: string)
    requires HasPrefix(b + ".", a + ".") && a != b
    ensures b == a + "." + m
  {
    assert (b + ".")[..|a| + 1][..|a|] == (b + ".")[..|a|] == a;
    assert (b + ".")[..|b|] == b;
    m := b[|a| + 1..];
    assert b[..|a| + 1] == (b + ".")[..|a| + 1];
  }

  /** The exports of a namespace are reconciled one after the other, from an empty store. */
  ghost predicate IsRun(jobs: seq<Job>, stores: seq<Entries>) {
    && |stores| == |jobs| + 1 && stores[0] == map[]
    && (forall i | 0 <= i < |jobs| :: jobs[i].Ran(stores[i], stores[i + 1]))
    && (forall i, j | 0 <= i < j < |jobs| :: jobs[i].Owner() != jobs[j].Owner())
  }

  /** A reconcile of the one spares all workers that the other wants, and wants none of their keys. */
  ghost predicate LeavesAlone(later: Job, earlier: Job) {
    forall k | earlier.Wanted(k) :: !later.Wanted(k) && later.Spared(k)
  }

  ghost predicate CanStart(job: Job) {
    forall k | job.Wanted(k) :: job.Attainable(k, Empty)
  }

  /** The first n exports can start their workers, and each leaves those before it alone. */
  ghost predicate InOrder(jobs: seq<Job>, n: nat)
    requires n <= |jobs|
  {
    && (forall i | 0 <= i < n :: CanStart(jobs[i]))
    && (forall i, j | 0 <= i < j < n :: LeavesAlone(jobs[j], jobs[i]))
  }

  ghost predicate AllConverged(jobs: seq<Job>, n: nat, s: Entries)
    requires n <= |jobs|
  {
    forall i | 0 <= i < n :: jobs[i].Converged(s)
  }

  /** Exports side by side: reconciling each of them once leaves all of them converged exactly if each can start its
      workers, and none reaches, by a wanted key, a sweep or a raw prefix, a key of one before it. */
  lemma AllConvergeExactly(jobs: seq<Job>, stores: seq<Entries>)
    requires IsRun(jobs, stores)
    ensures AllConverged(jobs, |jobs|, stores[|jobs|]) <==> InOrder(jobs, |jobs|)
  {
    if InOrder(jobs, |jobs|) {
      OrderConverges(jobs, stores, |jobs|);
    }
    if AllConverged(jobs, |jobs|, stores[|jobs|]) {
      ConvergedInOrder(jobs, stores, |jobs|);
    }
  }

  /** All workers are wanted by an export that has been reconciled. */
  ghost predicate Accounted(jobs: seq<Job>, n: nat, s: Entries)
    requires n <= |jobs|
  {
    forall k | k in s :: exists i: nat :: i < n && jobs[i].Owns(s[k]) && jobs[i].Wanted(k)
  }

  lemma {:induction false} RunIsAccounted(jobs: seq<Job>, stores: seq<Entries>, n: nat)
    requires IsRun(jobs, stores) && n <= |jobs|
    ensures Accounted(jobs, n, stores[n])
  {
    if n == 0 {
    } else {
      var s, s' := stores[n - 1], stores[n];
      RunIsAccounted(jobs, stores, n - 1);
      assert jobs[n - 1].Ran(stores[n - 1], stores[n - 1 + 1]);
      NewIsWanted(jobs[n - 1], s, s');
      forall k | k in s'
        ensures exists i: nat :: i < n && jobs[i].Owns(s'[k]) && jobs[i].Wanted(k)
      {
        if Same(s, s', k) {
          var i: nat :| i < n - 1 && jobs[i].Owns(s[k]) && jobs[i].Wanted(k);
          assert jobs[i].Owns(s'[k]);
        } else {
          assert jobs[n - 1].Owns(s'[k]);
        }
      }
    }
  }

  lemma {:induction false} OrderConverges(jobs: seq<Job>, stores: seq<Entries>, n: nat)
    requires IsRun(jobs, stores) && n <= |jobs| && InOrder(jobs, n)
    ensures AllConverged(jobs, n, stores[n])
  {
    if n == 0 {
    } else {
      OrderConverges(jobs, stores, n - 1);
      RunIsAccounted(jobs, stores, n - 1);
      assert jobs[n - 1].Ran(stores[n - 1], stores[n - 1 + 1]);
      NextIsFavourable(jobs, stores[n - 1], n - 1);
      ConvergenceIsExact(jobs[n - 1], stores[n - 1], stores[n]);
      forall i | 0 <= i < n - 1
        ensures jobs[i].Converged(stores[n])
      {
        StaysConverged(jobs[i], jobs[n - 1], stores[n - 1], stores[n]);
      }
    }
  }

  lemma NextIsFavourable(jobs: seq<Job>, s: Entries, n: nat)
    requires n < |jobs| && InOrder(jobs, n + 1) && Accounted(jobs, n, s)
    requires forall i | 0 <= i < n :: jobs[i].Owner() != jobs[n].Owner()
    ensures jobs[n].Favourable(s)
  {
    forall k | k in s
      ensures !jobs[n].Wanted(k) && jobs[n].Spared(k)
    {
      var i: nat :| i < n && jobs[i].Owns(s[k]) && jobs[i].Wanted(k);
      assert LeavesAlone(jobs[n], jobs[i]);
    }
    assert CanStart(jobs[n]);
  }

  lemma StaysConverged(a: Job, b: Job, s: Entries, s': Entries)
    requires a.Owner() != b.Owner() && a.Converged(s) && b.Outcome(s, s')
    ensures a.Converged(s')
  {
    forall k | (k in s && a.Owns(s[k])) || (k in s' && a.Owns(s'[k]))
      ensures Same(s, s', k)
    {
    }
  }

  lemma {:induction false} ConvergedInOrder(jobs: seq<Job>, stores: seq<Entries>, n: nat)
    requires IsRun(jobs, stores) && n <= |jobs| && AllConverged(jobs, n, stores[n])
    ensures InOrder(jobs, n)
  {
    if n == 0 {
    } else {
      var last, s, s' := jobs[n - 1], stores[n - 1], stores[n];
      assert last.Ran(stores[n - 1], stores[n - 1 + 1]);
      RunIsAccounted(jobs, stores, n - 1);
      forall i | 0 <= i < n - 1
        ensures jobs[i].Converged(s) && LeavesAlone(last, jobs[i])
      {
        WasConverged(jobs, s, s', i, n - 1);
      }
      ConvergedInOrder(jobs, stores, n - 1);
      LastCouldStart(jobs, s, s', n - 1);
    }
  }

  /** What the last reconcile left converged was so before, and was left alone. */
  lemma WasConverged(jobs: seq<Job>, s: Entries, s': Entries, i: nat, n: nat)
    requires i < n < |jobs| && Accounted(jobs, n, s) && jobs[n].Ran(s, s')
    requires forall i, j | 0 <= i < j < |jobs| :: jobs[i].Owner() != jobs[j].Owner()
    requires jobs[i].Converged(s') && jobs[n].Converged(s')
    ensures jobs[i].Converged(s) && LeavesAlone(jobs[n], jobs[i])
  {
    NewIsWanted(jobs[n], s, s');
    forall k | jobs[i].Wanted(k)
      ensures k in s && jobs[i].Owns(s[k]) && s[k].generation == jobs[i].Generation(k)
      ensures !jobs[n].Wanted(k) && jobs[n].Spared(k)
    {
      assert Same(s, s', k);
      if !jobs[n].Spared(k) && !jobs[n].Wanted(k) {
        UnsparedIsStopped(jobs[n], s, s', k);
        assert false;
      }
    }
    forall k | k in s && jobs[i].Owns(s[k])
      ensures jobs[i].Wanted(k)
    {
      var j: nat :| j < n && jobs[j].Owns(s[k]) && jobs[j].Wanted(k);
      assert i == j;
    }
  }

  lemma LastCouldStart(jobs: seq<Job>, s: Entries, s': Entries, n: nat)
    requires n < |jobs| && Accounted(jobs, n, s) && jobs[n].Ran(s, s') && jobs[n].Converged(s')
    requires forall i | 0 <= i < n :: LeavesAlone(jobs[n], jobs[i])
    ensures CanStart(jobs[n])
  {
    var job := jobs[n];
    forall k | k in s
      ensures !job.Wanted(k)
    {
      var i: nat :| i < n && jobs[i].Owns(s[k]) && jobs[i].Wanted(k);
      assert LeavesAlone(job, jobs[i]);
    }
    forall k | job.Wanted(k)
      ensures job.Attainable(k, Empty)
    {
      assert SlotIn(s, s', k) == job.After(k, FirstSlot(s, k));
      AttainabilityIsExact(job, k, Empty);
    }
  }

  /** Each export can start its workers and leaves all others alone. */
  ghost predicate Neighbours(jobs: seq<Job>) {
    && (forall job | job in jobs :: CanStart(job))
    && (forall a, b | a in jobs && b in jobs && a.Owner() != b.Owner() :: LeavesAlone(a, b))
  }

  /** Then any selection of them, in any order, converges; and they are neighbours if one order and its reverse are
      fine. */
  lemma NeighboursInAnyOrder(jobs: seq<Job>, order: seq<Job>)
    requires Neighbours(jobs) && forall job | job in order :: job in jobs
    requires forall i, j | 0 <= i < j < |order| :: order[i].Owner() != order[j].Owner()
    ensures InOrder(order, |order|)
  {
    forall i, j | 0 <= i < j < |order|
      ensures LeavesAlone(order[j], order[i])
    {
      assert order[i] in order && order[j] in order;
    }
  }

  lemma BothWaysMeansNeighbours(jobs: seq<Job>, reversed: seq<Job>)
    requires |reversed| == |jobs| && forall i | 0 <= i < |jobs| :: reversed[|jobs| - 1 - i] == jobs[i]
    requires InOrder(jobs, |jobs|) && InOrder(reversed, |jobs|)
    ensures Neighbours(jobs)
  {
    forall a, b | a in jobs && b in jobs && a.Owner() != b.Owner()
      ensures LeavesAlone(a, b)
    {
      var i :| 0 <= i < |jobs| && jobs[i] == a;
      var j :| 0 <= j < |jobs| && jobs[j] == b;
      EitherWay(jobs, reversed, i, j);
    }
  }

  lemma EitherWay(jobs: seq<Job>, reversed: seq<Job>, i: nat, j: nat)
    requires |reversed| == |jobs| && i < |jobs| && j < |jobs| && i != j
    requires reversed[|jobs| - 1 - i] == jobs[i] && reversed[|jobs| - 1 - j] == jobs[j]
    requires InOrder(jobs, |jobs|) && InOrder(reversed, |jobs|)
    ensures LeavesAlone(jobs[i], jobs[j])
  {
    if i < j {
      assert LeavesAlone(reversed[|jobs| - 1 - i], reversed[|jobs| - 1 - j]);
    }
  }
}
