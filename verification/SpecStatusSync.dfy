/** pkg/konnector/controllers/cluster/serviceexport/{spec,status}: the spec of a consumer object flows up to the
    provider, its status flows down, and a finalizer holds the consumer object while a live provider copy exists. */
module SpecStatusSync {
  import opened Kube
  import opened ClusterScoped

  const DOWNSTREAM_FINALIZER := "kubebind.io/syncer"

  /** Where the provider copy lives; an empty upstreamNs stands for a cluster-scoped object. */
  datatype Route = Route(providerNs: string, providerNsUid: nat, upstreamNs: string) {
    /** getProviderObject: the provider copy as the consumer would name it; None is a failed translation. */
    function View(up: Object): Option<Object> {
      if upstreamNs != "" then Some(up) else ToDownstream(up)
    }

    /** The object that createProviderObject sends. */
    function ForCreate(o: Object): Option<Object> {
      if upstreamNs != "" then InjectClusterNs(o, providerNs, providerNsUid)
      else ToUpstream(o, providerNs, providerNsUid)
    }

    /** The object that updateProviderObject sends. */
    function ForApply(o: Object): Option<Object> {
      if upstreamNs != "" then Some(o) else ToUpstream(o, providerNs, providerNsUid)
    }

    /** getConsumerObject of the status controller: the consumer copy as the provider would name it. */
    function ConsumerView(down: Object): Option<Object> {
      if upstreamNs != "" then Some(down) else ToUpstream(down, providerNs, providerNsUid)
    }

    /** updateConsumerObjectStatus: back to the consumer's naming. */
    function ForStatusUpdate(o: Object): Option<Object> {
      if upstreamNs != "" then Some(o) else ToDownstream(o)
    }
  }

  /** The two copies of one object. */
  datatype World = World(down: Option<Object>, up: Option<Object>, clock: nat)

  /** Where the one worker of the spec controller stands between two API calls, and what it holds in hand. */
  datatype Pc =
    | Idle
    | Loaded(obj: Object)
    | Adding(obj: Object)
    | Creating(obj: Object)
    | AddingLate(obj: Object, upstream: Object)
    | Deleting(obj: Object)
    | Releasing(obj: Object)
    | Applying(upstream: Object)

  datatype State = State(w: World, pc: Pc)

  predicate HasFinalizer(o: Object) {
    DOWNSTREAM_FINALIZER in o.finalizers
  }

  function Remove(fs: seq<string>, f: string): (r: seq<string>)
    ensures f !in r
    ensures forall g | g in r :: g in fs
    ensures f !in fs ==> r == fs
  {
    if fs == [] then [] else (if fs[0] == f then [] else [fs[0]]) + Remove(fs[1..], f)
  }

  lemma {:induction false} RemoveFromAppended(fs: seq<string>, g: string, f: string)
    ensures Remove(fs + [g], f) == Remove(fs, f) + if g == f then [] else [g]
  {
    if fs == [] {
      assert fs + [g] == [g];
    } else {
      assert (fs + [g])[1..] == fs[1..] + [g];
      RemoveFromAppended(fs[1..], g, f);
    }
  }

  function WithFinalizer(o: Object): Object {
    if HasFinalizer(o) then o else o.(finalizers := o.finalizers + [DOWNSTREAM_FINALIZER])
  }

  /** The finalizer is there afterwards, with all that were there before, and nothing else has changed. */
  ghost predicate JustHeld(before: Object, after: Object) {
    && (forall f :: f in after.finalizers <==> f in before.finalizers || f == DOWNSTREAM_FINALIZER)
    && after == before.(finalizers := after.finalizers, resourceVersion := after.resourceVersion)
  }

  function WithoutFinalizer(o: Object): Object {
    o.(finalizers := Remove(o.finalizers, DOWNSTREAM_FINALIZER))
  }

  /** An absent field and an explicit null are both read as nil. */
  function NilView(f: Option<Json>): Json {
    if f.None? then Null else f.value
  }

  /** The new provider copy made from a consumer object. */
  function CleanedUp(r: Route, o: Object): Object {
    WithField(
      o.(uid := 0, resourceVersion := 0, namespace := r.upstreamNs, managedFields := [], deleting := false,
         ownerReferences := [], finalizers := []),
      "status", None)
  }

  function Release(obj: Object): Pc {
    if HasFinalizer(obj) then Releasing(obj) else Idle
  }

  function Compare(obj: Object, upstream: Object): Pc {
    if NilView(Field(obj, "spec")) == NilView(Field(upstream, "spec")) then Idle
    else Applying(WithField(upstream, "spec", Field(obj, "spec")).(managedFields := []))
  }

  /** What follows once a provider copy is known to exist. */
  function Decide(obj: Object, upstream: Object): Pc {
    if obj.deleting then (if upstream.deleting then Idle else Deleting(obj))
    else if !HasFinalizer(obj) then AddingLate(obj, upstream)
    else Compare(obj, upstream)
  }

  function PutDown(s: State, w: Written, pc: Pc): State {
    State(s.w.(down := w.cell, clock := w.clock), pc)
  }

  function PutUp(s: State, w: Written, pc: Pc): State {
    State(s.w.(up := w.cell, clock := w.clock), pc)
  }

  /** One step of the spec worker: a read, or one API call together with the decisions taken on its answer. */
  function WorkerStep(r: Route, s: State): State {
    match s.pc
    case Idle => if s.w.down.Some? then s.(pc := Loaded(s.w.down.value)) else s
    case Loaded(obj) => s.(pc := AfterRead(r, obj, s.w.up))
    case Adding(obj) =>
      var w := Update(s.w.down, s.w.clock, WithFinalizer(obj));
      PutDown(s, w, if w.answer == Accepted && w.cell.Some? then Creating(w.cell.value) else Idle)
    case Creating(obj) =>
      var o := CleanedUp(r, obj);
      var sent := r.ForCreate(o);
      if sent.None? then s.(pc := Idle)
      else PutUp(s, Create(s.w.up, s.w.clock, sent.value), Decide(obj, if r.upstreamNs != "" then o else sent.value))
    case AddingLate(obj, upstream) =>
      var w := Update(s.w.down, s.w.clock, WithFinalizer(obj));
      PutDown(s, w, if w.answer == Accepted && w.cell.Some? then Compare(w.cell.value, upstream) else Idle)
    case Deleting(obj) => PutUp(s, Delete(s.w.up, s.w.clock), Release(obj))
    case Releasing(obj) => PutDown(s, Update(s.w.down, s.w.clock, WithoutFinalizer(obj)), Idle)
    case Applying(upstream) =>
      var sent := r.ForApply(upstream);
      if sent.None? then s.(pc := Idle) else PutUp(s, Apply(s.w.up, s.w.clock, sent.value), Idle)
  }

  function AfterRead(r: Route, obj: Object, up: Option<Object>): Pc {
    match up
    case None =>
      if obj.deleting then Release(obj) else if HasFinalizer(obj) then Creating(obj) else Adding(obj)
    case Some(u) => if r.View(u).None? then Idle else Decide(obj, r.View(u).value)
  }

  /** What everybody else may do between two steps of the worker. Nobody but the konnector removes its finalizer, and
      nobody but the spec worker creates the provider copy. */
  datatype Outside =
    | UserCreates(o: Object)
    | UserUpdates(o: Object)
    | UserDeletes
    | ProviderUpdates(o: Object)
    | ProviderDeletes
    | StatusWritten(o: Object)
    | StatusDeletes

  predicate Allowed(w: World, e: Outside) {
    e.UserUpdates? && w.down.Some? && HasFinalizer(w.down.value) ==> HasFinalizer(e.o)
  }

  function OutsideStep(s: State, e: Outside): State {
    match e
    case UserCreates(o) => PutDown(s, Create(s.w.down, s.w.clock, o), s.pc)
    case UserUpdates(o) => PutDown(s, Update(s.w.down, s.w.clock, o), s.pc)
    case UserDeletes => PutDown(s, Delete(s.w.down, s.w.clock), s.pc)
    case ProviderUpdates(o) => PutUp(s, Update(s.w.up, s.w.clock, o), s.pc)
    case ProviderDeletes => PutUp(s, Delete(s.w.up, s.w.clock), s.pc)
    case StatusWritten(o) => PutDown(s, UpdateStatus(s.w.down, s.w.clock, o), s.pc)
    case StatusDeletes => PutUp(s, Delete(s.w.up, s.w.clock), s.pc)
  }

  datatype Action = Worker | Other(e: Outside)

  predicate Next(r: Route, s: State, a: Action, s': State) {
    match a
    case Worker => s' == WorkerStep(r, s)
    case Other(e) => Allowed(s.w, e) && s' == OutsideStep(s, e)
  }

  ghost predicate IsRun(r: Route, states: seq<State>, actions: seq<Action>) {
    && |states| == |actions| + 1
    && forall i | 0 <= i < |actions| :: Next(r, states[i], actions[i], states[i + 1])
  }

  predicate Live(o: Option<Object>) {
    o.Some? && !o.value.deleting
  }

  predicate Held(w: World) {
    w.down.Some? && HasFinalizer(w.down.value)
  }

  /** A live provider copy always has an existing consumer object that carries the finalizer. */
  predicate Safe(w: World) {
    Live(w.up) ==> Held(w)
  }

  /** What each point of the worker relies on. */
  predicate Justified(s: State) {
    match s.pc
    case Idle => true
    case Loaded(obj) => HasFinalizer(obj) ==> Held(s.w)
    case Adding(obj) => true
    case Creating(obj) => Held(s.w)
    case AddingLate(obj, _) => true
    case Deleting(obj) => true
    case Releasing(obj) => !Live(s.w.up)
    case Applying(_) => Held(s.w)
  }

  predicate Invariant(s: State) {
    Safe(s.w) && Justified(s)
  }

  lemma WorkerKeepsInvariant(r: Route, s: State)
    requires Invariant(s)
    ensures Invariant(WorkerStep(r, s))
  {
    match s.pc
    case Creating(obj) => CreatingKeepsInvariant(r, s);
    case Applying(_) => ApplyingKeepsInvariant(r, s);
    case Loaded(_) => ReadingKeepsInvariant(r, s);
    case _ =>
  }

  lemma ReadingKeepsInvariant(r: Route, s: State)
    requires Invariant(s) && s.pc.Loaded?
    ensures Invariant(WorkerStep(r, s))
  {
  }

  lemma CreatingKeepsInvariant(r: Route, s: State)
    requires Invariant(s) && s.pc.Creating?
    ensures Invariant(WorkerStep(r, s))
  {
  }

  lemma ApplyingKeepsInvariant(r: Route, s: State)
    requires Invariant(s) && s.pc.Applying?
    ensures Invariant(WorkerStep(r, s))
  {
  }

  lemma OutsideKeepsInvariant(s: State, e: Outside)
    requires Invariant(s) && Allowed(s.w, e)
    ensures Invariant(OutsideStep(s, e))
  {
  }

  /** Finalizer safety over whole runs: however the users, the provider, the garbage collection and the status
      controller interleave with the single calls of the spec worker, every state on the way is safe. */
  lemma {:induction false} FinalizerSafety(r: Route, states: seq<State>, actions: seq<Action>)
    requires IsRun(r, states, actions)
    requires states[0].pc == Idle && Safe(states[0].w)
    ensures forall i | 0 <= i < |states| :: Safe(states[i].w)
  {
    InvariantHolds(r, states, actions, |actions|);
  }

  lemma {:induction false} InvariantHolds(r: Route, states: seq<State>, actions: seq<Action>, n: nat)
    requires IsRun(r, states, actions) && n <= |actions|
    requires states[0].pc == Idle && Safe(states[0].w)
    ensures forall i | 0 <= i <= n :: Invariant(states[i])
  {
    if n == 0 {
    } else {
      InvariantHolds(r, states, actions, n - 1);
      assert Next(r, states[n - 1], actions[n - 1], states[n - 1 + 1]);
      match actions[n - 1]
      case Worker => WorkerKeepsInvariant(r, states[n - 1]);
      case Other(e) => OutsideKeepsInvariant(states[n - 1], e);
    }
  }

  /** The safety rests on a current read of the provider copy: a worker that is told "not found" while the copy is
      live lets go of a terminating consumer object that it alone was holding. */
  lemma StaleReadIsUnsafe(r: Route, w: World)
    requires Safe(w) && Live(w.up)
    requires w.down.value.deleting && w.down.value.finalizers == [DOWNSTREAM_FINALIZER]
    ensures !Safe(WorkerStep(r, State(w, AfterRead(r, w.down.value, None))).w)
  {
  }

  function Rank(pc: Pc): nat {
    match pc
    case Idle => 0
    case Loaded(_) => 6
    case Adding(_) => 5
    case Creating(_) => 4
    case AddingLate(_, _) => 3
    case Deleting(_) => 3
    case Releasing(_) => 2
    case Applying(_) => 2
  }

  /** What the worker does when others were faster. A finalizer that cannot be put on ends the reconcile. A provider
      copy that is there already is not written; the reconcile ends, or goes on to delete the copy if the object is
      terminating by then. A provider copy that is gone already is as good as deleted. */
  lemma RacesAreHandled(r: Route, s: State)
    ensures (s.pc.Adding? || s.pc.AddingLate?) &&
            Update(s.w.down, s.w.clock, WithFinalizer(s.pc.obj)).answer != Accepted ==>
              WorkerStep(r, s) == State(s.w, Idle)
    ensures s.pc.Creating? && s.w.up.Some? && r.ForCreate(CleanedUp(r, s.pc.obj)).Some? && HasFinalizer(s.pc.obj) ==>
              WorkerStep(r, s) == State(s.w, if s.pc.obj.deleting then Deleting(s.pc.obj) else Idle)
    ensures s.pc.Deleting? && s.w.up.None? ==>
              WorkerStep(r, s) == State(s.w, if HasFinalizer(s.pc.obj) then Releasing(s.pc.obj) else Idle)
    ensures s.pc.Releasing? && Update(s.w.down, s.w.clock, WithoutFinalizer(s.pc.obj)).answer != Accepted ==>
              WorkerStep(r, s) == State(s.w, Idle)
  {
    if s.pc.Creating? && r.ForCreate(CleanedUp(r, s.pc.obj)).Some? {
      var o := CleanedUp(r, s.pc.obj);
      assert Field(o, "spec") == Field(s.pc.obj, "spec") == Field(r.ForCreate(o).value, "spec");
    }
  }

  /** The worker runs to the end of its reconcile with nobody else interfering. */
  function Finish(r: Route, s: State): World
    decreases Rank(s.pc)
  {
    if s.pc == Idle then s.w else Finish(r, WorkerStep(r, s))
  }

  /** One uninterrupted reconcile of the spec controller. */
  function SpecSync(r: Route, w: World): World {
    if w.down.None? then w else Finish(r, State(w, Loaded(w.down.value)))
  }

  /** One uninterrupted reconcile of the status controller, for an existing provider copy. */
  function StatusSync(r: Route, w: World): World {
    if w.up.None? then w
    else if w.down.None? then
      var d := Delete(w.up, w.clock);
      w.(up := d.cell, clock := d.clock)
    else
      var view := r.ConsumerView(w.down.value);
      if view.None? then w
      else
        var changed := WithField(view.value, "status", Field(w.up.value, "status"));
        if changed == view.value then w
        else
          var sent := r.ForStatusUpdate(changed);
          if sent.None? then w
          else
            var d := UpdateStatus(w.down, w.clock, sent.value);
            w.(down := d.cell, clock := d.clock)
  }

  predicate WellformedWorld(w: World) {
    Wellformed(w.down, w.clock) && Wellformed(w.up, w.clock)
  }

  /** The copies belong together: a cluster-scoped provider copy was injected for this consumer, and the consumer's
      object is not marked for another one. */
  ghost predicate Routed(r: Route, w: World) {
    r.upstreamNs == "" ==>
      && (w.up.Some? ==>
            && CLUSTER_NS_ANNOTATION_KEY in w.up.value.annotations
            && w.up.value.annotations[CLUSTER_NS_ANNOTATION_KEY] == r.providerNs
            && Prefixed(w.up.value.name, r.providerNs)
            && HoldsJustTheInjected(w.up.value.ownerReferences, r.providerNs, r.providerNsUid))
      && (w.down.Some? ==> ToUpstream(w.down.value, r.providerNs, r.providerNsUid).Some?)
  }

  /** A spec that is absent or null counts as no spec. */
  predicate SpecsAgree(w: World)
    requires w.down.Some? && w.up.Some?
  {
    NilView(Field(w.down.value, "spec")) == NilView(Field(w.up.value, "spec"))
  }

  predicate StatusesAgree(w: World)
    requires w.down.Some? && w.up.Some?
  {
    Field(w.down.value, "status") == Field(w.up.value, "status")
  }

  /** Only the given field and the revision differ. */
  ghost predicate OnlyFieldChanged(field: string, a: Object, b: Object) {
    SameUpToReferenceOrder(
      b, WithField(a, field, Field(b, field)).(resourceVersion := b.resourceVersion))
  }

  lemma TranslationKeepsFields(r: Route, up: Object, field: string, v: Option<Json>)
    requires r.upstreamNs == ""
    requires CLUSTER_NS_ANNOTATION_KEY in up.annotations && up.annotations[CLUSTER_NS_ANNOTATION_KEY] == r.providerNs
    requires Prefixed(up.name, r.providerNs)
    requires HoldsJustTheInjected(up.ownerReferences, r.providerNs, r.providerNsUid)
    ensures r.View(up).Some? && r.View(up).value.fields == up.fields && r.View(up).value.deleting == up.deleting
    ensures var sent := r.ForApply(WithField(r.View(up).value, field, v).(managedFields := []));
            sent.Some? && SameUpToReferenceOrder(sent.value, WithField(up, field, v).(managedFields := []))
  {
    UpDownUp(up, r.providerNs, r.providerNsUid);
    var d := r.View(up).value;
    var changed := WithField(d, field, v).(managedFields := []);
    var back := ToUpstream(d, r.providerNs, r.providerNsUid).value;
    assert ToUpstream(changed, r.providerNs, r.providerNsUid) == Some(WithField(back, field, v).(managedFields := []));
  }

  /** The finalizer is on the consumer object and there is nothing to carry over. */
  predicate SpecSettled(r: Route, w: World) {
    && Live(w.down) && HasFinalizer(w.down.value)
    && w.up.Some? && r.View(w.up.value).Some?
    && SpecsAgree(w)
  }

  lemma SpecSettledIsStable(r: Route, w: World)
    requires SpecSettled(r, w)
    ensures SpecSync(r, w) == w
  {
    var s := State(w, Loaded(w.down.value));
    assert Field(r.View(w.up.value).value, "spec") == Field(w.up.value, "spec");
    assert WorkerStep(r, s) == State(w, Idle);
    assert Finish(r, s) == Finish(r, State(w, Idle));
  }

  /** The spec controller, on a live consumer object with a provider copy: specs agree afterwards, the consumer object
      gains the finalizer and nothing else, and the provider copy changes in its spec only. */
  lemma SpecSyncCarriesSpec(r: Route, w: World)
    requires WellformedWorld(w) && Routed(r, w) && Live(w.down) && w.up.Some?
    ensures var w' := SpecSync(r, w);
            && WellformedWorld(w') && SpecSettled(r, w')
            && JustHeld(w.down.value, w'.down.value)
            && OnlyFieldChanged("spec", w.up.value, w'.up.value)
            && (SpecsAgree(w) ==> w'.up == w.up)
            && (!SpecsAgree(w) ==> Field(w'.up.value, "spec") == Field(w.down.value, "spec"))
  {
    RoutedHasView(r, w);
    var v := r.View(w.up.value).value;
    var s := ReachesCompare(r, w, v);
    RoutedStillHeld(r, w, s.w);
    if s.pc.Applying? {
      SpecApplied(r, s, v);
    } else {
      NothingApplied(r, s);
    }
  }

  lemma RoutedHasView(r: Route, w: World)
    requires Routed(r, w) && w.up.Some?
    ensures r.View(w.up.value).Some?
  {
  }

  lemma RoutedStillHeld(r: Route, w: World, w': World)
    requires Routed(r, w) && w'.up == w.up && w.down.Some? && w'.down.Some? && JustHeld(w.down.value, w'.down.value)
    ensures Routed(r, w')
  {
  }

  lemma NothingApplied(r: Route, s: State)
    requires s.pc == Idle && s.w.up.Some?
    ensures Finish(r, s) == s.w && OnlyFieldChanged("spec", s.w.up.value, s.w.up.value)
  {
    assert WithField(s.w.up.value, "spec", Field(s.w.up.value, "spec")) == s.w.up.value;
  }

  /** With both copies there, the worker comes to compare the specs, the finalizer being in place. */
  lemma ReachesCompare(r: Route, w: World, v: Object) returns (s: State)
    requires WellformedWorld(w) && Live(w.down) && w.up.Some? && r.View(w.up.value) == Some(v)
    ensures SpecSync(r, w) == Finish(r, s) && WellformedWorld(s.w) && s.w.up == w.up
    ensures Live(s.w.down) && HasFinalizer(s.w.down.value) && s.pc == Compare(s.w.down.value, v)
    ensures JustHeld(w.down.value, s.w.down.value) && (s.pc.Applying? <==> !SpecsAgree(w))
    ensures s.pc in {Idle, Applying(WithField(v, "spec", Field(w.down.value, "spec")).(managedFields := []))}
  {
    var s0 := State(w, Loaded(w.down.value));
    s := WorkerStep(r, s0);
    assert Finish(r, s0) == Finish(r, s);
    if s.pc.AddingLate? {
      var s' := WorkerStep(r, s);
      assert Finish(r, s) == Finish(r, s');
      s := s';
    }
  }

  lemma SpecApplied(r: Route, s: State, v: Object)
    requires WellformedWorld(s.w) && Routed(r, s.w) && Live(s.w.down) && HasFinalizer(s.w.down.value)
    requires s.w.up.Some? && r.View(s.w.up.value) == Some(v)
    requires s.pc.Applying? && s.pc == Compare(s.w.down.value, v)
    ensures var w' := Finish(r, s);
            && w'.down == s.w.down
            && WellformedWorld(w') && SpecSettled(r, w')
            && OnlyFieldChanged("spec", s.w.up.value, w'.up.value)
            && Field(w'.up.value, "spec") == Field(w'.down.value, "spec")
  {
    var u := s.w.up.value;
    var spec := Field(s.w.down.value, "spec");
    SentWithSpec(r, s.w, v, spec);
    var sent := r.ForApply(s.pc.upstream).value;
    var u' := sent.(resourceVersion := s.w.clock + 1, managedFields := u.managedFields);
    assert Apply(s.w.up, s.w.clock, sent) == Written(Some(u'), s.w.clock + 1, Accepted);
    var s' := WorkerStep(r, s);
    assert s' == State(s.w.(up := Some(u'), clock := s.w.clock + 1), Idle);
    assert Finish(r, s) == s'.w;
    assert Field(u', "spec") == spec;
  }

  lemma SentWithSpec(r: Route, w: World, v: Object, spec: Option<Json>)
    requires WellformedWorld(w) && Routed(r, w) && w.up.Some? && r.View(w.up.value) == Some(v)
    ensures var sent := r.ForApply(WithField(v, "spec", spec).(managedFields := []));
            && sent.Some?
            && SameUpToReferenceOrder(sent.value, WithField(w.up.value, "spec", spec).(managedFields := []))
  {
    if r.upstreamNs == "" {
      TranslationKeepsFields(r, w.up.value, "spec", spec);
    }
  }

  /** The status controller, with both copies there: statuses agree afterwards, absent exactly when absent upstream,
      and nothing but the consumer's status changes; agreeing statuses are left alone. */
  lemma StatusSyncCarriesStatus(r: Route, w: World)
    requires WellformedWorld(w) && w.down.Some? && w.up.Some? && r.ConsumerView(w.down.value).Some?
    ensures var w' := StatusSync(r, w);
            && WellformedWorld(w') && w'.up == w.up
            && w'.down.Some? && OnlyFieldChanged("status", w.down.value, w'.down.value)
            && r.ConsumerView(w'.down.value).Some?
            && StatusesAgree(w')
            && (StatusesAgree(w) ==> w' == w)
  {
    var d, status := w.down.value, Field(w.up.value, "status");
    StatusTranslation(r, d, status);
    StatusSyncExplicit(r, w);
    assert WithField(d, "status", Field(d, "status")) == d;
    if !StatusesAgree(w) {
      var d' := WithField(d, "status", status).(resourceVersion := w.clock + 1);
      assert WithField(d, "status", Field(d', "status")) == WithField(d, "status", status);
      StatusTranslation(r, d', status);
    }
  }

  /** The status controller writes the provider's status into the consumer object, unless it is there already. */
  lemma StatusSyncExplicit(r: Route, w: World)
    requires WellformedWorld(w) && w.down.Some? && w.up.Some? && r.ConsumerView(w.down.value).Some?
    ensures var status := Field(w.up.value, "status");
            StatusSync(r, w) ==
              if StatusesAgree(w) then w
              else w.(down := Some(WithField(w.down.value, "status", status).(resourceVersion := w.clock + 1)),
                      clock := w.clock + 1)
  {
    var d, status := w.down.value, Field(w.up.value, "status");
    StatusTranslation(r, d, status);
    var view := r.ConsumerView(d).value;
    UnchangedStatus(view, status);
    assert Field(view, "status") == Field(d, "status");
    if !StatusesAgree(w) {
      var sent := r.ForStatusUpdate(WithField(view, "status", status)).value;
      assert UpdateStatus(w.down, w.clock, sent) ==
             Written(Some(WithField(d, "status", status).(resourceVersion := w.clock + 1)), w.clock + 1, Accepted);
    }
  }

  lemma UnchangedStatus(o: Object, status: Option<Json>)
    ensures WithField(o, "status", status) == o <==> Field(o, "status") == status
  {
    assert Field(WithField(o, "status", status), "status") == status;
    assert WithField(o, "status", Field(o, "status")) == o;
  }

  lemma StatusTranslation(r: Route, d: Object, status: Option<Json>)
    requires r.upstreamNs != "" || CLUSTER_NS_ANNOTATION_KEY !in d.annotations
             || d.annotations[CLUSTER_NS_ANNOTATION_KEY] == r.providerNs
    ensures r.ConsumerView(d).Some?
    ensures var view := r.ConsumerView(d).value;
            && view.fields == d.fields
            && var sent := r.ForStatusUpdate(WithField(view, "status", status));
               sent.Some? && Field(sent.value, "status") == status
               && sent.value.uid == d.uid && sent.value.resourceVersion == d.resourceVersion
  {
  }

  /** Spec and status sync do not fight. For a live consumer object with a provider copy, one reconcile of each
      controller, in either order, makes specs and statuses agree, and from then on neither writes anything. */
  lemma NoFight(r: Route, w: World)
    requires WellformedWorld(w) && Routed(r, w) && Live(w.down) && w.up.Some?
    ensures var w' := StatusSync(r, SpecSync(r, w));
            && w'.down.Some? && w'.up.Some? && SpecsAgree(w') && StatusesAgree(w')
            && SpecSync(r, w') == w' && StatusSync(r, w') == w'
    ensures var w' := SpecSync(r, StatusSync(r, w));
            && w'.down.Some? && w'.up.Some? && SpecsAgree(w') && StatusesAgree(w')
            && SpecSync(r, w') == w' && StatusSync(r, w') == w'
  {
    SpecThenStatus(r, w);
    StatusThenSpec(r, w);
  }

  lemma SpecThenStatus(r: Route, w: World)
    requires WellformedWorld(w) && Routed(r, w) && Live(w.down) && w.up.Some?
    ensures var w' := StatusSync(r, SpecSync(r, w));
            && w'.down.Some? && w'.up.Some? && SpecsAgree(w') && StatusesAgree(w')
            && SpecSync(r, w') == w' && StatusSync(r, w') == w'
  {
    SpecSyncCarriesSpec(r, w);
    var a := SpecSync(r, w);
    ConsumerViewIgnoresFinalizers(r, w.down.value, a.down.value);
    StatusSyncCarriesStatus(r, a);
    var a' := StatusSync(r, a);
    SettledAfterStatus(r, a, a');
    SpecSettledIsStable(r, a');
    StatusSyncCarriesStatus(r, a');
  }

  lemma StatusThenSpec(r: Route, w: World)
    requires WellformedWorld(w) && Routed(r, w) && Live(w.down) && w.up.Some?
    ensures var w' := SpecSync(r, StatusSync(r, w));
            && w'.down.Some? && w'.up.Some? && SpecsAgree(w') && StatusesAgree(w')
            && SpecSync(r, w') == w' && StatusSync(r, w') == w'
  {
    StatusSyncCarriesStatus(r, w);
    var b := StatusSync(r, w);
    SpecSyncCarriesSpec(r, b);
    var b' := SpecSync(r, b);
    SpecSettledIsStable(r, b');
    ConsumerViewIgnoresFinalizers(r, b.down.value, b'.down.value);
    assert Field(b'.up.value, "status") == Field(b.up.value, "status");
    StatusSyncCarriesStatus(r, b');
  }

  lemma ConsumerViewIgnoresFinalizers(r: Route, d: Object, d': Object)
    requires JustHeld(d, d')
    ensures r.ConsumerView(d).Some? == r.ConsumerView(d').Some?
  {
  }

  lemma SettledAfterStatus(r: Route, w: World, w': World)
    requires SpecSettled(r, w) && w'.up == w.up && w'.down.Some?
    requires OnlyFieldChanged("status", w.down.value, w'.down.value)
    ensures SpecSettled(r, w')
  {
  }

  /** A live consumer object without a provider copy gets one: with the consumer's spec, without a status, held by the
      finalizer, and settled at once. */
  lemma SpecSyncCreates(r: Route, w: World)
    requires WellformedWorld(w) && Live(w.down) && w.up.None?
    requires CLUSTER_NS_ANNOTATION_KEY in w.down.value.annotations ==>
               w.down.value.annotations[CLUSTER_NS_ANNOTATION_KEY] == r.providerNs
    ensures var w' := SpecSync(r, w);
            && WellformedWorld(w') && Routed(r, w') && SpecSettled(r, w') && Live(w'.up)
            && JustHeld(w.down.value, w'.down.value)
            && w'.up.value.fields == w.down.value.fields - {"status"}
            && w'.up.value.labels == w.down.value.labels && w'.up.value.namespace == r.upstreamNs
            && w'.up.value.annotations == w.down.value.annotations[CLUSTER_NS_ANNOTATION_KEY := r.providerNs]
            && w'.up.value.ownerReferences ==
               [OwnerReference("v1", "Namespace", r.providerNs, r.providerNsUid, false, false)]
            && w'.up.value.finalizers == []
            && w'.up.value.name ==
               (if r.upstreamNs == "" then Prepend(w.down.value.name, r.providerNs) else w.down.value.name)
  {
    var s := ReachesCreate(r, w);
    var d := s.w.down.value;
    CreatedCopy(r, d);
    var sent := r.ForCreate(CleanedUp(r, d)).value;
    var s' := WorkerStep(r, s);
    assert s'.w == s.w.(up := Create(None, s.w.clock, sent).cell, clock := s.w.clock + 1);
    assert s'.pc == Idle;
    assert Finish(r, s) == s'.w;
  }

  /** Without a provider copy, the worker comes to create one, the finalizer being in place. */
  lemma ReachesCreate(r: Route, w: World) returns (s: State)
    requires WellformedWorld(w) && Live(w.down) && w.up.None?
    ensures SpecSync(r, w) == Finish(r, s) && WellformedWorld(s.w) && s.w.up == None
    ensures Live(s.w.down) && HasFinalizer(s.w.down.value) && s.pc == Creating(s.w.down.value)
    ensures JustHeld(w.down.value, s.w.down.value)
  {
    var s0 := State(w, Loaded(w.down.value));
    s := WorkerStep(r, s0);
    assert Finish(r, s0) == Finish(r, s);
    if s.pc.Adding? {
      var s' := WorkerStep(r, s);
      assert Finish(r, s) == Finish(r, s');
      s := s';
    }
  }

  /** The provider copy made from a consumer object is routed back to it and carries the same spec. */
  lemma CreatedCopy(r: Route, d: Object)
    requires CLUSTER_NS_ANNOTATION_KEY in d.annotations ==> d.annotations[CLUSTER_NS_ANNOTATION_KEY] == r.providerNs
    ensures var sent := r.ForCreate(CleanedUp(r, d));
            && sent.Some?
            && sent.value.fields == d.fields - {"status"} == CleanedUp(r, d).fields
            && Field(sent.value, "spec") == Field(d, "spec")
            && sent.value.name == (if r.upstreamNs == "" then Prepend(d.name, r.providerNs) else d.name)
            && sent.value.finalizers == [] && !sent.value.deleting
            && sent.value.labels == d.labels && sent.value.namespace == r.upstreamNs
            && sent.value.annotations == d.annotations[CLUSTER_NS_ANNOTATION_KEY := r.providerNs]
            && sent.value.ownerReferences == [InjectedReference(r.providerNs, r.providerNsUid)]
            && HoldsJustTheInjected(sent.value.ownerReferences, r.providerNs, r.providerNsUid)
            && (r.upstreamNs == "" ==> Prefixed(sent.value.name, r.providerNs))
  {
  }

  /** The konnector has let go of a terminating object: it is gone exactly if nobody else held it, and otherwise lacks
      just the konnector's finalizer. */
  ghost predicate LetGo(before: Object, after: Option<Object>) {
    && (after.None? <==> forall f | f in before.finalizers :: f == DOWNSTREAM_FINALIZER)
    && (after.Some? ==>
          && (forall f :: f in after.value.finalizers <==> f in before.finalizers && f != DOWNSTREAM_FINALIZER)
          && after.value ==
             before.(finalizers := after.value.finalizers, resourceVersion := after.value.resourceVersion))
  }

  /** A copy is deleted: it is gone exactly if nobody holds it, and otherwise terminating. */
  predicate Deleted(before: Object, after: Option<Object>) {
    && (after.None? <==> before.finalizers == [])
    && (after.Some? ==> after.value == before.(deleting := true, resourceVersion := after.value.resourceVersion))
  }

  /** A terminating consumer object takes a live provider copy with it, and is let go. While the provider copy is
      terminating, the object waits for it and nothing is written. Without a provider copy it is let go. */
  lemma SpecSyncDeletes(r: Route, w: World)
    requires WellformedWorld(w) && w.down.Some? && w.down.value.deleting
    ensures var w' := SpecSync(r, w);
            && WellformedWorld(w')
            && (Live(w.up) && r.View(w.up.value).Some? ==> Deleted(w.up.value, w'.up) && LetGo(w.down.value, w'.down))
            && (w.up.Some? && w.up.value.deleting ==> w' == w)
            && (w.up.None? ==> w'.up.None? && LetGo(w.down.value, w'.down))
  {
    var s0 := State(w, Loaded(w.down.value));
    assert Finish(r, s0) == Finish(r, WorkerStep(r, s0));
    if Live(w.up) && r.View(w.up.value).Some? {
      var s := ReachesRelease(r, w);
      Released(r, s, w.down.value);
    } else if w.up.None? {
      Released(r, WorkerStep(r, s0), w.down.value);
    }
  }

  lemma Released(r: Route, s: State, obj: Object)
    requires WellformedWorld(s.w) && s.w.down == Some(obj) && obj.deleting && s.pc == Release(obj)
    ensures var w' := Finish(r, s);
            WellformedWorld(w') && w'.up == s.w.up && LetGo(obj, w'.down)
  {
    RemoveKeepsOthers(obj.finalizers, DOWNSTREAM_FINALIZER);
    if s.pc.Releasing? {
      assert Finish(r, s) == WorkerStep(r, s).w;
    } else {
      assert obj.finalizers[0] in obj.finalizers;
    }
  }

  /** What cannot be translated is left alone: the spec controller writes nothing for a provider copy that names no
      consumer, and makes no copy of an object that is marked for another consumer, though it has put its finalizer
      on. */
  lemma SpecSyncRefuses(r: Route, w: World)
    requires WellformedWorld(w) && w.down.Some?
    ensures w.up.Some? && r.View(w.up.value).None? ==> SpecSync(r, w) == w
    ensures w.up.None? && Live(w.down) && r.ForCreate(CleanedUp(r, w.down.value)).None? ==>
              var w' := SpecSync(r, w);
              && w'.up.None? && Live(w'.down) && HasFinalizer(w'.down.value)
              && JustHeld(w.down.value, w'.down.value)
  {
    var s0 := State(w, Loaded(w.down.value));
    assert Finish(r, s0) == Finish(r, WorkerStep(r, s0));
    if w.up.None? && Live(w.down) && r.ForCreate(CleanedUp(r, w.down.value)).None? {
      var s := ReachesCreate(r, w);
      assert r.ForCreate(CleanedUp(r, s.w.down.value)).None?;
      assert Finish(r, s) == WorkerStep(r, s).w;
    }
  }

  /** What the translations refuse. */
  lemma RefusalsAreExact(r: Route, o: Object)
    ensures r.ForCreate(CleanedUp(r, o)).None? <==>
            CLUSTER_NS_ANNOTATION_KEY in o.annotations && o.annotations[CLUSTER_NS_ANNOTATION_KEY] != r.providerNs
    ensures r.View(o).None? <==> r.upstreamNs == "" && CLUSTER_NS_ANNOTATION_KEY !in o.annotations
    ensures r.ConsumerView(o).None? <==>
            && r.upstreamNs == "" && CLUSTER_NS_ANNOTATION_KEY in o.annotations
            && o.annotations[CLUSTER_NS_ANNOTATION_KEY] != r.providerNs
  {
  }

  /** The status controller takes the provider copy down if the consumer object is gone, and writes nothing if there
      is no provider copy or the consumer object is marked for another consumer. */
  lemma StatusSyncCleansUp(r: Route, w: World)
    requires WellformedWorld(w)
    ensures var w' := StatusSync(r, w);
            && (w.down.None? && w.up.Some? ==> w'.down.None? && Deleted(w.up.value, w'.up))
            && (w.up.None? ==> w' == w)
            && (w.down.Some? && r.ConsumerView(w.down.value).None? ==> w' == w)
  {
  }

  /** A terminating consumer object first takes the provider copy down; then the worker comes to let go of it. */
  lemma ReachesRelease(r: Route, w: World) returns (s: State)
    requires WellformedWorld(w) && w.down.Some? && w.down.value.deleting
    requires Live(w.up) && r.View(w.up.value).Some?
    ensures SpecSync(r, w) == Finish(r, s) && WellformedWorld(s.w)
    ensures s.w.down == w.down && Deleted(w.up.value, s.w.up) && s.pc == Release(w.down.value)
  {
    var s0 := State(w, Loaded(w.down.value));
    var s1 := WorkerStep(r, s0);
    assert s1 == State(w, Deleting(w.down.value));
    s := WorkerStep(r, s1);
    assert Finish(r, s0) == Finish(r, s1) == Finish(r, s);
  }

  lemma {:induction false} RemoveKeepsOthers(fs: seq<string>, f: string)
    ensures forall g :: g in Remove(fs, f) <==> g in fs && g != f
    ensures Remove(fs, f) == [] <==> forall g | g in fs :: g == f
  {
    if fs == [] {
    } else {
      RemoveKeepsOthers(fs[1..], f);
      assert fs == [fs[0]] + fs[1..];
      var r := Remove(fs, f);
      assert r != [] ==> r[0] in r;
    }
  }
}
