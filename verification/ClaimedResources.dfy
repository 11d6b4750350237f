/** pkg/konnector/controllers/cluster/claimedresources: keeping the two copies of a claimed object in step. */
module ClaimedResources {
  import opened Kube

  const OBJECT_OWNER_LABEL := "kube-bind.io/owner"
  const CLAIMED_LABEL_INFIX := "claimed.internal.apis.kcp.io"
  const CLUSTER_ANNOTATION_INFIX := "kcp.io/cluster"

  datatype Owner = Provider | Consumer {
    function Label(): string {
      match this
      case Provider => "provider"
      case Consumer => "consumer"
    }
  }

  /** The two copies of one object, in the provider and in the consumer cluster. */
  datatype Pair = Pair(provider: Option<Object>, consumer: Option<Object>, clock: nat)

  function OwnerLabel(o: Object): string {
    if OBJECT_OWNER_LABEL in o.labels then o.labels[OBJECT_OWNER_LABEL] else ""
  }

  function LabelledOwner(o: Object): Option<Owner> {
    if OwnerLabel(o) == "provider" then Some(Provider)
    else if OwnerLabel(o) == "consumer" then Some(Consumer)
    else None
  }

  function DetermineOwner(provider: Option<Object>, consumer: Option<Object>): Option<Owner> {
    if provider.Some? && LabelledOwner(provider.value).Some? then LabelledOwner(provider.value)
    else if provider.Some? && OwnerLabel(provider.value) == "" && consumer.None? then Some(Provider)
    else if consumer.Some? && LabelledOwner(consumer.value).Some? then LabelledOwner(consumer.value)
    else if consumer.Some? && OwnerLabel(consumer.value) == "" && provider.None? then Some(Consumer)
    else None
  }

  /** makeProviderOwner and makeConsumerOwner */
  function MakeOwner(o: Object, owner: Owner): Object {
    o.(labels := o.labels[OBJECT_OWNER_LABEL := owner.Label()])
  }

  function Without(m: map<string, string>, infix: string): map<string, string> {
    map k | k in m && !Contains(k, infix) :: m[k]
  }

  /** What candidateFromOwnerObj yields: the object stripped of all that belongs to one cluster. */
  function Candidate(namespace: string, o: Object): Object {
    o.(uid := 0, resourceVersion := 0, creationTimestamp := 0, namespace := namespace, managedFields := [],
       deleting := false, ownerReferences := [], finalizers := [],
       labels := Without(o.labels, CLAIMED_LABEL_INFIX),
       annotations := Without(o.annotations, CLUSTER_ANNOTATION_INFIX))
  }

  /** One reconcile of an object owned by the provider; a refused write ends it. */
  function SyncFromProvider(cns: string, s: Pair): Pair {
    match s.provider
    case None => DeleteConsumer(s)
    case Some(p) =>
      var stamped := MakeOwner(p, Provider);
      var w := if stamped != p then Update(s.provider, s.clock, stamped) else Written(s.provider, s.clock, Accepted);
      var s' := s.(provider := w.cell, clock := w.clock);
      if w.answer != Accepted then s'
      else if s.consumer.None? then
        var c := Create(None, s'.clock, MakeOwner(Candidate(cns, p), Provider));
        s'.(consumer := c.cell, clock := c.clock)
      else if p.deleting then DeleteConsumer(s')
      else if Candidate(cns, p) != Candidate(cns, s.consumer.value) then
        var c := Update(s'.consumer, s'.clock, Candidate(cns, p));
        s'.(consumer := c.cell, clock := c.clock)
      else s'
  }

  /** One reconcile of an object owned by the consumer. */
  function SyncFromConsumer(pns: string, s: Pair): Pair {
    match s.consumer
    case None => var w := Delete(s.provider, s.clock); s.(provider := w.cell, clock := w.clock)
    case Some(c) =>
      var stamped := MakeOwner(c, Consumer);
      var w := if stamped != c then Update(s.consumer, s.clock, stamped) else Written(s.consumer, s.clock, Accepted);
      var s' := s.(consumer := w.cell, clock := w.clock);
      var candidate := MakeOwner(Candidate(pns, stamped), Consumer);
      if w.answer != Accepted then s'
      else if s.provider.None? then
        var p := Create(None, s'.clock, candidate);
        s'.(provider := p.cell, clock := p.clock)
      else if Candidate(pns, s.provider.value) != candidate then
        var p := Update(s'.provider, s'.clock, candidate);
        s'.(provider := p.cell, clock := p.clock)
      else s'
  }

  function DeleteConsumer(s: Pair): Pair {
    var w := Delete(s.consumer, s.clock);
    s.(consumer := w.cell, clock := w.clock)
  }

  /** One whole reconcile of the pair, with nothing else writing meanwhile. */
  function Sync(pns: string, cns: string, s: Pair): Pair {
    if s.provider.None? && s.consumer.None? then s
    else
      match DetermineOwner(s.provider, s.consumer)
      case None => s
      case Some(Provider) => SyncFromProvider(cns, s)
      case Some(Consumer) => SyncFromConsumer(pns, s)
  }

  predicate WellformedPair(s: Pair) {
    Wellformed(s.provider, s.clock) && Wellformed(s.consumer, s.clock)
  }

  function OwnerCopy(owner: Owner, s: Pair): Option<Object> {
    match owner
    case Provider => s.provider
    case Consumer => s.consumer
  }

  function ReplicaCopy(owner: Owner, s: Pair): Option<Object> {
    match owner
    case Provider => s.consumer
    case Consumer => s.provider
  }

  /** The owner of a pair is undeterminable exactly when no copy names one and no copy is alone and unlabelled. */
  lemma OwnerDetermined(s: Pair)
    requires s.provider.Some? || s.consumer.Some?
    ensures DetermineOwner(s.provider, s.consumer).None? <==>
            && (s.provider.Some? ==> LabelledOwner(s.provider.value).None?)
            && (s.consumer.Some? ==> LabelledOwner(s.consumer.value).None?)
            && (s.consumer.None? ==> OwnerLabel(s.provider.value) != "")
            && (s.provider.None? ==> OwnerLabel(s.consumer.value) != "")
  {
  }

  /** Who the owner is: whom the provider's copy names; otherwise, if there is just one copy and it has no label, the
      side it is on; otherwise whom the consumer's copy names. */
  lemma OwnerIs(s: Pair)
    ensures s.provider.Some? && OwnerLabel(s.provider.value) == "provider" ==>
              DetermineOwner(s.provider, s.consumer) == Some(Provider)
    ensures s.provider.Some? && OwnerLabel(s.provider.value) == "consumer" ==>
              DetermineOwner(s.provider, s.consumer) == Some(Consumer)
    ensures s.provider.Some? && OwnerLabel(s.provider.value) == "" && s.consumer.None? ==>
              DetermineOwner(s.provider, s.consumer) == Some(Provider)
    ensures s.consumer.Some? && OwnerLabel(s.consumer.value) == "" && s.provider.None? ==>
              DetermineOwner(s.provider, s.consumer) == Some(Consumer)
    ensures s.consumer.Some? && (s.provider.Some? ==> OwnerLabel(s.provider.value) !in {"provider", "consumer"}) ==>
              && (OwnerLabel(s.consumer.value) == "provider" ==>
                    DetermineOwner(s.provider, s.consumer) == Some(Provider))
              && (OwnerLabel(s.consumer.value) == "consumer" ==>
                    DetermineOwner(s.provider, s.consumer) == Some(Consumer))
  {
  }

  /** A new object that is on one side only, without a label, is copied to the other side and stays as it is. */
  lemma NewObjectIsCopied(pns: string, cns: string, s: Pair)
    requires WellformedPair(s)
    ensures var s' := Sync(pns, cns, s);
            && (s.consumer.None? && s.provider.Some? && OwnerLabel(s.provider.value) == "" ==>
                  && s'.provider.Some? && OnlyStamped(s.provider.value, s'.provider.value, Provider)
                  && s'.consumer.Some? && Carries(s.provider.value, s'.consumer.value)
                  && s'.consumer.value.namespace == cns)
            && (s.provider.None? && s.consumer.Some? && OwnerLabel(s.consumer.value) == "" ==>
                  && s'.consumer.Some? && OnlyStamped(s.consumer.value, s'.consumer.value, Consumer)
                  && s'.provider.Some? && Carries(s.consumer.value, s'.provider.value)
                  && s'.provider.value.namespace == pns)
  {
    OwnerIs(s);
    OwnerStability(pns, cns, s);
    var owner := DetermineOwner(s.provider, s.consumer);
    if owner.Some? {
      ReplicaFollows(pns, cns, s, owner.value);
    }
  }

  lemma InfixesDoNotHideTheOwner(o: Object, owner: Owner, namespace: string)
    ensures MakeOwner(Candidate(namespace, o), owner) == Candidate(namespace, MakeOwner(o, owner))
    ensures LabelledOwner(Candidate(namespace, o)) == LabelledOwner(o)
    ensures OwnerLabel(Candidate(namespace, o)) == OwnerLabel(o)
    ensures LabelledOwner(MakeOwner(o, owner)) == Some(owner)
    ensures MakeOwner(o, owner) == o <==> LabelledOwner(o) == Some(owner)
  {
    assert |OBJECT_OWNER_LABEL| < |CLAIMED_LABEL_INFIX|;
    assert !Contains(OBJECT_OWNER_LABEL, CLAIMED_LABEL_INFIX);
    var l := Without(o.labels, CLAIMED_LABEL_INFIX)[OBJECT_OWNER_LABEL := owner.Label()];
    assert l == Without(o.labels[OBJECT_OWNER_LABEL := owner.Label()], CLAIMED_LABEL_INFIX);
    if LabelledOwner(o) == Some(owner) {
      assert o.labels[OBJECT_OWNER_LABEL := owner.Label()] == o.labels;
    }
  }

  lemma CandidateIsNormal(a: string, b: string, o: Object)
    ensures Candidate(a, Candidate(b, o)) == Candidate(a, o)
  {
  }

  /** Two stored copies carry the same content when they agree on all that a copy takes over from its owner. */
  predicate SameContent(a: Object, b: Object) {
    Candidate("", a) == Candidate("", b)
  }

  lemma SameContentAnywhere(ns: string, a: Object, b: Object)
    ensures SameContent(a, b) <==> Candidate(ns, a) == Candidate(ns, b)
  {
  }

  /** The replica has the payload of the owner's copy, its name, and its labels and annotations but for the owner
      label and those that belong to one cluster. */
  ghost predicate Carries(o: Object, replica: Object) {
    && replica.fields == o.fields && replica.name == o.name
    && (forall k | k != OBJECT_OWNER_LABEL && !Contains(k, CLAIMED_LABEL_INFIX) ::
          SameEntry(o.labels, replica.labels, k))
    && (forall k | !Contains(k, CLUSTER_ANNOTATION_INFIX) :: SameEntry(o.annotations, replica.annotations, k))
  }

  predicate SameEntry(m: map<string, string>, n: map<string, string>, k: string) {
    (k in m <==> k in n) && (k in m ==> m[k] == n[k])
  }

  lemma SameContentCarries(o: Object, replica: Object)
    ensures SameContent(o, replica) <==> Carries(o, replica) && SameEntry(o.labels, replica.labels, OBJECT_OWNER_LABEL)
  {
    assert !Contains(OBJECT_OWNER_LABEL, CLAIMED_LABEL_INFIX) by {
      assert |OBJECT_OWNER_LABEL| < |CLAIMED_LABEL_INFIX|;
    }
    SameWithout(o.labels, replica.labels, CLAIMED_LABEL_INFIX);
    SameWithout(o.annotations, replica.annotations, CLUSTER_ANNOTATION_INFIX);
  }

  lemma SameWithout(m: map<string, string>, n: map<string, string>, infix: string)
    ensures Without(m, infix) == Without(n, infix) <==> forall k | !Contains(k, infix) :: SameEntry(m, n, k)
  {
    var m', n' := Without(m, infix), Without(n, infix);
    forall k | !Contains(k, infix)
      ensures SameEntry(m, m', k) && SameEntry(n, n', k)
    {
    }
    if m' == n' {
      assert forall k | !Contains(k, infix) :: SameEntry(m', n', k);
    }
    if forall k | !Contains(k, infix) :: SameEntry(m, n, k) {
      assert m' == n';
    }
  }

  /** The owner's copy with its ownership on record: content, finalizers and owner references are untouched. */
  predicate OnlyStamped(before: Object, after: Object, owner: Owner) {
    && after.labels == before.labels[OBJECT_OWNER_LABEL := owner.Label()]
    && after == before.(labels := after.labels, resourceVersion := after.resourceVersion)
  }

  lemma ProviderStaysOwner(cns: string, s: Pair)
    requires WellformedPair(s) && DetermineOwner(s.provider, s.consumer) == Some(Provider)
    ensures var s' := SyncFromProvider(cns, s);
            && WellformedPair(s')
            && (s'.provider.Some? || s'.consumer.Some? ==> DetermineOwner(s'.provider, s'.consumer) == Some(Provider))
            && s'.provider.Some? == s.provider.Some?
            && (s.provider.Some? ==> OnlyStamped(s.provider.value, s'.provider.value, Provider))
  {
    if s.provider.Some? {
      var p := s.provider.value;
      InfixesDoNotHideTheOwner(p, Provider, cns);
      var s' := SyncFromProvider(cns, s);
      assert s'.provider.Some? && OnlyStamped(p, s'.provider.value, Provider);
      assert LabelledOwner(s'.provider.value) == Some(Provider);
    }
  }

  lemma ConsumerStaysOwner(pns: string, s: Pair)
    requires WellformedPair(s) && DetermineOwner(s.provider, s.consumer) == Some(Consumer)
    ensures var s' := SyncFromConsumer(pns, s);
            && WellformedPair(s')
            && (s'.provider.Some? || s'.consumer.Some? ==> DetermineOwner(s'.provider, s'.consumer) == Some(Consumer))
            && s'.consumer.Some? == s.consumer.Some?
            && (s.consumer.Some? ==> OnlyStamped(s.consumer.value, s'.consumer.value, Consumer))
  {
    if s.consumer.Some? {
      var c := s.consumer.value;
      InfixesDoNotHideTheOwner(c, Consumer, pns);
      InfixesDoNotHideTheOwner(MakeOwner(c, Consumer), Consumer, pns);
      if s.provider.Some? {
        InfixesDoNotHideTheOwner(s.provider.value, Consumer, pns);
      }
      var s' := SyncFromConsumer(pns, s);
      assert s'.consumer.Some? && OnlyStamped(c, s'.consumer.value, Consumer);
      assert LabelledOwner(s'.consumer.value) == Some(Consumer);
      assert s'.provider.Some? ==> LabelledOwner(s'.provider.value) == Some(Consumer);
    }
  }

  /** Owner stability. A reconcile keeps the owner while any copy remains, also with terminating copies, and changes
      nothing on the owner's side except the owner label and the revision. */
  lemma OwnerStability(pns: string, cns: string, s: Pair)
    requires WellformedPair(s)
    ensures var s' := Sync(pns, cns, s);
            var owner := DetermineOwner(s.provider, s.consumer);
            && WellformedPair(s')
            && (owner.None? ==> s' == s)
            && (owner.Some? && (s'.provider.Some? || s'.consumer.Some?) ==>
                  DetermineOwner(s'.provider, s'.consumer) == owner)
            && (owner.Some? ==> OwnerCopy(owner.value, s).Some? == OwnerCopy(owner.value, s').Some?)
            && (owner.Some? && OwnerCopy(owner.value, s).Some? ==>
                  OnlyStamped(OwnerCopy(owner.value, s).value, OwnerCopy(owner.value, s').value, owner.value))
  {
    match DetermineOwner(s.provider, s.consumer)
    case None =>
    case Some(Provider) => ProviderStaysOwner(cns, s);
    case Some(Consumer) => ConsumerStaysOwner(pns, s);
  }

  /** Nothing is terminating, and a replica whose owner copy is gone can be deleted at once. */
  predicate Quiet(s: Pair) {
    && (s.provider.Some? ==> !s.provider.value.deleting)
    && (s.consumer.Some? ==> !s.consumer.value.deleting)
    && var owner := DetermineOwner(s.provider, s.consumer);
       owner.Some? && OwnerCopy(owner.value, s).None? && ReplicaCopy(owner.value, s).Some? ==>
         ReplicaCopy(owner.value, s).value.finalizers == []
  }

  /** The owner and both copies agree. */
  predicate InStep(owner: Owner, s: Pair) {
    && s.provider.Some? && s.consumer.Some?
    && !s.provider.value.deleting && !s.consumer.value.deleting
    && LabelledOwner(s.provider.value) == Some(owner)
    && LabelledOwner(s.consumer.value) == Some(owner)
    && SameContent(s.provider.value, s.consumer.value)
  }

  /** A pair in step is left alone. */
  lemma InStepIsStable(owner: Owner, pns: string, cns: string, s: Pair)
    requires InStep(owner, s)
    ensures Sync(pns, cns, s) == s
  {
  }

  /** The pairs that need a second round: the provider's copy becomes owner only because the consumer's copy says so.
      */
  predicate NeedsTwoRounds(s: Pair) {
    && s.provider.Some? && s.consumer.Some?
    && LabelledOwner(s.provider.value).None?
    && LabelledOwner(s.consumer.value) == Some(Provider)
  }

  /** Whichever copy owns the object, one round brings the pair in step or empties it, but for one family of pairs. */
  lemma OneRound(pns: string, cns: string, s: Pair)
    requires WellformedPair(s) && Quiet(s)
    ensures var s' := Sync(pns, cns, s);
            var owner := DetermineOwner(s.provider, s.consumer);
            && WellformedPair(s')
            && (owner.Some? && !NeedsTwoRounds(s) ==>
                  InStep(owner.value, s') || (s'.provider.None? && s'.consumer.None?))
            && (NeedsTwoRounds(s) ==>
                  && s'.provider.Some? && s'.consumer.Some?
                  && !s'.provider.value.deleting && !s'.consumer.value.deleting
                  && LabelledOwner(s'.provider.value) == Some(Provider)
                  && LabelledOwner(s'.consumer.value).None?)
  {
    OwnerStability(pns, cns, s);
    match DetermineOwner(s.provider, s.consumer)
    case None =>
    case Some(Provider) => OneRoundFromProvider(cns, s);
    case Some(Consumer) => OneRoundFromConsumer(pns, s);
  }

  lemma OneRoundFromProvider(cns: string, s: Pair)
    requires WellformedPair(s) && Quiet(s) && DetermineOwner(s.provider, s.consumer) == Some(Provider)
    ensures var s' := SyncFromProvider(cns, s);
            && (s.provider.None? ==> s'.provider.None? && s'.consumer.None?)
            && (s.provider.Some? && !NeedsTwoRounds(s) ==> InStep(Provider, s'))
            && (NeedsTwoRounds(s) ==>
                  && s'.provider.Some? && s'.consumer.Some?
                  && !s'.provider.value.deleting && !s'.consumer.value.deleting
                  && LabelledOwner(s'.provider.value) == Some(Provider)
                  && LabelledOwner(s'.consumer.value).None?)
  {
    if s.provider.Some? {
      var p := s.provider.value;
      var s' := SyncFromProvider(cns, s);
      ProviderStaysOwner(cns, s);
      InfixesDoNotHideTheOwner(p, Provider, cns);
      CandidateIsNormal(cns, cns, p);
      SameContentAnywhere(cns, s'.provider.value, s'.consumer.value);
      if s.consumer.Some? {
        InfixesDoNotHideTheOwner(s.consumer.value, Provider, cns);
      } else {
        CandidateIsNormal(cns, cns, MakeOwner(p, Provider));
      }
    }
  }

  lemma OneRoundFromConsumer(pns: string, s: Pair)
    requires WellformedPair(s) && Quiet(s) && DetermineOwner(s.provider, s.consumer) == Some(Consumer)
    ensures var s' := SyncFromConsumer(pns, s);
            && (s.consumer.None? ==> s'.provider.None? && s'.consumer.None?)
            && (s.consumer.Some? ==> InStep(Consumer, s'))
  {
    if s.consumer.Some? {
      var c := s.consumer.value;
      var stamped := MakeOwner(c, Consumer);
      var s' := SyncFromConsumer(pns, s);
      ConsumerStaysOwner(pns, s);
      InfixesDoNotHideTheOwner(c, Consumer, pns);
      InfixesDoNotHideTheOwner(stamped, Consumer, pns);
      CandidateIsNormal(pns, pns, stamped);
      SameContentAnywhere(pns, s'.provider.value, s'.consumer.value);
      if s.provider.Some? {
        InfixesDoNotHideTheOwner(s.provider.value, Consumer, pns);
      }
    }
  }

  /** Convergence. Two rounds without outside change reach a pair that a third round does not touch: both copies gone,
      both copies in step under the first owner with the owner's own content, or an undeterminable pair as it was. */
  lemma Convergence(pns: string, cns: string, s: Pair)
    requires WellformedPair(s) && Quiet(s)
    ensures var s2 := Sync(pns, cns, Sync(pns, cns, s));
            var owner := DetermineOwner(s.provider, s.consumer);
            && Sync(pns, cns, s2) == s2
            && (owner.None? ==> s2 == s)
            && (owner.Some? && OwnerCopy(owner.value, s).None? ==> s2.provider.None? && s2.consumer.None?)
            && (owner.Some? && OwnerCopy(owner.value, s).Some? ==>
                  && InStep(owner.value, s2)
                  && OnlyStamped(OwnerCopy(owner.value, s).value, OwnerCopy(owner.value, s2).value, owner.value)
                  && Carries(OwnerCopy(owner.value, s).value, ReplicaCopy(owner.value, s2).value))
  {
    var s1 := Sync(pns, cns, s);
    var s2 := Sync(pns, cns, s1);
    var owner := DetermineOwner(s.provider, s.consumer);
    OneRound(pns, cns, s);
    OwnerStability(pns, cns, s);
    if owner.Some? && OwnerCopy(owner.value, s).Some? {
      OwnerStability(pns, cns, s1);
      SecondRound(pns, cns, s, owner.value);
      StampedTwice(OwnerCopy(owner.value, s).value, OwnerCopy(owner.value, s1).value, OwnerCopy(owner.value, s2).value,
                   owner.value);
      SameContentCarries(OwnerCopy(owner.value, s2).value, ReplicaCopy(owner.value, s2).value);
      InStepIsStable(owner.value, pns, cns, s2);
    }
  }

  lemma SecondRound(pns: string, cns: string, s: Pair, owner: Owner)
    requires WellformedPair(s) && Quiet(s)
    requires DetermineOwner(s.provider, s.consumer) == Some(owner) && OwnerCopy(owner, s).Some?
    ensures InStep(owner, Sync(pns, cns, Sync(pns, cns, s)))
  {
    var s1 := Sync(pns, cns, s);
    OneRound(pns, cns, s);
    OwnerStability(pns, cns, s);
    if NeedsTwoRounds(s) {
      OneRound(pns, cns, s1);
      OwnerStability(pns, cns, s1);
    } else {
      InStepIsStable(owner, pns, cns, s1);
    }
  }

  lemma StampedTwice(o: Object, o1: Object, o2: Object, owner: Owner)
    requires OnlyStamped(o, o1, owner) && OnlyStamped(o1, o2, owner)
    ensures OnlyStamped(o, o2, owner)
  {
  }

  /** Two rounds are needed exactly for that family; everything else has settled after the first. */
  lemma TwoRoundsAreTight(pns: string, cns: string, s: Pair)
    requires WellformedPair(s) && Quiet(s)
    ensures var s1 := Sync(pns, cns, s);
            Sync(pns, cns, s1) != s1 <==> NeedsTwoRounds(s)
  {
    var s1 := Sync(pns, cns, s);
    var owner := DetermineOwner(s.provider, s.consumer);
    OneRound(pns, cns, s);
    if NeedsTwoRounds(s) {
      InfixesDoNotHideTheOwner(s1.provider.value, Provider, cns);
      InfixesDoNotHideTheOwner(s1.consumer.value, Provider, cns);
    } else if owner.Some? && s1.provider.Some? {
      InStepIsStable(owner.value, pns, cns, s1);
    }
  }

  /** Nothing in the copy belongs to the cluster of its owner. */
  ghost predicate Clean(o: Object, namespace: string) {
    && o.namespace == namespace && o.ownerReferences == [] && o.finalizers == []
    && (forall k | k in o.labels :: !Contains(k, CLAIMED_LABEL_INFIX))
    && (forall k | k in o.annotations :: !Contains(k, CLUSTER_ANNOTATION_INFIX))
  }

  /** A replica is deleted: it is gone, or terminating while somebody else holds it. */
  predicate TakenDown(before: Option<Object>, after: Option<Object>) {
    && (after.None? <==> before.None? || before.value.finalizers == [])
    && (after.Some? ==> after.value == before.value.(deleting := true, resourceVersion := after.value.resourceVersion))
  }

  /** The owner label of the replica is the one that it is compared with: that of the provider's copy before it is
      stamped, or that of the consumer. */
  predicate LabelFits(owner: Owner, o: Object, replica: Object) {
    match owner
    case Provider => SameEntry(o.labels, replica.labels, OBJECT_OWNER_LABEL)
    case Consumer => LabelledOwner(replica) == Some(Consumer)
  }

  /** What one round makes of the replica, terminating copies included. Without an owner copy, or if the provider's
      copy is terminating, an existing replica is taken down. Otherwise, if it is not terminating itself, it carries
      the owner's content afterwards; a missing one is created even for a terminating owner; what was written is
      clean; and it is written exactly if content or owner label differ. */
  lemma ReplicaFollows(pns: string, cns: string, s: Pair, owner: Owner)
    requires WellformedPair(s) && DetermineOwner(s.provider, s.consumer) == Some(owner)
    ensures var o, before, after := OwnerCopy(owner, s), ReplicaCopy(owner, s), ReplicaCopy(owner, Sync(pns, cns, s));
            && (o.None? || (owner == Provider && o.value.deleting && before.Some?) ==> TakenDown(before, after))
            && (o.Some? && before.None? ==>
                  && after.Some? && !after.value.deleting && Carries(o.value, after.value)
                  && LabelledOwner(after.value) == Some(owner)
                  && Clean(after.value, if owner == Provider then cns else pns))
            && (o.Some? && before.Some? && !before.value.deleting && !(owner == Provider && o.value.deleting) ==>
                  && after.Some? && !after.value.deleting && Carries(o.value, after.value)
                  && (after != before ==> Clean(after.value, if owner == Provider then cns else pns)))
            && (o.Some? && before.Some? && !(owner == Provider && o.value.deleting) ==>
                  (after == before <==> Carries(o.value, before.value) && LabelFits(owner, o.value, before.value)))
  {
    if OwnerCopy(owner, s).Some? {
      if owner == Provider {
        ConsumerReplicaFollows(cns, s);
      } else {
        ProviderReplicaFollows(pns, s);
      }
    }
  }

  lemma CandidateCarries(ns: string, o: Object, owner: Owner)
    ensures Carries(o, Candidate(ns, o)) && Clean(Candidate(ns, o), ns)
    ensures Carries(o, MakeOwner(Candidate(ns, o), owner)) && Clean(MakeOwner(Candidate(ns, o), owner), ns)
    ensures Carries(o, MakeOwner(Candidate(ns, MakeOwner(o, owner)), owner))
  {
    assert !Contains(OBJECT_OWNER_LABEL, CLAIMED_LABEL_INFIX) by {
      assert |OBJECT_OWNER_LABEL| < |CLAIMED_LABEL_INFIX|;
    }
  }

  lemma ConsumerReplicaFollows(cns: string, s: Pair)
    requires WellformedPair(s) && DetermineOwner(s.provider, s.consumer) == Some(Provider) && s.provider.Some?
    ensures var o, before, after := s.provider.value, s.consumer, SyncFromProvider(cns, s).consumer;
            && (o.deleting && before.Some? ==> TakenDown(before, after))
            && (before.None? ==>
                  && after.Some? && !after.value.deleting && Carries(o, after.value) && Clean(after.value, cns)
                  && LabelledOwner(after.value) == Some(Provider))
            && (before.Some? && !before.value.deleting && !o.deleting ==>
                  && after.Some? && !after.value.deleting && Carries(o, after.value)
                  && (after != before ==> Clean(after.value, cns)))
            && (before.Some? && !o.deleting ==>
                  (after == before <==> Carries(o, before.value) && LabelFits(Provider, o, before.value)))
  {
    var o := s.provider.value;
    CandidateCarries(cns, o, Provider);
    InfixesDoNotHideTheOwner(o, Provider, cns);
    if s.consumer.Some? {
      SameContentAnywhere(cns, o, s.consumer.value);
      SameContentCarries(o, s.consumer.value);
    }
  }

  lemma ProviderReplicaFollows(pns: string, s: Pair)
    requires WellformedPair(s) && DetermineOwner(s.provider, s.consumer) == Some(Consumer) && s.consumer.Some?
    ensures var o, before, after := s.consumer.value, s.provider, SyncFromConsumer(pns, s).provider;
            && (before.None? ==>
                  && after.Some? && !after.value.deleting && Carries(o, after.value) && Clean(after.value, pns)
                  && LabelledOwner(after.value) == Some(Consumer))
            && (before.Some? && !before.value.deleting ==>
                  && after.Some? && !after.value.deleting && Carries(o, after.value)
                  && (after != before ==> Clean(after.value, pns)))
            && (before.Some? ==>
                  (after == before <==> Carries(o, before.value) && LabelFits(Consumer, o, before.value)))
  {
    var o := s.consumer.value;
    var stamped := MakeOwner(o, Consumer);
    CandidateCarries(pns, o, Consumer);
    CandidateCarries(pns, stamped, Consumer);
    InfixesDoNotHideTheOwner(stamped, Consumer, pns);
    if s.provider.Some? {
      SameContentAnywhere(pns, stamped, s.provider.value);
      SameContentCarries(stamped, s.provider.value);
      StampedCarries(o, s.provider.value);
    }
  }

  lemma StampedCarries(o: Object, replica: Object)
    ensures Carries(MakeOwner(o, Consumer), replica) <==> Carries(o, replica)
    ensures SameEntry(MakeOwner(o, Consumer).labels, replica.labels, OBJECT_OWNER_LABEL) <==>
            LabelledOwner(replica) == Some(Consumer)
  {
    assert forall k | k != OBJECT_OWNER_LABEL ::
        SameEntry(MakeOwner(o, Consumer).labels, replica.labels, k) <==> SameEntry(o.labels, replica.labels, k);
  }

  /** What may happen to a pair: a round of the reconciler, or an outside change that neither creates nor removes a
      copy and leaves the owner labels alone. */
  datatype Action = Round | Outside(changed: Pair)

  predicate LabelsKept(a: Option<Object>, b: Option<Object>) {
    a.Some? == b.Some? && (a.Some? ==> OwnerLabel(a.value) == OwnerLabel(b.value))
  }

  predicate Next(pns: string, cns: string, s: Pair, a: Action, s': Pair) {
    match a
    case Round => s' == Sync(pns, cns, s)
    case Outside(changed) =>
      s' == changed && WellformedPair(s') && LabelsKept(s.provider, s'.provider) && LabelsKept(s.consumer, s'.consumer)
  }

  /** Over whole runs of rounds and outside changes, the owner stays the same for as long as any copy remains. */
  lemma {:induction false} OwnerStaysOverRuns(pns: string, cns: string, states: seq<Pair>, actions: seq<Action>, n: nat)
    requires |states| == |actions| + 1 && n < |states| && WellformedPair(states[0])
    requires forall i | 0 <= i < |actions| :: Next(pns, cns, states[i], actions[i], states[i + 1])
    requires states[n].provider.Some? || states[n].consumer.Some?
    ensures WellformedPair(states[n])
    ensures DetermineOwner(states[n].provider, states[n].consumer) ==
            DetermineOwner(states[0].provider, states[0].consumer)
  {
    if n == 0 {
    } else {
      var s := states[n - 1];
      assert Next(pns, cns, s, actions[n - 1], states[n - 1 + 1]);
      OwnerStaysOverRuns(pns, cns, states, actions, n - 1);
      if actions[n - 1] == Round {
        OwnerStability(pns, cns, s);
      }
    }
  }
}
