/** pkg/konnector/controllers/cluster/serviceexport/cluster-scoped: giving a consumer's cluster-scoped object its
    own identity in the provider cluster, and taking it away again. */
module ClusterScoped {
  import opened Kube

  const CLUSTER_NS_ANNOTATION_KEY := "kube-bind.io/cluster-namespace"

  function Prepend(name: string, clusterNs: string): string {
    clusterNs + "-" + name
  }

  function Behead(name: string, clusterNs: string): string {
    TrimPrefix(name, clusterNs + "-")
  }

  predicate Prefixed(name: string, clusterNs: string) {
    HasPrefix(name, clusterNs + "-")
  }

  lemma BeheadPrepend(name: string, clusterNs: string)
    ensures Prefixed(Prepend(name, clusterNs), clusterNs) && Behead(Prepend(name, clusterNs), clusterNs) == name
    ensures Prepend(Behead(name, clusterNs), clusterNs) == name <==> Prefixed(name, clusterNs)
    ensures Behead(name, clusterNs) != name <==> Prefixed(name, clusterNs)
  {
  }

  predicate RefersTo(r: OwnerReference, clusterNs: string) {
    r.kind == "Namespace" && r.name == clusterNs
  }

  function InjectedReference(clusterNs: string, uid: nat): OwnerReference {
    OwnerReference("v1", "Namespace", clusterNs, uid, false, false)
  }

  /** The place of the first reference to the cluster namespace, or -1. */
  function FindReference(refs: seq<OwnerReference>, clusterNs: string): (i: int)
    ensures -1 <= i < |refs|
    ensures 0 <= i ==> RefersTo(refs[i], clusterNs) && forall j | 0 <= j < i :: !RefersTo(refs[j], clusterNs)
    ensures i == -1 ==> forall j | 0 <= j < |refs| :: !RefersTo(refs[j], clusterNs)
  {
    if refs == [] then -1
    else if RefersTo(refs[0], clusterNs) then 0
    else var i := FindReference(refs[1..], clusterNs); if i == -1 then -1 else i + 1
  }

  function InjectClusterNs(o: Object, clusterNs: string, uid: nat): Option<Object> {
    var found := CLUSTER_NS_ANNOTATION_KEY in o.annotations;
    if found && o.annotations[CLUSTER_NS_ANNOTATION_KEY] != clusterNs then None
    else
      Some(o.(
        annotations := o.annotations[CLUSTER_NS_ANNOTATION_KEY := clusterNs],
        ownerReferences :=
          if FindReference(o.ownerReferences, clusterNs) != -1 then o.ownerReferences
          else o.ownerReferences + [InjectedReference(clusterNs, uid)]))
  }

  /** The list without its element i, whose place the last element takes. */
  function SwapRemove(refs: seq<OwnerReference>, i: nat): seq<OwnerReference>
    requires i < |refs|
  {
    refs[i := refs[|refs| - 1]][..|refs| - 1]
  }

  function ClearClusterNs(o: Object, clusterNs: string): Object {
    var i := FindReference(o.ownerReferences, clusterNs);
    o.(annotations := o.annotations - {CLUSTER_NS_ANNOTATION_KEY},
       ownerReferences := if i == -1 then o.ownerReferences else SwapRemove(o.ownerReferences, i))
  }

  /** TranslateFromDownstream; None stands for its error. */
  function ToUpstream(o: Object, clusterNs: string, uid: nat): Option<Object> {
    match InjectClusterNs(o, clusterNs, uid)
    case None => None
    case Some(u) => Some(u.(name := Prepend(u.name, clusterNs)))
  }

  /** TranslateFromUpstream; None stands for its error. */
  function ToDownstream(o: Object): Option<Object> {
    if CLUSTER_NS_ANNOTATION_KEY !in o.annotations then None
    else
      var clusterNs := o.annotations[CLUSTER_NS_ANNOTATION_KEY];
      var d := ClearClusterNs(o, clusterNs);
      Some(d.(name := Behead(d.name, clusterNs)))
  }

  /** The object carries no trace of a cluster namespace. */
  predicate Untouched(o: Object, clusterNs: string) {
    CLUSTER_NS_ANNOTATION_KEY !in o.annotations && FindReference(o.ownerReferences, clusterNs) == -1
  }

  lemma FindAppended(refs: seq<OwnerReference>, r: OwnerReference, clusterNs: string)
    requires FindReference(refs, clusterNs) == -1 && RefersTo(r, clusterNs)
    ensures FindReference(refs + [r], clusterNs) == |refs|
    ensures SwapRemove(refs + [r], |refs|) == refs
  {
    var i := FindReference(refs + [r], clusterNs);
    assert (refs + [r])[|refs|] == r;
    assert forall j | 0 <= j < |refs| :: (refs + [r])[j] == refs[j];
  }

  /** Down, up and down again is the identity exactly on the objects that carry no trace of the cluster namespace;
      it is refused exactly when the object belongs to another one. */
  lemma DownUpDown(o: Object, clusterNs: string, uid: nat)
    ensures ToUpstream(o, clusterNs, uid).None? <==>
              CLUSTER_NS_ANNOTATION_KEY in o.annotations && o.annotations[CLUSTER_NS_ANNOTATION_KEY] != clusterNs
    ensures ToUpstream(o, clusterNs, uid).Some? ==>
              && ToDownstream(ToUpstream(o, clusterNs, uid).value).Some?
              && (ToDownstream(ToUpstream(o, clusterNs, uid).value) == Some(o) <==> Untouched(o, clusterNs))
  {
    if ToUpstream(o, clusterNs, uid).Some? {
      var u := ToUpstream(o, clusterNs, uid).value;
      var d := ToDownstream(u).value;
      BeheadPrepend(o.name, clusterNs);
      assert d.annotations == o.annotations - {CLUSTER_NS_ANNOTATION_KEY};
      if FindReference(o.ownerReferences, clusterNs) == -1 {
        FindAppended(o.ownerReferences, InjectedReference(clusterNs, uid), clusterNs);
      } else {
        assert |d.ownerReferences| == |o.ownerReferences| - 1;
      }
      if CLUSTER_NS_ANNOTATION_KEY !in o.annotations {
        assert d.annotations == o.annotations;
      } else {
        assert CLUSTER_NS_ANNOTATION_KEY in o.annotations && CLUSTER_NS_ANNOTATION_KEY !in d.annotations;
      }
    }
  }

  /** The same object but for the order of its owner references. */
  ghost predicate SameUpToReferenceOrder(a: Object, b: Object) {
    a == b.(ownerReferences := a.ownerReferences) && multiset(a.ownerReferences) == multiset(b.ownerReferences)
  }

  /** The owner references hold the injected one, and no other reference to the cluster namespace. */
  ghost predicate HoldsJustTheInjected(refs: seq<OwnerReference>, clusterNs: string, uid: nat) {
    var i := FindReference(refs, clusterNs);
    && i != -1
    && refs[i] == InjectedReference(clusterNs, uid)
    && forall j | 0 <= j < |refs| && j != i :: !RefersTo(refs[j], clusterNs)
  }

  lemma SwapRemoveMultiset(refs: seq<OwnerReference>, i: nat)
    requires i < |refs|
    ensures multiset(SwapRemove(refs, i)) + multiset{refs[i]} == multiset(refs)
  {
    var last := |refs| - 1;
    if i == last {
      assert SwapRemove(refs, i) == refs[..last];
      assert refs == refs[..last] + [refs[last]];
    } else {
      var a, b := refs[..i], refs[i + 1..last];
      Pieces(refs, i);
      InTheMiddle(a, refs[last], b);
      InTheMiddle(a, refs[i], b + [refs[last]]);
    }
  }

  lemma Pieces(refs: seq<OwnerReference>, i: nat)
    requires i < |refs| - 1
    ensures var a, b, last := refs[..i], refs[i + 1..|refs| - 1], refs[|refs| - 1];
            refs == a + [refs[i]] + (b + [last]) && SwapRemove(refs, i) == a + [last] + b
  {
  }

  lemma InTheMiddle(a: seq<OwnerReference>, x: OwnerReference, b: seq<OwnerReference>)
    ensures multiset(a + [x] + b) == multiset(a) + multiset(b) + multiset{x}
  {
  }

  lemma OthersAfterSwapRemove(refs: seq<OwnerReference>, i: nat, clusterNs: string)
    requires i < |refs|
    ensures FindReference(SwapRemove(refs, i), clusterNs) == -1 <==>
            forall j | 0 <= j < |refs| && j != i :: !RefersTo(refs[j], clusterNs)
  {
    var s := SwapRemove(refs, i);
    var last := |refs| - 1;
    assert forall j | 0 <= j < last :: s[j] == if j == i then refs[last] else refs[j];
    if FindReference(s, clusterNs) == -1 {
      forall j | 0 <= j < |refs| && j != i
        ensures !RefersTo(refs[j], clusterNs)
      {
        assert j < last ==> s[j] == refs[j];
        assert j == last ==> s[i] == refs[j];
      }
    } else {
      var k := FindReference(s, clusterNs);
      assert RefersTo(refs[if k == i then last else k], clusterNs);
    }
  }

  /** Up, down and up again is the identity, up to the order of the owner references, exactly on the objects that were
      injected for this cluster namespace: marked for it, prefixed with it, and holding just the injected reference.
      */
  lemma UpDownUp(o: Object, clusterNs: string, uid: nat)
    ensures ToDownstream(o).None? <==> CLUSTER_NS_ANNOTATION_KEY !in o.annotations
    ensures ToDownstream(o).Some? ==>
              && ToUpstream(ToDownstream(o).value, clusterNs, uid).Some?
              && (SameUpToReferenceOrder(ToUpstream(ToDownstream(o).value, clusterNs, uid).value, o) <==>
                  && o.annotations[CLUSTER_NS_ANNOTATION_KEY] == clusterNs
                  && Prefixed(o.name, clusterNs)
                  && HoldsJustTheInjected(o.ownerReferences, clusterNs, uid))
  {
    if ToDownstream(o).Some? {
      var ns := o.annotations[CLUSTER_NS_ANNOTATION_KEY];
      var d := ToDownstream(o).value;
      var u := ToUpstream(d, clusterNs, uid).value;
      assert u.annotations == o.annotations[CLUSTER_NS_ANNOTATION_KEY := clusterNs];
      if ns == clusterNs {
        assert u.annotations == o.annotations;
        BeheadPrepend(o.name, clusterNs);
        ReferencesUpDownUp(o.ownerReferences, d.ownerReferences, u.ownerReferences, clusterNs, uid);
      } else {
        assert u.annotations[CLUSTER_NS_ANNOTATION_KEY] != o.annotations[CLUSTER_NS_ANNOTATION_KEY];
      }
    }
  }

  lemma ReferencesUpDownUp(refs: seq<OwnerReference>, down: seq<OwnerReference>, up: seq<OwnerReference>,
                           clusterNs: string, uid: nat)
    requires var i := FindReference(refs, clusterNs); down == if i == -1 then refs else SwapRemove(refs, i)
    requires up == if FindReference(down, clusterNs) != -1 then down else down + [InjectedReference(clusterNs, uid)]
    ensures multiset(up) == multiset(refs) <==> HoldsJustTheInjected(refs, clusterNs, uid)
  {
    var i := FindReference(refs, clusterNs);
    var injected := InjectedReference(clusterNs, uid);
    if i == -1 {
      assert |multiset(up)| == |up| == |refs| + 1;
      assert |multiset(refs)| == |refs|;
    } else {
      SwapRemoveMultiset(refs, i);
      OthersAfterSwapRemove(refs, i, clusterNs);
      if FindReference(down, clusterNs) != -1 {
        assert |multiset(up)| == |up| == |refs| - 1;
        assert |multiset(refs)| == |refs|;
      } else {
        assert multiset(up) == multiset(down) + multiset{injected};
        if multiset(up) == multiset(refs) {
          assert multiset(down)[injected] + 1 == multiset(refs)[injected];
          assert multiset(refs) == multiset(down) + multiset{refs[i]};
          assert refs[i] == injected;
        }
      }
    }
  }

  /** An object that the controllers hold and edit in place. */
  class Unstructured {
    var content: Object

    constructor (o: Object)
      ensures content == o
    {
      content := o;
    }

    method FindOwnerReferenceToClusterNs(clusterNs: string) returns (i: int, found: bool)
      ensures i == FindReference(content.ownerReferences, clusterNs) && found == (i != -1)
    {
      var refs := content.ownerReferences;
      var k := 0;
      while k < |refs|
        invariant 0 <= k <= |refs|
        invariant forall j | 0 <= j < k :: !RefersTo(refs[j], clusterNs)
      {
        if RefersTo(refs[k], clusterNs) {
          return k, true;
        }
        k := k + 1;
      }
      return -1, false;
    }

    method Inject(clusterNs: string, uid: nat) returns (err: bool)
      modifies this
      ensures err == InjectClusterNs(old(content), clusterNs, uid).None?
      ensures content == if err then old(content) else InjectClusterNs(old(content), clusterNs, uid).value
    {
      var annotations := content.annotations;
      var foundAn := CLUSTER_NS_ANNOTATION_KEY in annotations;
      if foundAn && annotations[CLUSTER_NS_ANNOTATION_KEY] != clusterNs {
        return true;
      }
      var refs := content.ownerReferences;
      var i, foundOr := FindOwnerReferenceToClusterNs(clusterNs);
      if foundOr && refs[i].name != clusterNs {
        return true;
      }
      if !foundAn {
        content := content.(annotations := annotations[CLUSTER_NS_ANNOTATION_KEY := clusterNs]);
      } else {
        assert annotations == annotations[CLUSTER_NS_ANNOTATION_KEY := clusterNs];
      }
      if !foundOr {
        content := content.(ownerReferences :=
                              refs + [OwnerReference("v1", "Namespace", clusterNs, uid, false, false)]);
      }
      return false;
    }

    method Clear(clusterNs: string)
      modifies this
      ensures content == ClearClusterNs(old(content), clusterNs)
    {
      content := content.(annotations := content.annotations - {CLUSTER_NS_ANNOTATION_KEY});
      var refs := content.ownerReferences;
      var i, foundOr := FindOwnerReferenceToClusterNs(clusterNs);
      if foundOr {
        refs := refs[i := refs[|refs| - 1]];
        refs := refs[..|refs| - 1];
        content := content.(ownerReferences := refs);
      }
    }

    /** The translation works on a copy, so that a failed one leaves the object as it was. */
    method TranslateFromDownstream(clusterNs: string, uid: nat) returns (err: bool)
      modifies this
      ensures err == ToUpstream(old(content), clusterNs, uid).None?
      ensures content == if err then old(content) else ToUpstream(old(content), clusterNs, uid).value
    {
      var copy := new Unstructured(content);
      err := copy.Inject(clusterNs, uid);
      if err {
        return;
      }
      copy.content := copy.content.(name := Prepend(copy.content.name, clusterNs));
      content := copy.content;
    }

    method TranslateFromUpstream() returns (err: bool)
      modifies this
      ensures err == ToDownstream(old(content)).None?
      ensures content == if err then old(content) else ToDownstream(old(content)).value
    {
      if CLUSTER_NS_ANNOTATION_KEY !in content.annotations {
        return true;
      }
      var clusterNs := content.annotations[CLUSTER_NS_ANNOTATION_KEY];
      var copy := new Unstructured(content);
      copy.Clear(clusterNs);
      copy.content := copy.content.(name := Behead(copy.content.name, clusterNs));
      content := copy.content;
      return false;
    }
  }
}
