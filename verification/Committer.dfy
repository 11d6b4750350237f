/** pkg/committer: writing back either the metadata and spec or the status of a resource, as a JSON merge patch that
    carries the uid and the resourceVersion as preconditions. */
module Committer {
  import opened Kube

  /** Applying a merge patch, as section 2 of RFC 7396 defines it. */
  function MergePatch(target: Json, patch: Json): Json
    decreases patch
  {
    if patch.Obj? then
      var t := if target.Obj? then target.members else map[];
      Obj(map k | k in t.Keys + patch.members.Keys && (k in patch.members ==> patch.members[k] != Null) ::
            if k in patch.members then MergePatch(if k in t then t[k] else Null, patch.members[k]) else t[k])
    else patch
  }

  /** Computing a merge patch between two objects, standing for CreateMergePatch: members that differ, with nested
      objects compared member by member, and null for members that are gone. */
  function Diff(a: Json, b: Json): (d: Json)
    requires a.Obj? && b.Obj?
    ensures d.Obj?
    decreases b
  {
    Obj(map k | k in a.members.Keys + b.members.Keys &&
                (k in a.members && k in b.members ==>
                   if a.members[k].Obj? && b.members[k].Obj? then
                     Diff(a.members[k], b.members[k]).members != map[]
                   else a.members[k] != b.members[k]) ::
          if k !in b.members then Null
          else if k in a.members && a.members[k].Obj? && b.members[k].Obj? then Diff(a.members[k], b.members[k])
          else b.members[k])
  }

  /** The value has no null of its own: a null member of an object would be read as a removal. */
  predicate NullFree(j: Json) {
    j != Null && (j.Obj? ==> forall k | k in j.members :: NullFree(j.members[k]))
  }

  /** What the new object adds or replaces brings no null along; unchanged nulls do no harm. */
  predicate Patchable(a: Json, b: Json)
    requires a.Obj? && b.Obj?
    decreases b
  {
    forall k | k in b.members :: PatchableMember(a, b, k)
  }

  predicate PatchableMember(a: Json, b: Json, k: string)
    requires a.Obj? && b.Obj? && k in b.members
    decreases b, 0
  {
    if k in a.members && a.members[k].Obj? && b.members[k].Obj? then Patchable(a.members[k], b.members[k])
    else (k in a.members && a.members[k] == b.members[k]) || NullFree(b.members[k])
  }

  /** A value sent whole arrives whole exactly if it is free of nulls. */
  lemma {:induction false} WholeValueArrives(t: Json, v: Json)
    requires v != Null && !(t.Obj? && v.Obj?)
    ensures MergePatch(t, v) == v <==> NullFree(v)
    decreases v
  {
    if v.Obj? {
      var r := MergePatch(t, v).members;
      forall k | k in v.members && v.members[k] != Null
        ensures k in r && (r[k] == v.members[k] <==> NullFree(v.members[k]))
      {
        WholeValueArrives(Null, v.members[k]);
      }
      if NullFree(v) {
        forall k | k in v.members
          ensures k in r && r[k] == v.members[k]
        {
          assert NullFree(v.members[k]);
        }
        assert r == v.members;
      } else {
        var k :| k in v.members && !NullFree(v.members[k]);
        assert k !in r || r[k] != v.members[k];
      }
    }
  }

  /** Nothing to send means nothing has changed. */
  lemma {:induction false} EmptyDiffMeansEqual(a: Json, b: Json)
    requires a.Obj? && b.Obj?
    ensures Diff(a, b).members == map[] <==> a == b
    decreases b
  {
    var d := Diff(a, b).members;
    forall k | k in a.members && k in b.members && a.members[k].Obj? && b.members[k].Obj?
      ensures Diff(a.members[k], b.members[k]).members == map[] <==> a.members[k] == b.members[k]
    {
      EmptyDiffMeansEqual(a.members[k], b.members[k]);
    }
    if d == map[] {
      forall k | k in a.members.Keys + b.members.Keys
        ensures k in a.members && k in b.members && a.members[k] == b.members[k]
      {
        assert k !in d;
      }
      assert forall k | k in a.members :: k in a.members.Keys + b.members.Keys;
      assert forall k | k in b.members :: k in a.members.Keys + b.members.Keys;
      assert a.members == b.members;
    } else {
      var k :| k in d;
      assert !(k in a.members && k in b.members && a.members[k] == b.members[k]);
    }
  }

  /** A patch computed between a and b, applied to a, yields b exactly if it is free of new nulls. */
  lemma {:induction false} PatchYieldsNew(a: Json, b: Json)
    requires a.Obj? && b.Obj?
    ensures MergePatch(a, Diff(a, b)) == b <==> Patchable(a, b)
    decreases b
  {
    var d := Diff(a, b).members;
    var r := MergePatch(a, Diff(a, b)).members;
    forall k
      ensures k in r ==> k in b.members
      ensures k in b.members ==> (k in r && r[k] == b.members[k] <==> PatchableMember(a, b, k))
    {
      MemberArrives(a, b, k);
    }
    if Patchable(a, b) {
      assert r == b.members;
    } else {
      var k :| k in b.members && !PatchableMember(a, b, k);
      assert !(k in r && r[k] == b.members[k]);
    }
  }

  lemma {:induction false} MemberArrives(a: Json, b: Json, k: string)
    requires a.Obj? && b.Obj?
    ensures var r := MergePatch(a, Diff(a, b)).members;
            && (k in r ==> k in b.members)
            && (k in b.members ==> (k in r && r[k] == b.members[k] <==> PatchableMember(a, b, k)))
    decreases b, 0
  {
    if k in b.members {
      var v := b.members[k];
      if k in a.members && a.members[k].Obj? && v.Obj? {
        EmptyDiffMeansEqual(a.members[k], v);
        PatchYieldsNew(a.members[k], v);
        if a.members[k] == v {
          EqualIsPatchable(v);
        }
      } else if v != Null {
        WholeValueArrives(if k in a.members then a.members[k] else Null, v);
      }
    }
  }

  lemma {:induction false} EqualIsPatchable(v: Json)
    requires v.Obj?
    ensures Patchable(v, v)
    decreases v
  {
    forall k | k in v.members
      ensures PatchableMember(v, v, k)
    {
      if v.members[k].Obj? {
        EqualIsPatchable(v.members[k]);
      }
    }
  }

  datatype Resource = Resource(meta: map<string, Json>, spec: Json, status: Json)

  const UID := "uid"
  const RESOURCE_VERSION := "resourceVersion"
  const PRECONDITIONS: set<string> := {UID, RESOURCE_VERSION}

  /** The metadata of a zero ObjectMeta. */
  const ZERO_META: map<string, Json> := map["creationTimestamp" := Null]

  function Marshal(r: Resource): Json {
    Obj(map["metadata" := Obj(r.meta), "spec" := r.spec, "status" := r.status])
  }

  function PreconditionsOf(meta: map<string, Json>): map<string, Json> {
    map k | k in PRECONDITIONS && k in meta :: meta[k]
  }

  /** The metadata to be reached: that of the new object under the identity and revision of the old one. */
  function NewMeta(before: Resource, obj: Resource): map<string, Json> {
    (obj.meta - PRECONDITIONS) + PreconditionsOf(before.meta)
  }

  /** The halves of the old and the new resource that a patch of metadata and spec is computed from. */
  function SpecHalf(meta: map<string, Json>, spec: Json): Json {
    Obj(map["metadata" := Obj(meta), "spec" := spec])
  }

  /** Those for a patch of the status: everything else is a zero value. */
  function StatusHalf(meta: map<string, Json>, status: Json): Json {
    Obj(map["metadata" := Obj(meta), "spec" := Null, "status" := status])
  }

  function SpecPatch(before: Resource, obj: Resource): (d: Json)
    ensures d.Obj?
  {
    Diff(SpecHalf(before.meta - PRECONDITIONS, before.spec), SpecHalf(NewMeta(before, obj), obj.spec))
  }

  function StatusPatch(before: Resource, obj: Resource): (d: Json)
    ensures d.Obj?
  {
    Diff(StatusHalf(ZERO_META, before.status), StatusHalf(ZERO_META + PreconditionsOf(before.meta), obj.status))
  }

  datatype Commit = Nothing | ProgrammerError | Patch(data: Json, toStatus: bool)

  function CommitOf(before: Resource, obj: Resource): Commit {
    var specOrMetaChanged := before.meta != obj.meta || before.spec != obj.spec;
    var statusChanged := before.status != obj.status;
    if specOrMetaChanged && statusChanged then ProgrammerError
    else if !specOrMetaChanged && !statusChanged then Nothing
    else if specOrMetaChanged then
      Patch(SpecPatch(before, obj), false)
    else
      Patch(StatusPatch(before, obj), true)
  }

  /** The old object came from the server: it has a uid and a revision. */
  predicate Identified(r: Resource) {
    forall k | k in PRECONDITIONS :: k in r.meta && r.meta[k].Str?
  }

  /** Taking the preconditions out of the old metadata changes only that they are sent along, not what they leave. */
  lemma MetaArrives(t: map<string, Json>, b: map<string, Json>)
    requires forall k | k in PRECONDITIONS :: k in t && t[k].Str? && k in b && b[k] == t[k]
    ensures var a := t - PRECONDITIONS;
            && (forall k | k in PRECONDITIONS ::
                  k in Diff(Obj(a), Obj(b)).members && Diff(Obj(a), Obj(b)).members[k] == t[k])
            && (MergePatch(Obj(t), Diff(Obj(a), Obj(b))) == Obj(b) <==> Patchable(Obj(a), Obj(b)))
  {
    var a := t - PRECONDITIONS;
    var d := Diff(Obj(a), Obj(b));
    var rt, ra := MergePatch(Obj(t), d).members, MergePatch(Obj(a), d).members;
    forall k
      ensures k in rt <==> k in ra
      ensures k in rt ==> rt[k] == ra[k]
    {
      if k in PRECONDITIONS {
        assert k !in a && d.members[k] == b[k];
        assert MergePatch(t[k], b[k]) == b[k] == MergePatch(Null, b[k]);
      }
    }
    assert rt == ra;
    PatchYieldsNew(Obj(a), Obj(b));
  }

  function Get(m: map<string, Json>, k: string): Option<Json> {
    if k in m then Some(m[k]) else None
  }

  /** What a patch makes of one member. */
  function PatchedMember(v: Option<Json>, patch: Option<Json>): Option<Json> {
    match patch
    case None => v
    case Some(Null) => None
    case Some(p) => Some(MergePatch(if v.Some? then v.value else Null, p))
  }

  lemma MembersArePatchedAlone(t: map<string, Json>, d: map<string, Json>)
    ensures MergePatch(Obj(t), Obj(d)).Obj?
    ensures forall k :: Get(MergePatch(Obj(t), Obj(d)).members, k) == PatchedMember(Get(t, k), Get(d, k))
  {
  }

  /** The member of a difference depends on that member alone. */
  function DiffMember(a: Option<Json>, b: Option<Json>): Option<Json> {
    if b.None? then (if a.None? then None else Some(Null))
    else if a.None? then b
    else if a.value.Obj? && b.value.Obj? then
      (if Diff(a.value, b.value).members == map[] then None else Some(Diff(a.value, b.value)))
    else if a == b then None
    else b
  }

  lemma DiffIsMemberwise(a: map<string, Json>, b: map<string, Json>)
    ensures forall k :: Get(Diff(Obj(a), Obj(b)).members, k) == DiffMember(Get(a, k), Get(b, k))
  {
  }

  lemma DiffOfSpecHalves(am: map<string, Json>, bm: map<string, Json>, a: Json, b: Json)
    ensures var d := Diff(SpecHalf(am, a), SpecHalf(bm, b)).members;
            && d.Keys <= {"metadata", "spec"}
            && Get(d, "metadata") == DiffMember(Some(Obj(am)), Some(Obj(bm)))
            && Get(d, "spec") == DiffMember(Some(a), Some(b))
            && Get(d, "status") == None
  {
    var A, B := SpecHalf(am, a).members, SpecHalf(bm, b).members;
    DiffIsMemberwise(A, B);
    assert Get(A, "metadata") == Some(Obj(am)) && Get(B, "metadata") == Some(Obj(bm));
    assert Get(A, "spec") == Some(a) && Get(B, "spec") == Some(b);
    DiffKeys(Obj(A), Obj(B));
  }

  lemma DiffOfStatusHalves(am: map<string, Json>, bm: map<string, Json>, a: Json, b: Json)
    ensures var d := Diff(StatusHalf(am, a), StatusHalf(bm, b)).members;
            && d.Keys <= {"metadata", "spec", "status"}
            && Get(d, "metadata") == DiffMember(Some(Obj(am)), Some(Obj(bm)))
            && Get(d, "spec") == None
            && Get(d, "status") == DiffMember(Some(a), Some(b))
  {
    var A, B := StatusHalf(am, a).members, StatusHalf(bm, b).members;
    DiffIsMemberwise(A, B);
    assert Get(A, "metadata") == Some(Obj(am)) && Get(B, "metadata") == Some(Obj(bm));
    assert Get(A, "spec") == Get(B, "spec") == Some(Null);
    assert Get(A, "status") == Some(a) && Get(B, "status") == Some(b);
    DiffKeys(Obj(A), Obj(B));
  }

  /** A member reaches its new value exactly if that is free of new nulls. */
  predicate Reaches(a: Json, b: Json) {
    if a.Obj? && b.Obj? then Patchable(a, b) else a == b || NullFree(b)
  }

  lemma MemberReaches(a: Json, b: Json)
    ensures PatchedMember(Some(a), DiffMember(Some(a), Some(b))) == Some(b) <==> Reaches(a, b)
  {
    var A, B := Obj(map["x" := a]), Obj(map["x" := b]);
    MemberArrives(A, B, "x");
    MembersArePatchedAlone(A.members, Diff(A, B).members);
    DiffIsMemberwise(A.members, B.members);
    assert Get(MergePatch(A, Diff(A, B)).members, "x") ==
           PatchedMember(Get(A.members, "x"), Get(Diff(A, B).members, "x"));
    assert PatchableMember(A, B, "x") == Reaches(a, b);
  }

  predicate CarriesPreconditions(patch: Json, before: Resource) {
    && patch.Obj? && "metadata" in patch.members && patch.members["metadata"].Obj?
    && forall k | k in PRECONDITIONS ::
         && k in patch.members["metadata"].members && k in before.meta
         && patch.members["metadata"].members[k] == before.meta[k]
  }

  /** A resource is what its three members say. */
  lemma MarshalledMembers(j: Json, r: Resource)
    requires j.Obj? && j.members.Keys <= {"metadata", "spec", "status"}
    ensures j == Marshal(r) <==>
            && Get(j.members, "metadata") == Some(Obj(r.meta))
            && Get(j.members, "spec") == Some(r.spec)
            && Get(j.members, "status") == Some(r.status)
  {
  }

  lemma PatchedKeys(t: Json, d: Json)
    requires t.Obj? && d.Obj?
    ensures MergePatch(t, d).Obj? && MergePatch(t, d).members.Keys <= t.members.Keys + d.members.Keys
  {
  }

  lemma DiffKeys(a: Json, b: Json)
    requires a.Obj? && b.Obj?
    ensures Diff(a, b).members.Keys <= a.members.Keys + b.members.Keys
  {
  }

  /** Commit of metadata and spec. The patch names the uid and the revision of the old object. Applied to the old
      object it yields the new metadata and spec, under the old uid and revision, and the old status, exactly if the
      change brings no new null. */
  lemma SpecCommitIsCorrect(before: Resource, obj: Resource)
    requires Identified(before) && (before.meta != obj.meta || before.spec != obj.spec) && before.status == obj.status
    ensures var c := CommitOf(before, obj);
            && c.Patch? && !c.toStatus && c.data.Obj? && c.data.members.Keys <= {"metadata", "spec"}
            && CarriesPreconditions(c.data, before)
            && (MergePatch(Marshal(before), c.data) ==
                Marshal(Resource(NewMeta(before, obj), obj.spec, before.status)) <==>
                Reaches(Obj(before.meta - PRECONDITIONS), Obj(NewMeta(before, obj))) && Reaches(before.spec, obj.spec))
  {
    var b := NewMeta(before, obj);
    SpecPatchMembers(before, obj);
    MetaArrives(before.meta, b);
    MemberReaches(before.spec, obj.spec);
    PatchedThreeWays(before, SpecPatch(before, obj), Resource(b, obj.spec, before.status));
  }

  lemma SpecPatchMembers(before: Resource, obj: Resource)
    requires Identified(before)
    ensures var d := SpecPatch(before, obj).members;
            && d.Keys <= {"metadata", "spec"}
            && Get(d, "metadata") == Some(Diff(Obj(before.meta - PRECONDITIONS), Obj(NewMeta(before, obj))))
            && Get(d, "spec") == DiffMember(Some(before.spec), Some(obj.spec))
            && Get(d, "status") == None
  {
    var am, b := before.meta - PRECONDITIONS, NewMeta(before, obj);
    DiffOfSpecHalves(am, b, before.spec, obj.spec);
    MetaArrives(before.meta, b);
    assert UID in Diff(Obj(am), Obj(b)).members;
  }

  /** The three members of a patched resource. */
  lemma PatchedThreeWays(before: Resource, d: Json, want: Resource)
    requires d.Obj? && d.members.Keys <= {"metadata", "spec", "status"}
    ensures MergePatch(Marshal(before), d) == Marshal(want) <==>
            && PatchedMember(Some(Obj(before.meta)), Get(d.members, "metadata")) == Some(Obj(want.meta))
            && PatchedMember(Some(before.spec), Get(d.members, "spec")) == Some(want.spec)
            && PatchedMember(Some(before.status), Get(d.members, "status")) == Some(want.status)
  {
    var r := MergePatch(Marshal(before), d);
    PatchedKeys(Marshal(before), d);
    MembersArePatchedAlone(Marshal(before).members, d.members);
    MarshalledMembers(r, want);
    assert Get(r.members, "metadata") == PatchedMember(Some(Obj(before.meta)), Get(d.members, "metadata"));
    assert Get(r.members, "spec") == PatchedMember(Some(before.spec), Get(d.members, "spec"));
    assert Get(r.members, "status") == PatchedMember(Some(before.status), Get(d.members, "status"));
  }

  /** Commit of the status, likewise: metadata and spec stay as they were. */
  lemma StatusCommitIsCorrect(before: Resource, obj: Resource)
    requires Identified(before) && before.meta == obj.meta && before.spec == obj.spec && before.status != obj.status
    ensures var c := CommitOf(before, obj);
            && c.Patch? && c.toStatus && c.data.Obj? && c.data.members.Keys <= {"metadata", "spec", "status"}
            && CarriesPreconditions(c.data, before)
            && (MergePatch(Marshal(before), c.data) == Marshal(Resource(before.meta, before.spec, obj.status)) <==>
                Reaches(before.status, obj.status))
  {
    OnlyPreconditionsDiffer(before);
    StatusPatchMembers(before, obj);
    MemberReaches(before.status, obj.status);
    PatchedThreeWays(before, StatusPatch(before, obj), Resource(before.meta, before.spec, obj.status));
  }

  lemma StatusPatchMembers(before: Resource, obj: Resource)
    requires Identified(before)
    ensures var d := StatusPatch(before, obj).members;
            && d.Keys <= {"metadata", "spec", "status"}
            && Get(d, "metadata") == Some(Obj(PreconditionsOf(before.meta)))
            && Get(d, "spec") == None
            && Get(d, "status") == DiffMember(Some(before.status), Some(obj.status))
  {
    var pre := PreconditionsOf(before.meta);
    DiffOfStatusHalves(ZERO_META, ZERO_META + pre, before.status, obj.status);
    OnlyPreconditionsDiffer(before);
    assert UID in pre;
  }

  lemma OnlyPreconditionsDiffer(before: Resource)
    requires Identified(before)
    ensures var pre := PreconditionsOf(before.meta);
            && Diff(Obj(ZERO_META), Obj(ZERO_META + pre)) == Obj(pre)
            && MergePatch(Obj(before.meta), Obj(pre)) == Obj(before.meta)
  {
  }

  /** What is stored after a commit that meets its preconditions; None if the program panics. */
  function StoredAfter(before: Resource, c: Commit): Option<Json> {
    match c
    case Patch(data, _) => Some(MergePatch(Marshal(before), data))
    case Nothing => Some(Marshal(before))
    case ProgrammerError => None
  }

  /** The metadata to be reached is the new one, under the old uid and revision. */
  lemma NewMetaIsNew(before: Resource, obj: Resource)
    requires Identified(before)
    ensures forall k | k !in {"uid", "resourceVersion"} :: Get(NewMeta(before, obj), k) == Get(obj.meta, k)
    ensures forall k | k in {"uid", "resourceVersion"} :: Get(NewMeta(before, obj), k) == Get(before.meta, k)
  {
  }

  /** Whatever has changed, the commit makes the stored object the new one, under the old uid and revision, exactly if
      not both halves have changed and none of the changes brings a new null. It panics exactly if both have changed,
      and sends nothing exactly if none has. */
  lemma CommitIsExact(before: Resource, obj: Resource)
    requires Identified(before)
    ensures StoredAfter(before, CommitOf(before, obj)).None? <==>
            before.status != obj.status && (before.meta != obj.meta || before.spec != obj.spec)
    ensures CommitOf(before, obj).Nothing? <==> before == obj
    ensures StoredAfter(before, CommitOf(before, obj)) ==
            Some(Marshal(Resource(NewMeta(before, obj), obj.spec, obj.status)))
            <==> && (before.status == obj.status || (before.meta == obj.meta && before.spec == obj.spec))
                 && Reaches(Obj(before.meta - PRECONDITIONS), Obj(NewMeta(before, obj)))
                 && Reaches(before.spec, obj.spec) && Reaches(before.status, obj.status)
  {
    if before.status == obj.status {
      ReachesItself(obj.status);
    }
    if before.meta == obj.meta && before.spec == obj.spec {
      OldMetaIsReached(before, obj);
      ReachesItself(obj.spec);
      if before.status != obj.status {
        StatusCommitIsCorrect(before, obj);
      }
    } else if before.status == obj.status {
      SpecCommitIsCorrect(before, obj);
    } else {
      assert Marshal(before).members["status"] == before.status;
    }
  }

  lemma ReachesItself(v: Json)
    ensures Reaches(v, v)
  {
    if v.Obj? {
      EqualIsPatchable(v);
    }
  }

  lemma OldMetaIsReached(before: Resource, obj: Resource)
    requires Identified(before) && before.meta == obj.meta
    ensures NewMeta(before, obj) == before.meta
    ensures Reaches(Obj(before.meta - PRECONDITIONS), Obj(before.meta))
  {
    assert NewMeta(before, obj) == before.meta;
    var a, b := Obj(before.meta - PRECONDITIONS), Obj(before.meta);
    EqualIsPatchable(b);
    forall k | k in b.members
      ensures PatchableMember(a, b, k)
    {
      assert PatchableMember(b, b, k);
    }
  }
}
