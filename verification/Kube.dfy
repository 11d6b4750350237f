/** The Kubernetes objects and the API server that every controller of the model talks to. */
module Kube {

  datatype Option<+T> = None | Some(value: T)

  /** A JSON value, as held by an unstructured object or sent as a patch. */
  datatype Json =
    | Null
    | Bool(b: bool)
    | Num(n: int)
    | Str(s: string)
    | Arr(items: seq<Json>)
    | Obj(members: map<string, Json>)

  datatype OwnerReference = OwnerReference(
    apiVersion: string, kind: string, name: string, uid: nat, controller: bool, blockOwnerDeletion: bool)

  /** An unstructured object. A uid, resourceVersion or creationTimestamp of 0 stands for the empty value,
      `deleting` for a non-zero deletionTimestamp, and absent and empty label or annotation maps are identified.
      `fields` holds all that is not metadata ("spec", "status", "data", ...). */
  datatype Object = Object(
    namespace: string,
    name: string,
    uid: nat,
    resourceVersion: nat,
    creationTimestamp: nat,
    deleting: bool,
    labels: map<string, string>,
    annotations: map<string, string>,
    ownerReferences: seq<OwnerReference>,
    finalizers: seq<string>,
    managedFields: seq<string>,
    fields: map<string, Json>)

  /** unstructured.NestedFieldNoCopy for a single top-level field. */
  function Field(o: Object, field: string): Option<Json> {
    if field in o.fields then Some(o.fields[field]) else None
  }

  /** unstructured.SetNestedField when the value is there, unstructured.RemoveNestedField when it is not. */
  function WithField(o: Object, field: string, value: Option<Json>): Object {
    match value
    case Some(v) => o.(fields := o.fields[field := v])
    case None => o.(fields := o.fields - {field})
  }

  /** What the API server answers to a write. */
  datatype Answer = Accepted | NotFound | Conflict | AlreadyExists

  /** The state of one object in one cluster, the revision counter, and the answer of the last write.
      Each accepted write takes a new revision, so an unchanged `clock` means that nothing was written. */
  datatype Written = Written(cell: Option<Object>, clock: nat, answer: Answer)

  function Create(cell: Option<Object>, clock: nat, o: Object): Written {
    if cell.Some? then Written(cell, clock, AlreadyExists)
    else
      Written(
        Some(o.(uid := clock + 1, resourceVersion := clock + 1, creationTimestamp := clock + 1, deleting := false)),
        clock + 1, Accepted)
  }

  /** An update keeps what the server owns and is refused when it names another uid or an old revision.
      A terminating object goes away with its last finalizer. */
  function Update(cell: Option<Object>, clock: nat, o: Object): Written {
    match cell
    case None => Written(cell, clock, NotFound)
    case Some(e) =>
      if (o.uid != 0 && o.uid != e.uid) || (o.resourceVersion != 0 && o.resourceVersion != e.resourceVersion) then
        Written(cell, clock, Conflict)
      else
        var s := o.(uid := e.uid, resourceVersion := clock + 1, creationTimestamp := e.creationTimestamp,
                    deleting := e.deleting, managedFields := e.managedFields);
        Written(if s.deleting && s.finalizers == [] then None else Some(s), clock + 1, Accepted)
  }

  /** A write to the status subresource: everything but the status is taken from the stored object. */
  function UpdateStatus(cell: Option<Object>, clock: nat, o: Object): Written {
    match cell
    case None => Written(cell, clock, NotFound)
    case Some(e) =>
      if (o.uid != 0 && o.uid != e.uid) || (o.resourceVersion != 0 && o.resourceVersion != e.resourceVersion) then
        Written(cell, clock, Conflict)
      else
        Written(Some(WithField(e, "status", Field(o, "status")).(resourceVersion := clock + 1)), clock + 1, Accepted)
  }

  /** A forced server-side apply by the only field manager: it stores the object, creating it when it is absent. */
  function Apply(cell: Option<Object>, clock: nat, o: Object): Written {
    if cell.None? then Create(cell, clock, o) else Update(cell, clock, o)
  }

  /** A delete removes an object without finalizers and marks any other as terminating. */
  function Delete(cell: Option<Object>, clock: nat): Written {
    match cell
    case None => Written(cell, clock, NotFound)
    case Some(e) =>
      if e.finalizers == [] then Written(None, clock + 1, Accepted)
      else Written(Some(e.(deleting := true, resourceVersion := clock + 1)), clock + 1, Accepted)
  }

  /** Every stored object has a uid and a revision handed out by the server, and is held by a finalizer if
      terminating. */
  predicate Wellformed(cell: Option<Object>, clock: nat) {
    cell.Some? ==>
      && 0 < cell.value.uid <= clock
      && 0 < cell.value.resourceVersion <= clock
      && (cell.value.deleting ==> cell.value.finalizers != [])
  }

  predicate MatchesAt(s: string, sub: string, i: nat)
    requires i + |sub| <= |s|
  {
    s[i..i + |sub|] == sub
  }

  /** strings.Contains */
  predicate Contains(s: string, sub: string) {
    exists i: nat | i <= |s| - |sub| :: MatchesAt(s, sub, i)
  }

  lemma ContainsIsInfix(s: string, sub: string)
    ensures Contains(s, sub) <==> exists a, b :: s == a + sub + b
  {
    if Contains(s, sub) {
      var i: nat :| i <= |s| - |sub| && MatchesAt(s, sub, i);
      assert s == s[..i] + sub + s[i + |sub|..];
    }
    if a, b :| s == a + sub + b {
      assert MatchesAt(s, sub, |a|);
    }
  }

  /** strings.HasPrefix */
  predicate HasPrefix(s: string, prefix: string) {
    |prefix| <= |s| && s[..|prefix|] == prefix
  }

  /** Of two prefixes of the same string one is a prefix of the other. */
  lemma CommonPrefix(s: string, p: string, q: string)
    requires HasPrefix(s, p) && HasPrefix(s, q)
    ensures HasPrefix(p, q) || HasPrefix(q, p)
  {
  }

  /** strings.TrimPrefix */
  function TrimPrefix(s: string, prefix: string): (r: string)
    ensures HasPrefix(s, prefix) ==> s == prefix + r
    ensures !HasPrefix(s, prefix) ==> r == s
  {
    if HasPrefix(s, prefix) then s[|prefix|..] else s
  }
}
