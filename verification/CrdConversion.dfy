/** sdk/apis/kubebind/v1alpha1/helpers: an APIServiceExport made from a CRD, and the CRD that a consumer makes from
    it. */
module CrdConversion {
  import opened Kube

  /** A version of a CRD; a schema or subresources that are nil are None. */
  datatype CrdVersion = CrdVersion(
    name: string, served: bool, storage: bool, deprecated: bool, warning: Option<string>, columns: seq<Json>,
    schema: Option<Json>, subresources: Option<Json>)

  datatype Crd = Crd(name: string, group: string, names: Json, scope: string, webhook: bool, versions: seq<CrdVersion>)

  /** A version of an export: the schema as raw bytes, "" for none, and the subresources, Null for the zero value. */
  datatype ExportVersion = ExportVersion(
    name: string, served: bool, storage: bool, deprecated: bool, warning: Option<string>, columns: seq<Json>,
    raw: string, subresources: Json)

  datatype ExportSpec = ExportSpec(group: string, names: Json, scope: string, versions: seq<ExportVersion>)

  /** Writing and reading schemas. */
  datatype Codec = Codec(marshal: Json -> string, unmarshal: string -> Option<Json>) {
    ghost predicate Lossless() {
      forall schema :: marshal(schema) != "" && unmarshal(marshal(schema)) == Some(schema)
    }

    function Exported(v: CrdVersion): ExportVersion {
      ExportVersion(v.name, v.served, v.storage, v.deprecated, v.warning, v.columns,
                    if v.schema.Some? then marshal(v.schema.value) else "",
                    if v.subresources.Some? then v.subresources.value else Null)
    }

    function Imported(v: ExportVersion): Option<CrdVersion> {
      var schema := if v.raw == "" then None else unmarshal(v.raw);
      if v.raw != "" && schema.None? then None
      else
        Some(CrdVersion(v.name, v.served, v.storage, v.deprecated, v.warning, v.columns, schema, Some(v.subresources)))
    }

    /** The bytes are what marshalling makes of the schema they stand for. */
    predicate Canonical(raw: string) {
      raw == "" || (unmarshal(raw).Some? && marshal(unmarshal(raw).value) == raw)
    }
  }

  /** The served versions; with conversion by a webhook only the first, which becomes the storage version. */
  function ExportedVersions(c: Codec, vs: seq<CrdVersion>, webhook: bool): seq<ExportVersion> {
    if vs == [] then []
    else if !vs[0].served then ExportedVersions(c, vs[1..], webhook)
    else if webhook then [c.Exported(vs[0]).(storage := true)]
    else [c.Exported(vs[0])] + ExportedVersions(c, vs[1..], webhook)
  }

  function ToExport(c: Codec, crd: Crd): ExportSpec {
    ExportSpec(crd.group, crd.names, crd.scope, ExportedVersions(c, crd.versions, crd.webhook))
  }

  function ImportedVersions(c: Codec, vs: seq<ExportVersion>): Option<seq<CrdVersion>> {
    if vs == [] then Some([])
    else
      var v, rest := c.Imported(vs[0]), ImportedVersions(c, vs[1..]);
      if v.None? || rest.None? then None else Some([v.value] + rest.value)
  }

  /** The CRD has no conversion, whatever that of the original was. */
  function ToCrd(c: Codec, name: string, spec: ExportSpec): Option<Crd> {
    var versions := ImportedVersions(c, spec.versions);
    if versions.None? then None else Some(Crd(name, spec.group, spec.names, spec.scope, false, versions.value))
  }

  function StorageCount(vs: seq<ExportVersion>): nat {
    if vs == [] then 0 else (if vs[0].storage then 1 else 0) + StorageCount(vs[1..])
  }

  function CrdStorageCount(vs: seq<CrdVersion>): nat {
    if vs == [] then 0 else (if vs[0].storage then 1 else 0) + CrdStorageCount(vs[1..])
  }

  ghost predicate AnyServed(vs: seq<CrdVersion>) {
    exists v | v in vs :: v.served
  }

  ghost predicate StorageServed(vs: seq<CrdVersion>) {
    exists v | v in vs :: v.served && v.storage
  }

  /** A CRD has one storage version. The export has one exactly if that version is served, or if the webhook rule
      makes one of a served version; otherwise it has none, and its CRD is not valid. */
  lemma OneStorageVersion(c: Codec, crd: Crd)
    requires CrdStorageCount(crd.versions) == 1
    ensures StorageCount(ToExport(c, crd).versions) ==
            if (if crd.webhook then AnyServed(crd.versions) else StorageServed(crd.versions)) then 1 else 0
  {
    if crd.webhook {
      FirstServedStores(c, crd.versions);
    } else {
      ServedStorage(c, crd.versions);
    }
  }

  lemma {:induction false} FirstServedStores(c: Codec, vs: seq<CrdVersion>)
    ensures StorageCount(ExportedVersions(c, vs, true)) == if AnyServed(vs) then 1 else 0
  {
    if vs == [] {
    } else {
      FirstServedStores(c, vs[1..]);
      assert forall v :: v in vs <==> v == vs[0] || v in vs[1..];
    }
  }

  lemma {:induction false} ServedStorage(c: Codec, vs: seq<CrdVersion>)
    ensures StorageCount(ExportedVersions(c, vs, false)) <= CrdStorageCount(vs)
    ensures StorageCount(ExportedVersions(c, vs, false)) == 0 <==> !StorageServed(vs)
  {
    if vs == [] {
    } else {
      ServedStorage(c, vs[1..]);
      assert forall v :: v in vs <==> v == vs[0] || v in vs[1..];
      if vs[0].served {
        assert ExportedVersions(c, vs, false)[1..] == ExportedVersions(c, vs[1..], false);
      }
    }
  }

  /** An export turns into a CRD, and that into the same export, exactly if all its versions are served and its
      schemas are in the form in which they are written. */
  lemma ExportRoundTrip(c: Codec, name: string, spec: ExportSpec)
    ensures (var crd := ToCrd(c, name, spec); crd.Some? && ToExport(c, crd.value) == spec) <==>
            forall v | v in spec.versions :: v.served && c.Canonical(v.raw)
  {
    VersionsRoundTrip(c, spec.versions);
  }

  /** What a version keeps on its way into a CRD. */
  predicate SameImported(c: Codec, e: ExportVersion, v: CrdVersion) {
    && v.name == e.name && v.served == e.served && v.storage == e.storage && v.deprecated == e.deprecated
    && v.warning == e.warning && v.columns == e.columns && v.subresources == Some(e.subresources)
    && (if e.raw == "" then v.schema.None? else v.schema.Some? && v.schema == c.unmarshal(e.raw))
  }

  /** A CRD is made exactly if all schemas can be read, and has all versions of the export in their order. */
  lemma ImportIsExact(c: Codec, name: string, spec: ExportSpec)
    ensures ToCrd(c, name, spec).None? <==> exists v | v in spec.versions :: v.raw != "" && c.unmarshal(v.raw).None?
    ensures ToCrd(c, name, spec).Some? ==>
              var vs := ToCrd(c, name, spec).value.versions;
              |vs| == |spec.versions| && forall i | 0 <= i < |vs| :: SameImported(c, spec.versions[i], vs[i])
  {
    ImportedAreKept(c, spec.versions);
  }

  lemma {:induction false} ImportedAreKept(c: Codec, es: seq<ExportVersion>)
    ensures ImportedVersions(c, es).None? <==> exists e | e in es :: e.raw != "" && c.unmarshal(e.raw).None?
    ensures ImportedVersions(c, es).Some? ==>
              var vs := ImportedVersions(c, es).value;
              |vs| == |es| && forall i | 0 <= i < |vs| :: SameImported(c, es[i], vs[i])
  {
    if es == [] {
    } else {
      ImportedAreKept(c, es[1..]);
      assert forall e :: e in es <==> e == es[0] || e in es[1..];
    }
  }

  /** What a version keeps on its way into an export. */
  predicate SameVersion(c: Codec, v: CrdVersion, e: ExportVersion) {
    && e.name == v.name && e.served == v.served && e.deprecated == v.deprecated && e.warning == v.warning
    && e.columns == v.columns
    && (if v.schema.None? then e.raw == "" else e.raw == c.marshal(v.schema.value))
    && e.subresources == (if v.subresources.None? then Null else v.subresources.value)
  }

  /** The export of a CRD has its group, names and scope, and, without a webhook, exactly its served versions in their
      order, with their storage flags. The CRD made of an export has its own name, the export's group, names and
      scope, and no conversion. */
  lemma ConversionKeeps(c: Codec, crd: Crd, name: string)
    ensures var spec := ToExport(c, crd);
            && spec.group == crd.group && spec.names == crd.names && spec.scope == crd.scope
            && (!crd.webhook ==> ServedInOrder(c, crd.versions, spec.versions))
            && (crd.webhook ==> FirstServed(c, crd.versions, spec.versions))
            && (ToCrd(c, name, spec).Some? ==>
                  var made := ToCrd(c, name, spec).value;
                  && made.name == name && made.group == crd.group && made.names == crd.names && made.scope == crd.scope
                  && !made.webhook)
  {
    if crd.webhook {
      FirstServedIsKept(c, crd.versions);
    } else {
      ServedAreKept(c, crd.versions);
    }
  }

  ghost predicate ServedInOrder(c: Codec, vs: seq<CrdVersion>, es: seq<ExportVersion>) {
    if vs == [] then es == []
    else if !vs[0].served then ServedInOrder(c, vs[1..], es)
    else
      es != [] && SameVersion(c, vs[0], es[0]) && es[0].storage == vs[0].storage && ServedInOrder(c, vs[1..], es[1..])
  }

  /** Just the first served version, if there is one. */
  ghost predicate FirstServed(c: Codec, vs: seq<CrdVersion>, es: seq<ExportVersion>) {
    if vs == [] then es == []
    else if !vs[0].served then FirstServed(c, vs[1..], es)
    else |es| == 1 && SameVersion(c, vs[0], es[0])
  }

  lemma {:induction false} ServedAreKept(c: Codec, vs: seq<CrdVersion>)
    ensures ServedInOrder(c, vs, ExportedVersions(c, vs, false))
  {
    if vs == [] {
    } else {
      ServedAreKept(c, vs[1..]);
      if vs[0].served {
        assert ExportedVersions(c, vs, false)[1..] == ExportedVersions(c, vs[1..], false);
      }
    }
  }

  lemma {:induction false} FirstServedIsKept(c: Codec, vs: seq<CrdVersion>)
    ensures FirstServed(c, vs, ExportedVersions(c, vs, true))
  {
    if vs == [] {
    } else {
      FirstServedIsKept(c, vs[1..]);
    }
  }

  lemma {:induction false} VersionsRoundTrip(c: Codec, vs: seq<ExportVersion>)
    ensures (ImportedVersions(c, vs).Some? && ExportedVersions(c, ImportedVersions(c, vs).value, false) == vs) <==>
            forall v | v in vs :: v.served && c.Canonical(v.raw)
    ensures ImportedVersions(c, vs).Some? ==> |ExportedVersions(c, ImportedVersions(c, vs).value, false)| <= |vs|
  {
    if vs == [] {
    } else {
      VersionsRoundTrip(c, vs[1..]);
      assert forall v :: v in vs <==> v == vs[0] || v in vs[1..];
      assert vs == [vs[0]] + vs[1..];
      if ImportedVersions(c, vs).Some? {
        var crdVersions := ImportedVersions(c, vs).value;
        assert crdVersions[1..] == ImportedVersions(c, vs[1..]).value;
      }
    }
  }

  /** Normalising a CRD to an export is idempotent: making a CRD of the export and exporting that changes nothing. */
  lemma NormalisingIsIdempotent(c: Codec, crd: Crd)
    requires c.Lossless()
    ensures var spec := ToExport(c, crd);
            ToCrd(c, crd.name, spec).Some? && ToExport(c, ToCrd(c, crd.name, spec).value) == spec
  {
    ExportedIsNormal(c, crd.versions, crd.webhook);
    ExportRoundTrip(c, crd.name, ToExport(c, crd));
  }

  lemma {:induction false} ExportedIsNormal(c: Codec, vs: seq<CrdVersion>, webhook: bool)
    requires c.Lossless()
    ensures forall v | v in ExportedVersions(c, vs, webhook) :: v.served && c.Canonical(v.raw)
  {
    if vs == [] {
    } else {
      ExportedIsNormal(c, vs[1..], webhook);
    }
  }

  /** CRDToServiceExport */
  method CRDToServiceExport(c: Codec, crd: Crd) returns (spec: ExportSpec)
    ensures spec == ToExport(c, crd)
  {
    var versions: seq<ExportVersion> := [];
    var i := 0;
    while i < |crd.versions|
      invariant 0 <= i <= |crd.versions|
      invariant crd.webhook ==> versions == []
      invariant ExportedVersions(c, crd.versions, crd.webhook) ==
                versions + ExportedVersions(c, crd.versions[i..], crd.webhook)
    {
      var v := crd.versions[i];
      assert crd.versions[i..][1..] == crd.versions[i + 1..];
      if v.served {
        versions := versions + [c.Exported(v)];
        if crd.webhook {
          versions := versions[0 := versions[0].(storage := true)];
          return ExportSpec(crd.group, crd.names, crd.scope, versions);
        }
      }
      i := i + 1;
    }
    return ExportSpec(crd.group, crd.names, crd.scope, versions);
  }

  /** ServiceExportToCRD; a schema that cannot be read ends it. */
  method ServiceExportToCRD(c: Codec, name: string, spec: ExportSpec) returns (crd: Option<Crd>)
    ensures crd == ToCrd(c, name, spec)
  {
    var versions: seq<CrdVersion> := [];
    var i := 0;
    while i < |spec.versions|
      invariant 0 <= i <= |spec.versions|
      invariant var all, rest := ImportedVersions(c, spec.versions), ImportedVersions(c, spec.versions[i..]);
                all.Some? == rest.Some? && (all.Some? ==> all.value == versions + rest.value)
    {
      assert spec.versions[i..][1..] == spec.versions[i + 1..];
      var v := c.Imported(spec.versions[i]);
      if v.None? {
        return None;
      }
      versions := versions + [v.value];
      i := i + 1;
    }
    assert ImportedVersions(c, spec.versions).value == versions;
    return Some(Crd(name, spec.group, spec.names, spec.scope, false, versions));
  }
}
