/** Which keys the events of the two copies of an object put into the queues of the spec and the status controller,
    and which namespaces the backend assigns. */
module Routing {
  import opened Kube
  import opened ClusterScoped

  /** An APIServiceNamespace: its own namespace and name, and the status namespace, "" while not ready. */
  datatype ServiceNamespace = ServiceNamespace(namespace: string, name: string, status: string)

  /** cache.MetaNamespaceKeyFunc */
  function MetaKey(ns: string, name: string): string {
    if ns == "" then name else ns + "/" + name
  }

  function Slash(s: string): (i: nat)
    ensures i <= |s| && '/' !in s[..i] && (i < |s| ==> s[i] == '/')
  {
    if s == "" || s[0] == '/' then 0 else 1 + Slash(s[1..])
  }

  /** cache.SplitMetaNamespaceKey */
  function SplitKey(key: string): Option<(string, string)> {
    var i := Slash(key);
    if i == |key| then Some(("", key))
    else if '/' in key[i + 1..] then None
    else Some((key[..i], key[i + 1..]))
  }

  predicate Plain(s: string) {
    '/' !in s
  }

  lemma {:induction false} SlashAfterPlain(s: string, rest: string)
    requires Plain(s)
    ensures Slash(s) == |s| && Slash(s + "/" + rest) == |s|
  {
    if s == "" {
    } else {
      assert s[0] in s && (s + "/" + rest)[1..] == s[1..] + "/" + rest;
      SlashAfterPlain(s[1..], rest);
    }
  }

  /** Splitting reads back what the key was made of, and only that. */
  lemma SplitReadsBack(ns: string, name: string)
    requires Plain(ns) && Plain(name)
    ensures SplitKey(MetaKey(ns, name)) == Some((ns, name))
  {
    SlashAfterPlain(name, "");
    SlashAfterPlain(ns, name);
    if ns != "" {
      var key := MetaKey(ns, name);
      assert key[..|ns|] == ns && key[|ns| + 1..] == name;
    }
  }

  lemma SplitIsExact(key: string)
    requires SplitKey(key).Some?
    ensures var (ns, name) := SplitKey(key).value;
            Plain(ns) && Plain(name) && (ns != "" || Plain(key) ==> key == MetaKey(ns, name))
  {
  }

  /** The first service namespace of this provider namespace with the status namespace. */
  function ByStatus(sns: seq<ServiceNamespace>, providerNs: string, status: string): Option<ServiceNamespace> {
    if sns == [] then None
    else if sns[0].status == status && sns[0].namespace == providerNs then Some(sns[0])
    else ByStatus(sns[1..], providerNs, status)
  }

  function ByName(sns: seq<ServiceNamespace>, providerNs: string, name: string): Option<ServiceNamespace> {
    if sns == [] then None
    else if sns[0].name == name && sns[0].namespace == providerNs then Some(sns[0])
    else ByName(sns[1..], providerNs, name)
  }

  /** The spec controller on an event of a provider copy: the consumer key to work on, if any. */
  function SpecKeyForProvider(sns: seq<ServiceNamespace>, providerNs: string, upstreamKey: string): Option<string> {
    match SplitKey(upstreamKey)
    case None => None
    case Some((ns, name)) =>
      if ns != "" then
        match ByStatus(sns, providerNs, ns)
        case None => None
        case Some(sn) => Some(sn.name + "/" + name)
      else if Behead(upstreamKey, providerNs) == upstreamKey then None
      else Some(Behead(upstreamKey, providerNs))
  }

  /** The status controller on an event of a provider copy. */
  function StatusKeyForProvider(sns: seq<ServiceNamespace>, providerNs: string, key: string): Option<string> {
    match SplitKey(key)
    case None => None
    case Some((ns, _)) =>
      if ns != "" then (if ByStatus(sns, providerNs, ns).Some? then Some(key) else None)
      else if Behead(key, providerNs) == key then None
      else Some(key)
  }

  /** The status controller on an event of a consumer object: the provider key to work on, if any. */
  function StatusKeyForConsumer(sns: seq<ServiceNamespace>, providerNs: string, downstreamKey: string): Option<string> {
    match SplitKey(downstreamKey)
    case None => None
    case Some((ns, name)) =>
      if ns != "" then
        match ByName(sns, providerNs, ns)
        case None => None
        case Some(sn) => if sn.status != "" then Some(sn.status + "/" + name) else None
      else Some(Prepend(downstreamKey, providerNs))
  }

  /** Within the provider namespace names are unique, assigned status namespaces are unique, and both are plain. */
  ghost predicate WellMapped(sns: seq<ServiceNamespace>, providerNs: string) {
    && (forall a, b | a in sns && b in sns && a.namespace == b.namespace == providerNs ::
          (a.name == b.name ==> a == b) && (a.status == b.status != "" ==> a == b))
    && (forall a | a in sns && a.namespace == providerNs :: Plain(a.name) && Plain(a.status) && a.name != "")
  }

  lemma {:induction false} Lookups(sns: seq<ServiceNamespace>, providerNs: string, key: string)
    ensures ByStatus(sns, providerNs, key).Some? ==>
              var sn := ByStatus(sns, providerNs, key).value;
              sn in sns && sn.namespace == providerNs && sn.status == key
    ensures ByName(sns, providerNs, key).Some? ==>
              var sn := ByName(sns, providerNs, key).value;
              sn in sns && sn.namespace == providerNs && sn.name == key
    ensures ByStatus(sns, providerNs, key).None? ==>
              forall sn | sn in sns && sn.namespace == providerNs :: sn.status != key
    ensures ByName(sns, providerNs, key).None? ==>
              forall sn | sn in sns && sn.namespace == providerNs :: sn.name != key
  {
    if sns == [] {
    } else {
      Lookups(sns[1..], providerNs, key);
      assert forall sn :: sn in sns <==> sn == sns[0] || sn in sns[1..];
    }
  }

  /** A key made by MetaKey. */
  predicate IsKey(key: string) {
    SplitKey(key).Some? && (HasNamespace(key) || Plain(key))
  }

  predicate HasNamespace(key: string) {
    SplitKey(key).Some? && SplitKey(key).value.0 != ""
  }

  lemma KeysAreMetaKeys(key: string)
    ensures IsKey(key) <==> exists ns, name :: Plain(ns) && Plain(name) && key == MetaKey(ns, name)
  {
    if IsKey(key) {
      SplitIsExact(key);
    }
    if ns, name :| Plain(ns) && Plain(name) && key == MetaKey(ns, name) {
      SplitReadsBack(ns, name);
    }
  }

  /** Key routing agrees in both directions: an event of the provider copy leads the spec controller to a consumer key
      exactly if an event under that consumer key leads the status controller back; and the status controller takes a
      provider event exactly if the spec controller does. */
  lemma RoutesAgree(sns: seq<ServiceNamespace>, providerNs: string, up: string, down: string)
    requires WellMapped(sns, providerNs) && Plain(providerNs) && IsKey(up) && IsKey(down)
    ensures SpecKeyForProvider(sns, providerNs, up) == Some(down) <==>
            StatusKeyForConsumer(sns, providerNs, down) == Some(up)
    ensures SpecKeyForProvider(sns, providerNs, up).Some? <==> StatusKeyForProvider(sns, providerNs, up) == Some(up)
  {
    var (uns, uname) := SplitKey(up).value;
    var (dns, dname) := SplitKey(down).value;
    SplitIsExact(up);
    SplitIsExact(down);
    RoutesKeepTheKind(sns, providerNs, up, down);
    if HasNamespace(up) && HasNamespace(down) {
      NamespacedRoutesAgree(sns, providerNs, uns, uname, dns, dname);
    } else if !HasNamespace(up) && !HasNamespace(down) {
      BeheadPrepend(up, providerNs);
      BeheadPrepend(down, providerNs);
    }
  }

  /** And they lead somewhere: the keys of the two copies of an object lead to each other, through the ready service
      namespace or through the prefix; and provider keys that belong to no ready service namespace or lack the prefix
      lead nowhere. */
  lemma RoutesArrive(sns: seq<ServiceNamespace>, providerNs: string, sn: ServiceNamespace, name: string,
                     foreign: string)
    requires WellMapped(sns, providerNs) && Plain(providerNs) && Plain(name) && Plain(foreign)
    requires sn in sns && sn.namespace == providerNs
    ensures sn.status != "" ==>
              && SpecKeyForProvider(sns, providerNs, MetaKey(sn.status, name)) == Some(MetaKey(sn.name, name))
              && StatusKeyForConsumer(sns, providerNs, MetaKey(sn.name, name)) == Some(MetaKey(sn.status, name))
              && StatusKeyForProvider(sns, providerNs, MetaKey(sn.status, name)) == Some(MetaKey(sn.status, name))
    ensures sn.status == "" ==> StatusKeyForConsumer(sns, providerNs, MetaKey(sn.name, name)) == None
    ensures SpecKeyForProvider(sns, providerNs, providerNs + "-" + name) == Some(name)
    ensures StatusKeyForConsumer(sns, providerNs, name) == Some(providerNs + "-" + name)
    ensures StatusKeyForProvider(sns, providerNs, providerNs + "-" + name) == Some(providerNs + "-" + name)
    ensures foreign != "" && (forall o | o in sns && o.namespace == providerNs :: o.status != foreign) ==>
              && SpecKeyForProvider(sns, providerNs, MetaKey(foreign, name)) == None
              && StatusKeyForProvider(sns, providerNs, MetaKey(foreign, name)) == None
    ensures !HasPrefix(foreign, providerNs + "-") ==>
              && SpecKeyForProvider(sns, providerNs, foreign) == None
              && StatusKeyForProvider(sns, providerNs, foreign) == None
  {
    SplitReadsBack(sn.status, name);
    SplitReadsBack(sn.name, name);
    SplitReadsBack(foreign, name);
    SplitReadsBack("", name);
    SplitReadsBack("", foreign);
    SplitReadsBack("", Prepend(name, providerNs));
    Lookups(sns, providerNs, sn.status);
    Lookups(sns, providerNs, sn.name);
    Lookups(sns, providerNs, foreign);
    BeheadPrepend(name, providerNs);
    BeheadPrepend(foreign, providerNs);
  }

  /** Keys with a namespace lead to such keys, and keys without to keys without. */
  lemma RoutesKeepTheKind(sns: seq<ServiceNamespace>, providerNs: string, up: string, down: string)
    requires Plain(providerNs) && IsKey(up) && IsKey(down)
    ensures SpecKeyForProvider(sns, providerNs, up) == Some(down) ==> HasNamespace(up) == HasNamespace(down)
    ensures StatusKeyForConsumer(sns, providerNs, down) == Some(up) ==> HasNamespace(up) == HasNamespace(down)
  {
    PlainOrNamespaced(up);
    PlainOrNamespaced(down);
    if HasNamespace(up) && SpecKeyForProvider(sns, providerNs, up) == Some(down) {
      var name := ByStatus(sns, providerNs, SplitKey(up).value.0).value.name;
      assert down[|name|] == '/';
    }
    if HasNamespace(down) && StatusKeyForConsumer(sns, providerNs, down) == Some(up) {
      var status := ByName(sns, providerNs, SplitKey(down).value.0).value.status;
      assert up[|status|] == '/';
    }
  }

  lemma PlainOrNamespaced(key: string)
    requires IsKey(key)
    ensures Plain(key) <==> !HasNamespace(key)
  {
    if HasNamespace(key) {
      assert key[Slash(key)] == '/';
    }
  }

  lemma NamespacedRoutesAgree(sns: seq<ServiceNamespace>, providerNs: string, uns: string, uname: string,
                              dns: string, dname: string)
    requires WellMapped(sns, providerNs) && Plain(uns) && Plain(uname) && Plain(dns) && Plain(dname)
    requires uns != "" && dns != ""
    ensures var up, down := MetaKey(uns, uname), MetaKey(dns, dname);
            && (SpecKeyForProvider(sns, providerNs, up) == Some(down) <==>
                StatusKeyForConsumer(sns, providerNs, down) == Some(up))
            && (SpecKeyForProvider(sns, providerNs, up).Some? <==>
                StatusKeyForProvider(sns, providerNs, up) == Some(up))
  {
    var up, down := MetaKey(uns, uname), MetaKey(dns, dname);
    SplitReadsBack(uns, uname);
    SplitReadsBack(dns, dname);
    Lookups(sns, providerNs, uns);
    Lookups(sns, providerNs, dns);
    var s, c := ByStatus(sns, providerNs, uns), ByName(sns, providerNs, dns);
    if s.Some? {
      SplitReadsBack(s.value.name, uname);
      assert MetaKey(s.value.name, uname) == down <==> s.value.name == dns && uname == dname;
    }
    if c.Some? && c.value.status != "" {
      SplitReadsBack(c.value.status, dname);
      assert MetaKey(c.value.status, dname) == up <==> c.value.status == uns && uname == dname;
    }
  }

  /** Two provider namespaces can share a prefixed name exactly when one of them, with its dash, is a prefix of the
      other: then two consumers claim the same cluster-scoped key, and two service namespaces the same namespace. */
  lemma PrefixesOverlap(a: string, b: string)
    ensures (exists key :: Claims(key, a) && Claims(key, b)) <==>
            HasPrefix(a + "-", b + "-") || HasPrefix(b + "-", a + "-")
    ensures (exists m, n :: m != "" && n != "" && Prepend(m, a) == Prepend(n, b)) <==>
            HasPrefix(a + "-", b + "-") || HasPrefix(b + "-", a + "-")
  {
    forall key
      ensures Claims(key, a) ==> Prefixed(key, a)
      ensures Claims(key, b) ==> Prefixed(key, b)
    {
      BeheadPrepend(key, a);
      BeheadPrepend(key, b);
    }
    if key :| Claims(key, a) && Claims(key, b) {
      CommonPrefix(key, a + "-", b + "-");
    }
    if m, n :| m != "" && n != "" && Prepend(m, a) == Prepend(n, b) {
      BeheadPrepend(m, a);
      BeheadPrepend(n, b);
      CommonPrefix(Prepend(m, a), a + "-", b + "-");
    }
    if HasPrefix(a + "-", b + "-") {
      SharedName(a, b);
    }
    if HasPrefix(b + "-", a + "-") {
      SharedName(b, a);
    }
  }

  /** The consumer with this provider namespace takes the cluster-scoped key for the name of one of its objects. */
  predicate Claims(key: string, providerNs: string) {
    Behead(key, providerNs) != key && Behead(key, providerNs) != ""
  }

  lemma SharedName(a: string, b: string)
    requires HasPrefix(a + "-", b + "-")
    ensures exists m, n :: m != "" && n != "" && Prepend(m, a) == Prepend(n, b) && Claims(Prepend(m, a), a)
                           && Claims(Prepend(n, b), b)
  {
    var p, q := a + "-", b + "-";
    var m, n := "x", p[|q|..] + "x";
    assert p == q + p[|q|..];
    assert Prepend(m, a) == p + m == q + n == Prepend(n, b);
    BeheadPrepend(m, a);
    BeheadPrepend(n, b);
  }

  /** A controller with its queue; both controllers look through the service namespaces in the same way. */
  class Controller {
    const providerNamespace: string
    var serviceNamespaces: seq<ServiceNamespace>
    var queue: seq<string>

    constructor (providerNamespace: string)
      ensures this.providerNamespace == providerNamespace && queue == [] && serviceNamespaces == []
    {
      this.providerNamespace, serviceNamespaces, queue := providerNamespace, [], [];
    }

    function Queueing(key: Option<string>): seq<string>
      reads this
    {
      queue + if key.Some? then [key.value] else []
    }

    method FindByStatus(status: string) returns (sn: Option<ServiceNamespace>)
      ensures sn == ByStatus(serviceNamespaces, providerNamespace, status)
    {
      var i := 0;
      while i < |serviceNamespaces|
        invariant 0 <= i <= |serviceNamespaces|
        invariant ByStatus(serviceNamespaces, providerNamespace, status)
                  == ByStatus(serviceNamespaces[i..], providerNamespace, status)
      {
        assert serviceNamespaces[i..][1..] == serviceNamespaces[i + 1..];
        if serviceNamespaces[i].status == status && serviceNamespaces[i].namespace == providerNamespace {
          return Some(serviceNamespaces[i]);
        }
        i := i + 1;
      }
      return None;
    }

    method SpecEnqueueProvider(upstreamKey: string)
      modifies this`queue
      ensures queue == old(Queueing(SpecKeyForProvider(serviceNamespaces, providerNamespace, upstreamKey)))
    {
      var parts := SplitKey(upstreamKey);
      if parts.None? {
        return;
      }
      var (ns, name) := parts.value;
      if ns != "" {
        var sn := FindByStatus(ns);
        if sn.Some? {
          queue := queue + [sn.value.name + "/" + name];
        }
        return;
      }
      if Behead(upstreamKey, providerNamespace) == upstreamKey {
        return;
      }
      queue := queue + [Behead(upstreamKey, providerNamespace)];
    }

    method StatusEnqueueProvider(key: string)
      modifies this`queue
      ensures queue == old(Queueing(StatusKeyForProvider(serviceNamespaces, providerNamespace, key)))
    {
      var parts := SplitKey(key);
      if parts.None? {
        return;
      }
      if parts.value.0 != "" {
        var sn := FindByStatus(parts.value.0);
        if sn.Some? {
          queue := queue + [key];
        }
        return;
      }
      if Behead(key, providerNamespace) == key {
        return;
      }
      queue := queue + [key];
    }

    lemma LeadBack(down: string)
      requires WellMapped(serviceNamespaces, providerNamespace) && Plain(providerNamespace) && IsKey(down)
      ensures forall up | IsKey(up) ::
                Queueing(StatusKeyForConsumer(serviceNamespaces, providerNamespace, down)) == queue + [up] <==>
                SpecKeyForProvider(serviceNamespaces, providerNamespace, up) == Some(down)
    {
      forall up | IsKey(up)
        ensures Queueing(StatusKeyForConsumer(serviceNamespaces, providerNamespace, down)) == queue + [up] <==>
                SpecKeyForProvider(serviceNamespaces, providerNamespace, up) == Some(down)
      {
        RoutesAgree(serviceNamespaces, providerNamespace, up, down);
        var key := StatusKeyForConsumer(serviceNamespaces, providerNamespace, down);
        assert key.Some? ==> Queueing(key)[|queue|] == key.value;
        assert (queue + [up])[|queue|] == up;
      }
    }

    /** Queues exactly the provider key whose events lead the spec controller to this consumer key. */
    method StatusEnqueueConsumer(downstreamKey: string)
      modifies this`queue
      ensures queue == old(Queueing(StatusKeyForConsumer(serviceNamespaces, providerNamespace, downstreamKey)))
      ensures WellMapped(serviceNamespaces, providerNamespace) && Plain(providerNamespace) && IsKey(downstreamKey) ==>
                forall up | IsKey(up) ::
                  queue == old(queue) + [up] <==>
                  SpecKeyForProvider(serviceNamespaces, providerNamespace, up) == Some(downstreamKey)
    {
      if WellMapped(serviceNamespaces, providerNamespace) && Plain(providerNamespace) && IsKey(downstreamKey) {
        LeadBack(downstreamKey);
      }
      var parts := SplitKey(downstreamKey);
      if parts.None? {
        return;
      }
      var (ns, name) := parts.value;
      if ns != "" {
        var sn := ByName(serviceNamespaces, providerNamespace, ns);
        if sn.Some? && sn.value.status != "" {
          queue := queue + [sn.value.status + "/" + name];
        }
        return;
      }
      queue := queue + [Prepend(downstreamKey, providerNamespace)];
    }
  }
}
