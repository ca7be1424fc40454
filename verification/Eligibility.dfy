/** Which inbounds a user may use: computed from the service's host links, from the service host map,
    by a query, and for users without a service from the excluded tags of each proxy. */
module Eligibility {
  import opened Prelude
  import opened Inbounds
  import opened Text
  import HostMap

  type Host = HostMap.Host

  /** A proxy row. `secret` is the stored UUID or password, `flow` says whether older settings hold the XTLS
      flow, `excluded` are the excluded inbound tags. */
  datatype Proxy = Proxy(kind: ProxyType, secret: Option<string>, flow: bool, excluded: seq<string>)

  /** A user row: `enabled` for status active or on hold, `vision` for a recognised XTLS flow. */
  datatype User = User(username: string, enabled: bool, key: Option<string>, vision: bool, service: Option<nat>,
                       proxies: seq<Proxy>)

  // ---------- the meaning ----------

  predicate ServiceOffers(hosts: seq<Host>, service: nat, tag: string) {
    exists h <- hosts :: HostMap.Serves(h, Some(service), tag)
  }

  /** The tag is configured for the proxy's protocol, and the user's service offers it, or without a
      service the proxy does not exclude it. */
  predicate Eligible(ix: Index, hosts: seq<Host>, u: User, p: Proxy, tag: string) {
    && tag in ix.byTag && ix.byTag[tag].protocol == Protocol(p.kind)
    && match u.service
       case Some(service) => ServiceOffers(hosts, service, tag)
       case None => tag !in p.excluded
  }

  // ---------- allowed tags of a service ----------

  /** Tags of enabled linked hosts: from the loaded links, and by the fallback query. */
  function LinkedTags(hosts: seq<Host>, service: nat): set<string> {
    set h <- hosts | !h.isDisabled && service in h.links && h.inboundTag != "" :: h.inboundTag
  }

  /** Tags whose list in the host map is not empty. */
  function MapTags(hosts: seq<Host>, tags: set<string>, service: nat): set<string> {
    set t <- tags | HostMap.HostList(hosts, Some(service), t) != []
  }

  function OrElse(a: set<string>, b: set<string>): set<string> {
    if a != {} then a else b
  }

  /** `_get_service_allowed_tags`: the host map, then the query. The map may fail to load. */
  function GeneratorTags(hosts: seq<Host>, tags: set<string>, service: nat, mapLoads: bool): set<string> {
    OrElse(if mapLoads then MapTags(hosts, tags, service) else {}, LinkedTags(hosts, service))
  }

  /** `User.inbounds`: the loaded links, then the host map, then the query. */
  function UserTags(hosts: seq<Host>, tags: set<string>, service: nat, linksLoad: bool, mapLoads: bool): set<string> {
    OrElse(if linksLoad then LinkedTags(hosts, service) else {}, GeneratorTags(hosts, tags, service, mapLoads))
  }

  lemma MapTagsOffered(hosts: seq<Host>, tags: set<string>, service: nat, tag: string)
    requires HostMap.TableRows(hosts) && tag in tags
    ensures tag in MapTags(hosts, tags, service) <==> ServiceOffers(hosts, service, tag)
  {
    var list := HostMap.HostList(hosts, Some(service), tag);
    HostMap.HostListIsQueryResult(hosts, Some(service), tag);
    if list != [] {
      assert list[0] in list;
    }
    if ServiceOffers(hosts, service, tag) {
      var h :| h in hosts && HostMap.Serves(h, Some(service), tag);
      assert h in list;
    }
  }

  lemma LinkedTagsOffered(hosts: seq<Host>, service: nat, tag: string)
    requires tag != ""
    ensures tag in LinkedTags(hosts, service) <==> ServiceOffers(hosts, service, tag)
  {
    if ServiceOffers(hosts, service, tag) {
      var h :| h in hosts && HostMap.Serves(h, Some(service), tag);
    }
  }

  /** On configured tags all the computations give the service's offer, whichever sources happen to
      load, although only the host map is limited to configured tags. */
  lemma AllowedTagsAgree(hosts: seq<Host>, tags: set<string>, service: nat, linksLoad: bool, mapLoads: bool, tag: string)
    requires HostMap.TableRows(hosts) && tag in tags && "" !in tags
    ensures tag in UserTags(hosts, tags, service, linksLoad, mapLoads) <==> ServiceOffers(hosts, service, tag)
    ensures tag in GeneratorTags(hosts, tags, service, mapLoads) <==> ServiceOffers(hosts, service, tag)
    ensures tag in MapTags(hosts, tags, service) <==> ServiceOffers(hosts, service, tag)
  {
    MapTagsOffered(hosts, tags, service, tag);
    LinkedTagsOffered(hosts, service, tag);
    var mapTags := MapTags(hosts, tags, service);
    if mapTags != {} && LinkedTags(hosts, service) == {} {
      var t :| t in mapTags;
      MapTagsOffered(hosts, tags, service, t);
      LinkedTagsOffered(hosts, service, t);
    }
  }

  // ---------- excluded tags ----------

  /** What `group_concat` yields for the excluded tags of a proxy; no row gives null. */
  function Concatenated(excluded: seq<string>): Option<string> {
    if excluded == [] then None else Some(Join(excluded, ','))
  }

  /** The tags read back from the concatenation. */
  function SplitBack(concatenated: Option<string>): seq<string> {
    if concatenated.None? || concatenated.value == "" then []
    else NonEmpty(Split(concatenated.value, ','))
  }

  function NonEmpty(parts: seq<string>): seq<string> {
    if parts == [] then []
    else (if parts[0] == "" then [] else [parts[0]]) + NonEmpty(parts[1..])
  }

  lemma {:induction false} NonEmptyMembers(parts: seq<string>)
    ensures forall p :: p in NonEmpty(parts) <==> p in parts && p != ""
  {
    if parts != [] {
      NonEmptyMembers(parts[1..]);
      assert forall p :: p in parts <==> p == parts[0] || p in parts[1..];
    }
  }

  /** The comma-joined column recovers exactly the excluded tags, because no tag has a comma in it. */
  lemma ExclusionsSurvive(excluded: seq<string>, tag: string)
    requires forall t <- excluded :: ',' !in t
    requires ValidTag(tag)
    ensures tag in SplitBack(Concatenated(excluded)) <==> tag in excluded
  {
    if excluded != [] {
      SplitOfJoin(excluded, ',');
      NonEmptyMembers(excluded);
      if Join(excluded, ',') == "" {
        assert Split("", ',') == [""];
        assert excluded == [""];
      }
    }
  }

  /** With a comma in an excluded tag, inbounds nobody excluded are lost. */
  lemma CommaExcludesOthers()
    ensures "a" in SplitBack(Concatenated(["a,b"])) && "a" !in ["a,b"]
  {
    assert Split("b", ',') == ["b"];
    assert "a,b"[..1] == "a" && "a,b"[2..] == "b";
    FindInConcat("a", ',', "b");
    assert "a" + [','] + "b" == "a,b";
    assert Split("a,b", ',') == ["a", "b"];
    NonEmptyMembers(["a", "b"]);
  }

  // ---------- User.inbounds ----------

  /** The tags listed for one proxy, in the order of the protocol's inbounds. */
  function ProxyTags(ix: Index, hosts: seq<Host>, u: User, p: Proxy): seq<string> {
    FilterTags(OfProtocol(ix.inbounds, Protocol(p.kind)), hosts, u, p)
  }

  predicate Offered(hosts: seq<Host>, u: User, p: Proxy, tag: string) {
    match u.service
    case Some(service) => ServiceOffers(hosts, service, tag)
    case None => tag !in p.excluded
  }

  function FilterTags(inbounds: seq<Inbound>, hosts: seq<Host>, u: User, p: Proxy): seq<string> {
    if inbounds == [] then []
    else
      var init, i := FilterTags(inbounds[..|inbounds| - 1], hosts, u, p), inbounds[|inbounds| - 1];
      if Offered(hosts, u, p, i.tag) then init + [i.tag] else init
  }

  lemma {:induction false} FilterTagsMembers(inbounds: seq<Inbound>, hosts: seq<Host>, u: User, p: Proxy)
    ensures forall tag :: tag in FilterTags(inbounds, hosts, u, p) <==>
              Offered(hosts, u, p, tag) && exists i <- inbounds :: i.tag == tag
  {
    if inbounds != [] {
      FilterTagsMembers(inbounds[..|inbounds| - 1], hosts, u, p);
      assert inbounds == inbounds[..|inbounds| - 1] + [inbounds[|inbounds| - 1]];
    }
  }

  /** A tag is listed for a proxy exactly when the user may use it there. */
  lemma ProxyTagsAreEligible(ix: Index, hosts: seq<Host>, u: User, p: Proxy, tag: string)
    requires Agrees(ix)
    ensures tag in ProxyTags(ix, hosts, u, p) <==> Eligible(ix, hosts, u, p, tag)
  {
    var inbounds := OfProtocol(ix.inbounds, Protocol(p.kind));
    FilterTagsMembers(inbounds, hosts, u, p);
    OfProtocolMembers(ix.inbounds, Protocol(p.kind));
    if Eligible(ix, hosts, u, p, tag) {
      assert ix.byTag[tag] in inbounds;
    }
  }

  predicate ValidHosts(ix: Index, hosts: seq<Host>) {
    HostMap.TableRows(hosts) && forall tag <- ix.byTag :: ValidTag(tag)
  }

  /** `User.inbounds`: for each proxy the tags of its protocol that the user may use. */
  method UserInbounds(ix: Index, hosts: seq<Host>, u: User, linksLoad: bool, mapLoads: bool)
    returns (result: seq<(ProxyType, seq<string>)>)
    requires Agrees(ix) && ValidHosts(ix, hosts)
    ensures |result| == |u.proxies|
    ensures forall k :: 0 <= k < |result| ==> result[k] == (u.proxies[k].kind, ProxyTags(ix, hosts, u, u.proxies[k]))
  {
    var allowed := if u.service.Some? then UserTags(hosts, ix.byTag.Keys, u.service.value, linksLoad, mapLoads) else {};
    forall tag | tag in ix.byTag && u.service.Some?
      ensures tag in allowed <==> ServiceOffers(hosts, u.service.value, tag)
    {
      AllowedTagsAgree(hosts, ix.byTag.Keys, u.service.value, linksLoad, mapLoads, tag);
    }
    result := [];
    for k := 0 to |u.proxies|
      invariant |result| == k
      invariant forall j :: 0 <= j < k ==> result[j] == (u.proxies[j].kind, ProxyTags(ix, hosts, u, u.proxies[j]))
    {
      var listed := ListTags(ix, hosts, u, u.proxies[k], allowed);
      result := result + [(u.proxies[k].kind, listed)];
    }
  }

  method ListTags(ix: Index, hosts: seq<Host>, u: User, p: Proxy, allowed: set<string>) returns (listed: seq<string>)
    requires Agrees(ix)
    requires u.service.Some? ==>
               forall tag <- ix.byTag :: tag in allowed <==> ServiceOffers(hosts, u.service.value, tag)
    ensures listed == ProxyTags(ix, hosts, u, p)
  {
    var inbounds := GetDefault(ix.byProtocol, Protocol(p.kind), []);
    OfProtocolMembers(ix.inbounds, Protocol(p.kind));
    listed := [];
    for j := 0 to |inbounds|
      invariant listed == FilterTags(inbounds[..j], hosts, u, p)
    {
      assert inbounds[..j + 1][..j] == inbounds[..j];
      var tag := inbounds[j].tag;
      assert inbounds[j] in ix.inbounds;
      if if u.service.Some? then tag in allowed else tag !in p.excluded {
        listed := listed + [tag];
      }
    }
    assert inbounds[..|inbounds|] == inbounds;
  }
}
