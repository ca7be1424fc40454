/** The inbound index of an Xray configuration: the resolved inbounds as a list, by tag and by
    protocol, and who may use which of them. */
module Inbounds {
  import opened Prelude

  datatype ProxyType = VMess | VLESS | Trojan | Shadowsocks

  function Protocol(t: ProxyType): string {
    match t
    case VMess => "vmess"
    case VLESS => "vless"
    case Trojan => "trojan"
    case Shadowsocks => "shadowsocks"
  }

  lemma ProtocolsDiffer(a: ProxyType, b: ProxyType)
    requires Protocol(a) == Protocol(b)
    ensures a == b
  {
    assert Protocol(VMess)[1] == 'm' && Protocol(VLESS)[1] == 'l' && Protocol(Trojan)[1] == 'r' && Protocol(Shadowsocks)[1] == 'h';
  }

  const PROXY_PROTOCOLS := {"vmess", "vless", "trojan", "shadowsocks"}

  /** A configured client: the email that names it, and what it authenticates with. The secret of a
      password protocol can be null. */
  datatype Account = Account(kind: ProxyType, secret: Option<string>, vision: bool)
  datatype Client = Client(email: string, account: Account)

  /** An entry of `inbounds` in the configuration. `flowCapable` says whether its transport and
      security support the XTLS flow. */
  datatype RawInbound = RawInbound(tag: string, protocol: string, flowCapable: bool, clients: seq<Client>)

  /** A resolved inbound. */
  datatype Inbound = Inbound(tag: string, protocol: string, flowCapable: bool)

  datatype Index = Index(inbounds: seq<Inbound>, byTag: map<string, Inbound>, byProtocol: map<string, seq<Inbound>>)

  predicate UniqueTags(raw: seq<RawInbound>) {
    forall i, j :: 0 <= i < j < |raw| ==> raw[i].tag != raw[j].tag
  }

  /** What `_validate` demands of a tag. */
  predicate ValidTag(tag: string) {
    tag != "" && ',' !in tag
  }

  predicate Managed(r: RawInbound, excluded: set<string>) {
    r.protocol in PROXY_PROTOCOLS && r.tag !in excluded
  }

  function Resolved(raw: seq<RawInbound>, excluded: set<string>): seq<Inbound> {
    if raw == [] then []
    else
      var init, r := Resolved(raw[..|raw| - 1], excluded), raw[|raw| - 1];
      if Managed(r, excluded) then init + [Inbound(r.tag, r.protocol, r.flowCapable)] else init
  }

  /** The inbounds that count: those of the four proxy protocols whose tags are not excluded, in order. */
  lemma {:induction false} ResolvedIs(raw: seq<RawInbound>, excluded: set<string>, r: RawInbound)
    ensures Resolved(raw + [r], excluded) == Resolved(raw, excluded) +
      if r.protocol in {"vmess", "vless", "trojan", "shadowsocks"} && r.tag !in excluded
      then [Inbound(r.tag, r.protocol, r.flowCapable)] else []
    ensures Resolved([], excluded) == []
  {
    assert (raw + [r])[..|raw|] == raw;
  }

  function OfProtocol(inbounds: seq<Inbound>, protocol: string): seq<Inbound> {
    if inbounds == [] then []
    else
      var init, i := OfProtocol(inbounds[..|inbounds| - 1], protocol), inbounds[|inbounds| - 1];
      if i.protocol == protocol then init + [i] else init
  }

  predicate DistinctTags(inbounds: seq<Inbound>) {
    forall i, j :: 0 <= i < j < |inbounds| ==> inbounds[i].tag != inbounds[j].tag
  }

  /** The two lookups and the list say the same: the tag map holds exactly the listed inbounds, each
      once and under its own tag, and the protocol map splits the list by protocol, in order. */
  ghost predicate Agrees(ix: Index) {
    && DistinctTags(ix.inbounds)
    && (forall i <- ix.inbounds :: i.tag in ix.byTag && ix.byTag[i.tag] == i)
    && (forall tag <- ix.byTag :: ix.byTag[tag] in ix.inbounds && ix.byTag[tag].tag == tag)
    && (forall p: string :: GetDefault(ix.byProtocol, p, []) == OfProtocol(ix.inbounds, p))
  }

  lemma {:induction false} OfProtocolMembers(inbounds: seq<Inbound>, p: string)
    ensures forall i :: i in OfProtocol(inbounds, p) <==> i in inbounds && i.protocol == p
  {
    if inbounds != [] {
      OfProtocolMembers(inbounds[..|inbounds| - 1], p);
      assert inbounds == inbounds[..|inbounds| - 1] + [inbounds[|inbounds| - 1]];
    }
  }

  lemma {:induction false} OfProtocolDistinct(inbounds: seq<Inbound>, p: string)
    requires DistinctTags(inbounds)
    ensures DistinctTags(OfProtocol(inbounds, p))
  {
    if inbounds != [] {
      var init, last := inbounds[..|inbounds| - 1], inbounds[|inbounds| - 1];
      OfProtocolDistinct(init, p);
      OfProtocolMembers(init, p);
      forall i <- OfProtocol(init, p) ensures i.tag != last.tag {
        var k :| 0 <= k < |init| && init[k] == i;
        assert inbounds[k] == i;
      }
    }
  }

  function Add(ix: Index, i: Inbound): Index {
    Index(ix.inbounds + [i], ix.byTag[i.tag := i],
          ix.byProtocol[i.protocol := GetDefault(ix.byProtocol, i.protocol, []) + [i]])
  }

  lemma OfProtocolAppend(inbounds: seq<Inbound>, i: Inbound, p: string)
    ensures OfProtocol(inbounds + [i], p) == OfProtocol(inbounds, p) + (if i.protocol == p then [i] else [])
  {
    assert (inbounds + [i])[..|inbounds|] == inbounds;
  }

  lemma AddTag(ix: Index, i: Inbound)
    requires Agrees(ix) && i.tag !in ix.byTag
    ensures var ix' := Add(ix, i);
            && DistinctTags(ix'.inbounds)
            && (forall x <- ix'.inbounds :: x.tag in ix'.byTag && ix'.byTag[x.tag] == x)
            && (forall tag <- ix'.byTag :: ix'.byTag[tag] in ix'.inbounds && ix'.byTag[tag].tag == tag)
  {
    forall k | 0 <= k < |ix.inbounds| ensures ix.inbounds[k].tag != i.tag {
      assert ix.inbounds[k] in ix.inbounds;
    }
  }

  lemma AddAgrees(ix: Index, i: Inbound)
    requires Agrees(ix) && i.tag !in ix.byTag
    ensures Agrees(Add(ix, i))
  {
    AddTag(ix, i);
    AddProtocol(ix, i);
  }

  lemma AddProtocol(ix: Index, i: Inbound)
    requires forall p: string :: GetDefault(ix.byProtocol, p, []) == OfProtocol(ix.inbounds, p)
    ensures forall p: string :: GetDefault(Add(ix, i).byProtocol, p, []) == OfProtocol(Add(ix, i).inbounds, p)
  {
    forall p: string ensures GetDefault(Add(ix, i).byProtocol, p, []) == OfProtocol(Add(ix, i).inbounds, p) {
      OfProtocolAppend(ix.inbounds, i, p);
    }
  }

  predicate TagsOf(raw: seq<RawInbound>, byTag: map<string, Inbound>) {
    forall tag <- byTag :: exists r <- raw :: r.tag == tag
  }

  lemma TagsOfMore(raw: seq<RawInbound>, r: RawInbound, byTag: map<string, Inbound>, i: Inbound)
    requires TagsOf(raw, byTag)
    ensures TagsOf(raw + [r], byTag) && TagsOf(raw + [r], byTag[r.tag := i])
  {
    assert r in raw + [r];
    assert forall x <- raw :: x in raw + [r];
  }

  lemma FreshTag(raw: seq<RawInbound>, n: nat, byTag: map<string, Inbound>)
    requires UniqueTags(raw) && n < |raw| && TagsOf(raw[..n], byTag)
    ensures raw[n].tag !in byTag
  {}

  class XRayConfig {
    const raw: seq<RawInbound>
    const excluded: set<string>
    var inbounds: seq<Inbound>
    var byTag: map<string, Inbound>
    var byProtocol: map<string, seq<Inbound>>

    constructor (raw: seq<RawInbound>, excluded: set<string>)
      requires UniqueTags(raw)
      ensures this.raw == raw && this.excluded == excluded
      ensures inbounds == Resolved(raw, excluded) && Agrees(TheIndex())
    {
      this.raw, this.excluded := raw, excluded;
      inbounds, byTag, byProtocol := [], map[], map[];
      new;
      ResolveInbounds();
    }

    function TheIndex(): Index
      reads this
    {
      Index(inbounds, byTag, byProtocol)
    }

    /** `_resolve_inbounds`, as far as the indexes go. */
    method ResolveInbounds()
      requires UniqueTags(raw) && inbounds == [] && byTag == map[] && byProtocol == map[]
      modifies this`inbounds, this`byTag, this`byProtocol
      ensures inbounds == Resolved(raw, excluded) && Agrees(TheIndex())
    {
      for n := 0 to |raw|
        invariant inbounds == Resolved(raw[..n], excluded)
        invariant Agrees(TheIndex())
        invariant TagsOf(raw[..n], byTag)
      {
        assert raw[..n + 1][..n] == raw[..n];
        var r := raw[n];
        var i := Inbound(r.tag, r.protocol, r.flowCapable);
        TagsOfMore(raw[..n], r, byTag, i);
        if r.protocol in PROXY_PROTOCOLS && r.tag !in excluded {
          FreshTag(raw, n, byTag);
          AddAgrees(TheIndex(), i);
          inbounds := inbounds + [i];
          byTag := byTag[i.tag := i];
          byProtocol := byProtocol[i.protocol := GetDefault(byProtocol, i.protocol, []) + [i]];
        }
        assert raw[..n + 1] == raw[..n] + [r];
      }
      assert raw[..|raw|] == raw;
    }
  }
}
