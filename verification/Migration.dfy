/** Migration of deprecated stream settings: the WebSocket host header, the TCP host header, and the
    TLS peer name fields. */
module Migration {
  import opened Prelude
  import opened Json
  import Text

  type Dict = map<string, Json>

  /** `str(value)` of values that are not text. */
  type ToText = Json -> string

  // ---------- WebSocket ----------

  /** `"Host" in headers`, which raises for numbers and booleans. */
  function MentionsHost(headers: Json): Outcome<bool> {
    match headers
    case Obj(fields) => Returned("Host" in fields)
    case Arr(items) => Returned(Str("Host") in items)
    case Str(s) => Returned(Text.Contains(s, "Host"))
    case _ => Raised
  }

  function MigrateWs(ws: Dict): Outcome<Dict> {
    var headers := GetDefault(ws, "headers", Obj(map[]));
    if !Truthy(headers) then Returned(ws)
    else
      match MentionsHost(headers)
      case Raised => Raised
      case Returned(false) => Returned(ws)
      case Returned(true) =>
        if !headers.Obj? then Raised
        else
          var hosted := if Truthy(GetDefault(ws, "host", Null)) then ws else ws["host" := headers.fields["Host"]];
          var rest := headers.fields - {"Host"};
          Returned(if rest == map[] then hosted - {"headers"} else hosted["headers" := Obj(rest)])
  }

  // ---------- TCP ----------

  /** `value.get(key, {})`, which raises unless the value is a dictionary. */
  function GetIn(value: Json, key: string): Outcome<Json> {
    if value.Obj? then Returned(GetDefault(value.fields, key, Obj(map[]))) else Raised
  }

  function MigrateRequest(request: Json): Outcome<Json> {
    if !Truthy(request) then Returned(request)
    else
      match GetIn(request, "headers")
      case Raised => Raised
      case Returned(headers) =>
        if !Truthy(headers) then Returned(request)
        else
          match MentionsHost(headers)
          case Raised => Raised
          case Returned(false) => Returned(request)
          case Returned(true) =>
            if !headers.Obj? then Raised
            else if headers.fields["Host"].Str?
            then Returned(Obj(request.fields["headers" := Obj(headers.fields["Host" := Arr([headers.fields["Host"]])])]))
            else Returned(request)
  }

  function MigrateTcp(tcp: Dict): Outcome<Dict> {
    var header := GetDefault(tcp, "header", Obj(map[]));
    if !Truthy(header) then Returned(tcp)
    else if !header.Obj? then Raised
    else if GetDefault(header.fields, "type", Null) != Str("http") then Returned(tcp)
    else
      match MigrateRequest(GetDefault(header.fields, "request", Obj(map[])))
      case Raised => Raised
      case Returned(request) =>
        Returned(if "request" in header.fields then tcp["header" := Obj(header.fields["request" := request])] else tcp)
  }

  // ---------- TLS ----------

  function ItemText(j: Json, text: ToText): string {
    Text.Strip(if j.Str? then j.s else text(j))
  }

  function FirstNonEmpty(items: seq<Json>, text: ToText): string {
    if items == [] then ""
    else if ItemText(items[0], text) != "" then ItemText(items[0], text)
    else FirstNonEmpty(items[1..], text)
  }

  function NonEmptyNames(items: seq<Json>, text: ToText): seq<string> {
    if items == [] then []
    else (if ItemText(items[0], text) != "" then [ItemText(items[0], text)] else []) + NonEmptyNames(items[1..], text)
  }

  function FirstName(value: Json, text: ToText): string {
    match value
    case Arr(items) => FirstNonEmpty(items, text)
    case Null => ""
    case _ => ItemText(value, text)
  }

  function NameList(value: Json, text: ToText): seq<string> {
    match value
    case Str(_) => if ItemText(value, text) != "" then [ItemText(value, text)] else []
    case Arr(items) => NonEmptyNames(items, text)
    case _ => []
  }

  function Texts(names: seq<string>): seq<Json> {
    if names == [] then [] else [Str(names[0])] + Texts(names[1..])
  }

  const BY_NAME := "verifyPeerCertByName"
  const IN_NAMES := "verifyPeerCertInNames"

  /** `normalize_tls_verify_peer_cert_fields`: newer cores want one name, older ones a list. */
  function NormalizeTls(tls: Dict, byName: bool, text: ToText): Dict {
    var first := FirstName(GetDefault(tls, BY_NAME, Null), text);
    var names := NameList(GetDefault(tls, IN_NAMES, Null), text);
    var first' := if first == "" && names != [] then names[0] else first;
    var names' := if names == [] && first' != "" then [first'] else names;
    if byName then
      (if first' != "" then tls[BY_NAME := Str(first')] else tls - {BY_NAME}) - {IN_NAMES}
    else
      (if names' != [] then tls[IN_NAMES := Arr(Texts(names'))] else tls - {IN_NAMES}) - {BY_NAME}
  }

  lemma {:induction false} NamesOfTexts(names: seq<string>, text: ToText)
    requires forall n <- names :: n != "" && Text.Strip(n) == n
    ensures NonEmptyNames(Texts(names), text) == names
  {
    if names != [] {
      assert names[0] in names;
      assert forall n <- names[1..] :: n in names;
      NamesOfTexts(names[1..], text);
      assert Texts(names)[1..] == Texts(names[1..]);
    }
  }

  lemma {:induction false} FirstIsClean(items: seq<Json>, text: ToText)
    ensures Text.Strip(FirstNonEmpty(items, text)) == FirstNonEmpty(items, text)
  {
    if items == [] {
    } else if ItemText(items[0], text) != "" {
      Text.StripTwice(if items[0].Str? then items[0].s else text(items[0]));
    } else {
      FirstIsClean(items[1..], text);
    }
  }

  lemma {:induction false} NamesAreClean(items: seq<Json>, text: ToText)
    ensures forall n <- NonEmptyNames(items, text) :: n != "" && Text.Strip(n) == n
  {
    if items != [] {
      NamesAreClean(items[1..], text);
      Text.StripTwice(if items[0].Str? then items[0].s else text(items[0]));
    }
  }

  lemma FirstNameIsClean(value: Json, text: ToText)
    ensures Text.Strip(FirstName(value, text)) == FirstName(value, text)
  {
    match value
    case Arr(items) => FirstIsClean(items, text);
    case Null =>
    case Str(s) => Text.StripTwice(s);
    case _ => Text.StripTwice(text(value));
  }

  lemma NameListIsClean(value: Json, text: ToText)
    ensures forall n <- NameList(value, text) :: n != "" && Text.Strip(n) == n
  {
    match value
    case Str(s) => Text.StripTwice(s);
    case Arr(items) => NamesAreClean(items, text);
    case _ =>
  }

  /** The names the normalised fields are made of. */
  lemma NamesAreKept(tls: Dict, text: ToText)
    ensures var first := FirstName(GetDefault(tls, BY_NAME, Null), text);
            var names := NameList(GetDefault(tls, IN_NAMES, Null), text);
            var first' := if first == "" && names != [] then names[0] else first;
            var names' := if names == [] && first' != "" then [first'] else names;
            && FirstName(Str(first'), text) == first'
            && NameList(Arr(Texts(names')), text) == names'
  {
    var names := NameList(GetDefault(tls, IN_NAMES, Null), text);
    FirstNameIsClean(GetDefault(tls, BY_NAME, Null), text);
    NameListIsClean(GetDefault(tls, IN_NAMES, Null), text);
    assert names != [] ==> names[0] in names;
    var first := FirstName(GetDefault(tls, BY_NAME, Null), text);
    NamesOfTexts(if names == [] && first != "" then [first] else names, text);
  }

  lemma NormalizeTlsTwice(tls: Dict, byName: bool, text: ToText)
    ensures NormalizeTls(NormalizeTls(tls, byName, text), byName, text) == NormalizeTls(tls, byName, text)
  {
    NamesAreKept(tls, text);
    assert BY_NAME[|BY_NAME| - 1] != IN_NAMES[|IN_NAMES| - 1];
  }

  // ---------- what the migration makes of the settings ----------

  /** WebSocket settings with a `Host` header: the header becomes the host unless there is one that is truthy, and
      the headers go when they held nothing else. All other settings stay, and without the header all do. */
  lemma WsColumns(ws: Dict)
    requires MigrateWs(ws).Returned?
    ensures var r := MigrateWs(ws).value;
      if "headers" in ws && ws["headers"].Obj? && "Host" in ws["headers"].fields then
        var headers := ws["headers"].fields;
        && Get(r, "host") == Some(if "host" in ws && Truthy(ws["host"]) then ws["host"] else headers["Host"])
        && Get(r, "headers") == (if headers.Keys == {"Host"} then None else Some(Obj(headers - {"Host"})))
        && forall k :: k != "host" && k != "headers" ==> Get(r, k) == Get(ws, k)
      else r == ws
  {
    assert "headers" != "host" by { assert "headers"[1] != "host"[1]; }
    if "headers" in ws && ws["headers"].Obj? && "Host" in ws["headers"].fields {
      var headers := ws["headers"].fields;
      if headers.Keys != {"Host"} {
        var k :| k in headers && k != "Host";
        assert k in headers - {"Host"};
      }
    }
  }

  /** It raises for headers that are a number but not 0, true, or text or a list with `Host` in it. */
  lemma WsRaisesIff(ws: Dict)
    ensures MigrateWs(ws).Raised? <==>
      "headers" in ws &&
      match ws["headers"]
      case Num(n) => n != 0
      case Bool(b) => b
      case Str(s) => Text.Contains(s, "Host")
      case Arr(items) => Str("Host") in items
      case _ => false
  {
    assert "Host"[0] == 'H' && !Text.Contains("", "Host");
  }

  /** TCP settings with an HTTP header and a `Host` text among its request headers: the text becomes a list of
      itself. Everything else stays. */
  lemma TcpColumns(tcp: Dict)
    requires MigrateTcp(tcp).Returned?
    ensures var r := MigrateTcp(tcp).value;
      var host := Member(Member(Member(Get(tcp, "header"), "request"), "headers"), "Host");
      if Member(Get(tcp, "header"), "type") == Some(Str("http")) && host.Some? && host.value.Str? then
        var header := tcp["header"].fields;
        var request := header["request"].fields;
        var headers := request["headers"].fields;
        r == tcp["header" := Obj(header["request" := Obj(request["headers" := Obj(headers["Host" := Arr([headers["Host"]])])])])]
      else r == tcp
  {
    if "header" in tcp && tcp["header"].Obj? && "request" in tcp["header"].fields {
      var header := tcp["header"].fields;
      assert tcp["header" := tcp["header"]] == tcp && header["request" := header["request"]] == header;
    }
  }

  /** The value of a key in a value, if that is a dictionary that has it. */
  function Member(value: Option<Json>, key: string): Option<Json> {
    if value.Some? && value.value.Obj? && key in value.value.fields then Some(value.value.fields[key]) else None
  }

  /** The names of a list are its stripped items that are not empty, in order. */
  lemma {:induction false} NamesColumns(a: seq<Json>, b: seq<Json>, text: ToText)
    ensures NonEmptyNames(a + b, text) == NonEmptyNames(a, text) + NonEmptyNames(b, text)
  {
    if a == [] {
      assert a + b == b;
    } else {
      var both := a + b;
      assert both[0] == a[0] && both[1..] == a[1..] + b;
      NamesColumns(a[1..], b, text);
      var name := ItemText(a[0], text);
      Reassociate(if name != "" then [name] else [], NonEmptyNames(a[1..], text), NonEmptyNames(b, text));
    }
  }

  lemma Reassociate<T>(a: seq<T>, b: seq<T>, c: seq<T>)
    ensures a + (b + c) == (a + b) + c
  {}

  lemma NameOfOne(item: string, text: ToText)
    ensures NonEmptyNames([Str(item)], text) == if Text.Strip(item) == "" then [] else [Text.Strip(item)]
  {
    assert [Str(item)][1..] == [];
  }

  /** The first name is the first of them; text is a list of itself, if it is not blank. */
  lemma {:induction false} FirstNameColumns(items: seq<Json>, item: string, text: ToText)
    ensures FirstName(Arr(items), text) == if NonEmptyNames(items, text) == [] then "" else NonEmptyNames(items, text)[0]
    ensures NameList(Arr(items), text) == NonEmptyNames(items, text)
    ensures NameList(Str(item), text) == if Text.Strip(item) == "" then [] else [Text.Strip(item)]
    ensures FirstName(Str(item), text) == Text.Strip(item)
    ensures FirstName(Null, text) == "" && NameList(Null, text) == []
  {
    if items != [] {
      FirstNameColumns(items[1..], item, text);
    }
  }

  /** TLS settings for a newer core name one peer: the field of the one name, else the first of the list; for an
      older core they have the list, else the one name. The other field goes, and everything else stays. */
  lemma TlsColumns(tls: Dict, byName: bool, text: ToText)
    ensures var r := NormalizeTls(tls, byName, text);
      var name := FirstName(if "verifyPeerCertByName" in tls then tls["verifyPeerCertByName"] else Null, text);
      var names := NameList(if "verifyPeerCertInNames" in tls then tls["verifyPeerCertInNames"] else Null, text);
      && (forall k :: k != "verifyPeerCertByName" && k != "verifyPeerCertInNames" ==> Get(r, k) == Get(tls, k))
      && Get(r, "verifyPeerCertByName")
         == (if !byName then None
             else if name != "" then Some(Str(name)) else if names != [] then Some(Str(names[0])) else None)
      && Get(r, "verifyPeerCertInNames")
         == (if byName then None
             else if names != [] then Some(Arr(Texts(names))) else if name != "" then Some(Arr([Str(name)])) else None)
  {
    assert BY_NAME[|BY_NAME| - 1] != IN_NAMES[|IN_NAMES| - 1];
    var name := FirstName(GetDefault(tls, BY_NAME, Null), text);
    var names := NameList(GetDefault(tls, IN_NAMES, Null), text);
    NameListIsClean(GetDefault(tls, IN_NAMES, Null), text);
    assert names != [] ==> names[0] in names;
    assert [name][1..] == [] && Texts([name]) == [Str(name)];
  }

  // ---------- a stream, and the configuration ----------

  function MigrateTransport(stream: Dict): Outcome<Dict> {
    var network := GetDefault(stream, "network", Null);
    if network == Str("ws") then
      MigrateMember(stream, "wsSettings", (d: Dict) => MigrateWs(d))
    else if network == Str("tcp") || network == Str("raw") then
      MigrateMember(stream, "tcpSettings", (d: Dict) => MigrateTcp(d))
    else Returned(stream)
  }

  /** Migrate the settings under a key; missing and falsy settings stay. */
  function MigrateMember(stream: Dict, key: string, migrate: Dict -> Outcome<Dict>): Outcome<Dict> {
    if key !in stream || !Truthy(stream[key]) then Returned(stream)
    else if !stream[key].Obj? then Raised
    else
      match migrate(stream[key].fields)
      case Raised => Raised
      case Returned(settings) => Returned(stream[key := Obj(settings)])
  }

  function MigrateTls(stream: Dict, byName: bool, text: ToText): Dict {
    if "tlsSettings" in stream && stream["tlsSettings"].Obj?
    then stream["tlsSettings" := Obj(NormalizeTls(stream["tlsSettings"].fields, byName, text))]
    else stream
  }

  function MigrateStream(stream: Json, byName: bool, text: ToText): Outcome<Json> {
    if !Truthy(stream) then Returned(stream)
    else if !stream.Obj? then Raised
    else
      match MigrateTransport(stream.fields)
      case Raised => Raised
      case Returned(fields) => Returned(Obj(MigrateTls(fields, byName, text)))
  }

  /** One inbound or outbound. */
  function MigrateBound(bound: Json, byName: bool, text: ToText): Outcome<Json> {
    if !bound.Obj? then Raised
    else if "streamSettings" !in bound.fields then Returned(bound)
    else
      match MigrateStream(bound.fields["streamSettings"], byName, text)
      case Raised => Raised
      case Returned(stream) => Returned(Obj(bound.fields["streamSettings" := stream]))
  }

  /** The elements a loop over a configured list visits. */
  function Items(list: Json): Outcome<seq<Json>> {
    if list.Arr? then Returned(list.items)
    else if (list.Obj? || list.Str?) && !Truthy(list) then Returned([])
    else Raised
  }

  function MigrateBounds(bounds: seq<Json>, byName: bool, text: ToText): Outcome<seq<Json>> {
    if bounds == [] then Returned([])
    else
      match MigrateBounds(bounds[..|bounds| - 1], byName, text)
      case Raised => Raised
      case Returned(init) =>
        match MigrateBound(bounds[|bounds| - 1], byName, text)
        case Raised => Raised
        case Returned(last) => Returned(init + [last])
  }

  function MigrateList(root: Dict, key: string, byName: bool, text: ToText): Outcome<Dict> {
    if key !in root then Returned(root)
    else
      match Items(root[key])
      case Raised => Raised
      case Returned(bounds) =>
        match MigrateBounds(bounds, byName, text)
        case Raised => Raised
        case Returned(migrated) => Returned(if root[key].Arr? then root[key := Arr(migrated)] else root)
  }

  /** `_migrate_deprecated_configs` on the whole configuration. */
  function Migrate(root: Dict, byName: bool, text: ToText): Outcome<Dict> {
    match MigrateList(root, "inbounds", byName, text)
    case Raised => Raised
    case Returned(half) => MigrateList(half, "outbounds", byName, text)
  }

  /** What the migration of a stream touches: the WebSocket settings of a `ws` stream, the TCP settings of a `tcp`
      or `raw` one, and the TLS settings of any. */
  lemma StreamColumns(stream: Dict, byName: bool, text: ToText)
    requires stream != map[] && MigrateStream(Obj(stream), byName, text).Returned?
    ensures var r := MigrateStream(Obj(stream), byName, text).value;
      && r.Obj?
      && (forall k :: k != "wsSettings" && k != "tcpSettings" && k != "tlsSettings" ==> Get(r.fields, k) == Get(stream, k))
      && Get(r.fields, "wsSettings")
         == (if Get(stream, "network") == Some(Str("ws")) && "wsSettings" in stream && Truthy(stream["wsSettings"])
             then Some(Obj(MigrateWs(stream["wsSettings"].fields).value)) else Get(stream, "wsSettings"))
      && Get(r.fields, "tcpSettings")
         == (if (Get(stream, "network") == Some(Str("tcp")) || Get(stream, "network") == Some(Str("raw")))
                && "tcpSettings" in stream && Truthy(stream["tcpSettings"])
             then Some(Obj(MigrateTcp(stream["tcpSettings"].fields).value)) else Get(stream, "tcpSettings"))
      && Get(r.fields, "tlsSettings")
         == (if "tlsSettings" in stream && stream["tlsSettings"].Obj?
             then Some(Obj(NormalizeTls(stream["tlsSettings"].fields, byName, text))) else Get(stream, "tlsSettings"))
  {
    DistinctKeys();
    TransportColumns(stream);
  }

  lemma TransportColumns(stream: Dict)
    requires MigrateTransport(stream).Returned?
    ensures var r := MigrateTransport(stream).value;
      && (forall k :: k != "wsSettings" && k != "tcpSettings" ==> Get(r, k) == Get(stream, k))
      && Get(r, "wsSettings")
         == (if Get(stream, "network") == Some(Str("ws")) && "wsSettings" in stream && Truthy(stream["wsSettings"])
             then Some(Obj(MigrateWs(stream["wsSettings"].fields).value)) else Get(stream, "wsSettings"))
      && Get(r, "tcpSettings")
         == (if (Get(stream, "network") == Some(Str("tcp")) || Get(stream, "network") == Some(Str("raw")))
                && "tcpSettings" in stream && Truthy(stream["tcpSettings"])
             then Some(Obj(MigrateTcp(stream["tcpSettings"].fields).value)) else Get(stream, "tcpSettings"))
  {
    DistinctKeys();
    assert "ws"[0] != "tcp"[0] && "ws"[0] != "raw"[0];
    assert "wsSettings"[0] != "tcpSettings"[0];
  }

  /** And of a configuration: the stream settings of every inbound and outbound, and nothing else. */
  lemma {:induction false} BoundsColumns(bounds: seq<Json>, byName: bool, text: ToText)
    requires MigrateBounds(bounds, byName, text).Returned?
    ensures var r := MigrateBounds(bounds, byName, text).value;
      && |r| == |bounds|
      && forall i :: 0 <= i < |bounds| ==>
           && bounds[i].Obj?
           && (if "streamSettings" in bounds[i].fields
               then
                 && MigrateStream(bounds[i].fields["streamSettings"], byName, text).Returned?
                 && r[i] == Obj(bounds[i].fields["streamSettings" := MigrateStream(bounds[i].fields["streamSettings"], byName, text).value])
               else r[i] == bounds[i])
  {
    if bounds != [] {
      BoundsColumns(bounds[..|bounds| - 1], byName, text);
    }
  }

  lemma ConfigurationColumns(root: Dict, byName: bool, text: ToText, key: string)
    requires Migrate(root, byName, text).Returned?
    ensures var r := Migrate(root, byName, text).value;
      if (key == "inbounds" || key == "outbounds") && key in root && root[key].Arr? then
        && MigrateBounds(root[key].items, byName, text).Returned?
        && Get(r, key) == Some(Arr(MigrateBounds(root[key].items, byName, text).value))
      else Get(r, key) == Get(root, key)
  {
    assert "inbounds" != "outbounds" by { assert "inbounds"[0] != "outbounds"[0]; }
  }

  /** A configured list is one, or an empty dictionary or text, in which there is nothing to do; anything else
      raises. So does an element that is no dictionary, or whose stream settings raise. */
  lemma ItemsColumns(list: Json)
    ensures match list
            case Arr(items) => Items(list) == Returned(items)
            case Obj(fields) => Items(list) == if fields == map[] then Returned([]) else Raised
            case Str(s) => Items(list) == if s == "" then Returned([]) else Raised
            case _ => Items(list) == Raised
  {}

  lemma {:induction false} BoundsRaiseIff(bounds: seq<Json>, byName: bool, text: ToText)
    ensures MigrateBounds(bounds, byName, text).Raised? <==>
      exists b <- bounds :: !b.Obj? || ("streamSettings" in b.fields && MigrateStream(b.fields["streamSettings"], byName, text).Raised?)
  {
    if bounds != [] {
      BoundsRaiseIff(bounds[..|bounds| - 1], byName, text);
      assert forall b :: b in bounds <==> b in bounds[..|bounds| - 1] || b == bounds[|bounds| - 1];
    }
  }

  // ---------- migrating twice ----------

  lemma MigrateWsTwice(ws: Dict)
    requires MigrateWs(ws).Returned?
    ensures MigrateWs(MigrateWs(ws).value) == MigrateWs(ws)
  {
    var headers := GetDefault(ws, "headers", Obj(map[]));
    if headers.Obj? && "Host" in headers.fields {
      var rest := headers.fields - {"Host"};
      assert "headers" != "host" by { assert "headers"[1] != "host"[1]; }
    }
  }

  lemma MigrateRequestTwice(request: Json)
    requires MigrateRequest(request).Returned?
    ensures MigrateRequest(MigrateRequest(request).value) == MigrateRequest(request)
  {}

  lemma MigrateTcpTwice(tcp: Dict)
    requires MigrateTcp(tcp).Returned?
    ensures MigrateTcp(MigrateTcp(tcp).value) == MigrateTcp(tcp)
  {
    var header := GetDefault(tcp, "header", Obj(map[]));
    if Truthy(header) && GetDefault(header.fields, "type", Null) == Str("http") && "request" in header.fields {
      var request := header.fields["request"];
      MigrateRequestTwice(request);
      var request' := MigrateRequest(request).value;
      assert "request" != "type" by { assert "request"[0] != "type"[0]; }
      var tcp' := MigrateTcp(tcp).value;
      assert tcp' == tcp["header" := Obj(header.fields["request" := request'])];
      assert tcp'["header" := Obj(header.fields["request" := request'])] == tcp';
      assert header.fields["request" := request']["request" := request'] == header.fields["request" := request'];
    }
  }

  lemma MigrateMemberTwice(stream: Dict, key: string, migrate: Dict -> Outcome<Dict>)
    requires MigrateMember(stream, key, migrate).Returned?
    requires forall d: Dict :: migrate(d).Returned? ==> migrate(migrate(d).value) == migrate(d)
    ensures MigrateMember(MigrateMember(stream, key, migrate).value, key, migrate) == MigrateMember(stream, key, migrate)
  {
    if key in stream && Truthy(stream[key]) {
      var settings := migrate(stream[key].fields).value;
      assert migrate(settings) == Returned(settings);
      assert stream[key := Obj(settings)][key := Obj(settings)] == stream[key := Obj(settings)];
    }
  }

  lemma MigrateTransportTwice(stream: Dict)
    requires MigrateTransport(stream).Returned?
    ensures MigrateTransport(MigrateTransport(stream).value) == MigrateTransport(stream)
    ensures Get(MigrateTransport(stream).value, "tlsSettings") == Get(stream, "tlsSettings")
  {
    DistinctKeys();
    forall d: Dict | MigrateWs(d).Returned? ensures MigrateWs(MigrateWs(d).value) == MigrateWs(d) {
      MigrateWsTwice(d);
    }
    forall d: Dict | MigrateTcp(d).Returned? ensures MigrateTcp(MigrateTcp(d).value) == MigrateTcp(d) {
      MigrateTcpTwice(d);
    }
    MigrateMemberTwiceIf(stream, "wsSettings", (d: Dict) => MigrateWs(d));
    MigrateMemberTwiceIf(stream, "tcpSettings", (d: Dict) => MigrateTcp(d));
  }

  lemma MigrateMemberTwiceIf(stream: Dict, key: string, migrate: Dict -> Outcome<Dict>)
    requires forall d: Dict :: migrate(d).Returned? ==> migrate(migrate(d).value) == migrate(d)
    ensures var r := MigrateMember(stream, key, migrate);
            r.Returned? ==>
              && MigrateMember(r.value, key, migrate) == r
              && forall k :: k != key ==> Get(r.value, k) == Get(stream, k)
  {
    if MigrateMember(stream, key, migrate).Returned? {
      MigrateMemberTwice(stream, key, migrate);
    }
  }

  lemma DistinctKeys()
    ensures "network" != "wsSettings" && "network" != "tcpSettings" && "network" != "tlsSettings"
    ensures "tlsSettings" != "wsSettings" && "tlsSettings" != "tcpSettings"
  {
    assert "network"[0] == 'n' && "wsSettings"[0] == 'w' && "tcpSettings"[0] == 't' && "tlsSettings"[0] == 't';
    assert "tlsSettings"[1] == 'l' && "tcpSettings"[1] == 'c';
  }

  lemma TlsLeavesTransport(stream: Dict, byName: bool, text: ToText)
    requires MigrateTransport(stream) == Returned(stream)
    ensures MigrateTransport(MigrateTls(stream, byName, text)) == Returned(MigrateTls(stream, byName, text))
  {
    DistinctKeys();
    var stream' := MigrateTls(stream, byName, text);
    var network := GetDefault(stream, "network", Null);
    if network == Str("ws") {
      MemberUnchanged(stream, stream', "wsSettings", (d: Dict) => MigrateWs(d));
    } else if network == Str("tcp") || network == Str("raw") {
      MemberUnchanged(stream, stream', "tcpSettings", (d: Dict) => MigrateTcp(d));
    }
  }

  lemma MemberUnchanged(a: Dict, b: Dict, key: string, migrate: Dict -> Outcome<Dict>)
    requires MigrateMember(a, key, migrate) == Returned(a) && Get(a, key) == Get(b, key)
    ensures MigrateMember(b, key, migrate) == Returned(b)
  {
    if key in a && Truthy(a[key]) {
      assert a[key] == Obj(migrate(a[key].fields).value);
      assert b[key := b[key]] == b;
    }
  }

  lemma MigrateStreamTwice(stream: Json, byName: bool, text: ToText)
    requires MigrateStream(stream, byName, text).Returned?
    ensures MigrateStream(MigrateStream(stream, byName, text).value, byName, text) == MigrateStream(stream, byName, text)
  {
    if Truthy(stream) {
      var half := MigrateTransport(stream.fields).value;
      MigrateTransportTwice(stream.fields);
      TlsLeavesTransport(half, byName, text);
      var whole := MigrateTls(half, byName, text);
      if "tlsSettings" in half && half["tlsSettings"].Obj? {
        NormalizeTlsTwice(half["tlsSettings"].fields, byName, text);
        assert whole["tlsSettings" := whole["tlsSettings"]] == whole;
      }
    }
  }

  lemma MigrateBoundTwice(bound: Json, byName: bool, text: ToText)
    requires MigrateBound(bound, byName, text).Returned?
    ensures MigrateBound(MigrateBound(bound, byName, text).value, byName, text) == MigrateBound(bound, byName, text)
  {
    if "streamSettings" in bound.fields {
      MigrateStreamTwice(bound.fields["streamSettings"], byName, text);
      var stream := MigrateStream(bound.fields["streamSettings"], byName, text).value;
      var fields := bound.fields["streamSettings" := stream];
      assert fields["streamSettings" := stream] == fields;
    }
  }

  lemma {:induction false} MigrateBoundsTwice(bounds: seq<Json>, byName: bool, text: ToText)
    requires MigrateBounds(bounds, byName, text).Returned?
    ensures MigrateBounds(MigrateBounds(bounds, byName, text).value, byName, text) == MigrateBounds(bounds, byName, text)
  {
    if bounds != [] {
      var init, last := bounds[..|bounds| - 1], bounds[|bounds| - 1];
      MigrateBoundsTwice(init, byName, text);
      MigrateBoundTwice(last, byName, text);
      var init' := MigrateBounds(init, byName, text).value;
      var last' := MigrateBound(last, byName, text).value;
      assert (init' + [last'])[..|init'|] == init';
    }
  }

  lemma MigrateListTwice(root: Dict, key: string, byName: bool, text: ToText)
    requires MigrateList(root, key, byName, text).Returned?
    ensures var root' := MigrateList(root, key, byName, text).value;
            && MigrateList(root', key, byName, text) == Returned(root')
            && forall k :: k != key ==> Get(root', k) == Get(root, k)
  {
    if key in root && root[key].Arr? {
      MigrateBoundsTwice(root[key].items, byName, text);
      var root' := MigrateList(root, key, byName, text).value;
      assert root'[key := root'[key]] == root';
    }
  }

  lemma ListUnchanged(a: Dict, b: Dict, key: string, byName: bool, text: ToText)
    requires MigrateList(a, key, byName, text) == Returned(a) && Get(a, key) == Get(b, key)
    ensures MigrateList(b, key, byName, text) == Returned(b)
  {
    if key in a && a[key].Arr? {
      assert a[key] == Arr(MigrateBounds(a[key].items, byName, text).value);
      assert b[key := b[key]] == b;
    }
  }

  /** Migration is idempotent: run again, as user inclusion and serialisation do, it changes nothing and
      does not raise. */
  lemma MigrateTwice(root: Dict, byName: bool, text: ToText)
    requires Migrate(root, byName, text).Returned?
    ensures Migrate(Migrate(root, byName, text).value, byName, text) == Migrate(root, byName, text)
  {
    assert "inbounds" != "outbounds" by { assert "inbounds"[0] != "outbounds"[0]; }
    var half := MigrateList(root, "inbounds", byName, text).value;
    MigrateListTwice(root, "inbounds", byName, text);
    var whole := MigrateList(half, "outbounds", byName, text).value;
    MigrateListTwice(half, "outbounds", byName, text);
    ListUnchanged(half, whole, "inbounds", byName, text);
  }

  // ---------- the meaning of WebSocket settings ----------

  /** The host value `_resolve_inbounds` reads: `host` if it is truthy, else `headers.Host`. */
  function HostValue(ws: Dict): Outcome<Json> {
    var host := GetDefault(ws, "host", Str(""));
    if Truthy(host) then Returned(host)
    else
      match GetDefault(ws, "headers", Obj(map[]))
      case Obj(fields) => Returned(GetDefault(fields, "Host", Null))
      case _ => Raised
  }

  /** What it makes of it: a list raises, text is the one host, anything else is no host. */
  function ResolvedHost(ws: Dict): Outcome<seq<string>> {
    match HostValue(ws)
    case Returned(Str(s)) => Returned([s])
    case Returned(Arr(_)) => Raised
    case Returned(_) => Returned([])
    case Raised => Raised
  }

  /** The effective host: the first non-empty one. */
  function EffectiveHost(ws: Dict): Option<Json> {
    match HostValue(ws)
    case Returned(host) => if Truthy(host) then Some(host) else None
    case Raised => None
  }

  /** The effective host survives every migration. */
  lemma EffectiveHostKept(ws: Dict)
    requires MigrateWs(ws).Returned?
    ensures EffectiveHost(MigrateWs(ws).value) == EffectiveHost(ws)
  {
    assert "headers" != "host" by { assert "headers"[1] != "host"[1]; }
  }

  /** There is a header to move, no host to keep, and the header is the empty text or the empty list. */
  predicate EmptyHostHeader(ws: Dict) {
    && !Truthy(GetDefault(ws, "host", Null))
    && var headers := GetDefault(ws, "headers", Obj(map[]));
    && headers.Obj? && "Host" in headers.fields
    && (headers.fields["Host"] == Str("") || headers.fields["Host"] == Arr([]))
  }

  /** What `_resolve_inbounds` reads is literally unchanged exactly when the header is not empty: an
      empty header is read as one empty host (or, as a list, refused) before the migration, and as no
      host after it. */
  lemma ResolvedHostKeptIff(ws: Dict)
    requires MigrateWs(ws).Returned?
    ensures ResolvedHost(MigrateWs(ws).value) == ResolvedHost(ws) <==> !EmptyHostHeader(ws)
  {
    assert "headers" != "host" by { assert "headers"[1] != "host"[1]; }
  }

  // ---------- the migration loop ----------

  class ConfigDocument {
    var root: Dict
    const byName: bool
    const text: ToText

    constructor (root: Dict, byName: bool, text: ToText)
      ensures this.root == root && this.byName == byName && this.text == text
    {
      this.root, this.byName, this.text := root, byName, text;
    }

    method MigrateDeprecatedConfigs() returns (raised: bool)
      modifies this
      ensures raised <==> Migrate(old(root), byName, text).Raised?
      ensures !raised ==> Returned(root) == Migrate(old(root), byName, text)
    {
      raised := MigrateUnder("inbounds");
      if !raised {
        raised := MigrateUnder("outbounds");
      }
    }

    /** One of the two loops: every element's stream settings are rewritten in place. */
    method MigrateUnder(key: string) returns (raised: bool)
      modifies this
      ensures raised <==> MigrateList(old(root), key, byName, text).Raised?
      ensures !raised ==> Returned(root) == MigrateList(old(root), key, byName, text)
    {
      if key !in root {
        return false;
      }
      var items := Items(root[key]);
      if items.Raised? {
        return true;
      }
      var bounds := items.value;
      var migrated: seq<Json> := [];
      for i := 0 to |bounds|
        invariant MigrateBounds(bounds[..i], byName, text) == Returned(migrated)
        invariant root == old(root)
      {
        assert bounds[..i + 1][..i] == bounds[..i];
        var bound := MigrateBound(bounds[i], byName, text);
        if bound.Raised? {
          MigrateBoundsRaises(bounds, i, byName, text);
          return true;
        }
        migrated := migrated + [bound.value];
      }
      assert bounds[..|bounds|] == bounds;
      if root[key].Arr? {
        root := root[key := Arr(migrated)];
      }
      return false;
    }
  }

  lemma {:induction false} MigrateBoundsRaises(bounds: seq<Json>, i: nat, byName: bool, text: ToText)
    requires i < |bounds| && MigrateBound(bounds[i], byName, text).Raised?
    ensures MigrateBounds(bounds, byName, text).Raised?
  {
    if i < |bounds| - 1 {
      assert bounds[..|bounds| - 1][i] == bounds[i];
      MigrateBoundsRaises(bounds[..|bounds| - 1], i, byName, text);
    }
  }
}
