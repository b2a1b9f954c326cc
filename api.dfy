/**
 * The node's web and DNS-SD face in pkg/nmos/api.go: the TXT record of an
 * NMOS service, the Node API and Connection API handlers as functions from
 * path variables and the served records to the bodies written, and the web
 * server object that holds the served node and device.
 */
module Api {
  import opened Wrappers
  import opened Text
  import opened Uuids
  import opened Net
  import opened Wire
  import opened Nmos
  import opened WireCodec

  // ---------------------------------------------------------------- DNS-SD TXT

  /** One TXT string, `key=value` as in section 6.3 of RFC 6763. */
  function TxtEntry(key: string, value: string): string {
    key + "=" + value
  }

  /** The key of a TXT string: everything before the first '='. */
  function KeyOf(entry: string): string {
    FirstField(entry, '=')
  }

  /** The value of a TXT string: everything after the first '='; none for a bare key. */
  function ValueOf(entry: string): Option<string> {
    if '=' in entry then
      FirstFieldIsPrefixBeforeSeparator(entry, '=');
      Some(entry[|KeyOf(entry)| + 1..])
    else
      None
  }

  /** The value of the first TXT string with the given key (section 6.4 of RFC 6763). */
  function Lookup(txt: seq<string>, key: string): Option<string> {
    if txt == [] then None
    else if KeyOf(txt[0]) == key then ValueOf(txt[0])
    else Lookup(txt[1..], key)
  }

  /** MdnsText: the TXT strings advertised with an NMOS service. */
  function MdnsText(priority: int, versions: seq<string>, protocol: string, oauthMode: bool): seq<string> {
    [TxtEntry("pri", FormatInt(priority)), TxtEntry("api_ver", Join(versions, ",")),
     TxtEntry("api_proto", protocol), TxtEntry("api_auth", FormatBool(oauthMode))]
  }

  lemma TxtEntryParts(key: string, value: string)
    requires '=' !in key
    ensures KeyOf(TxtEntry(key, value)) == key
    ensures ValueOf(TxtEntry(key, value)) == Some(value)
  {
    var e := TxtEntry(key, value);
    assert e == key + ['='] + value;
    SplitField(key, '=', value);
    assert e[|key|] == '=';
    assert e[|key| + 1..] == value;
  }

  /**
   * The four TXT strings carry, in this order, the keys pri, api_ver,
   * api_proto and api_auth, with the priority in decimal, the versions joined
   * by ',' and the OAuth flag as true or false.
   */
  lemma MdnsTextFields(priority: int, versions: seq<string>, protocol: string, oauthMode: bool)
    ensures var txt := MdnsText(priority, versions, protocol, oauthMode);
      && |txt| == 4
      && KeyOf(txt[0]) == "pri" && KeyOf(txt[1]) == "api_ver"
      && KeyOf(txt[2]) == "api_proto" && KeyOf(txt[3]) == "api_auth"
      && Lookup(txt, "pri") == Some(FormatInt(priority))
      && Lookup(txt, "api_ver") == Some(Join(versions, ","))
      && Lookup(txt, "api_proto") == Some(protocol)
      && Lookup(txt, "api_auth") == Some(FormatBool(oauthMode))
  {
    var txt := MdnsText(priority, versions, protocol, oauthMode);
    TxtEntryParts("pri", FormatInt(priority));
    TxtEntryParts("api_ver", Join(versions, ","));
    TxtEntryParts("api_proto", protocol);
    TxtEntryParts("api_auth", FormatBool(oauthMode));
    assert txt[1..][1..] == txt[2..] && txt[2..][1..] == txt[3..];
    assert Lookup(txt, "api_ver") == Lookup(txt[1..], "api_ver");
    assert Lookup(txt, "api_proto") == Lookup(txt[1..], "api_proto") == Lookup(txt[2..], "api_proto");
    assert Lookup(txt, "api_auth") == Lookup(txt[1..], "api_auth") == Lookup(txt[2..], "api_auth")
        == Lookup(txt[3..], "api_auth");
  }

  /** A reader of the TXT record recovers the priority, the version list, the protocol and the flag. */
  lemma MdnsTextRoundTrip(priority: int, versions: seq<string>, protocol: string, oauthMode: bool)
    requires versions != []
    requires forall i :: 0 <= i < |versions| ==> ',' !in versions[i]
    ensures var txt := MdnsText(priority, versions, protocol, oauthMode);
      && Lookup(txt, "pri").Some? && ParseInt(Lookup(txt, "pri").value) == Some(priority)
      && Lookup(txt, "api_ver").Some? && Split(Lookup(txt, "api_ver").value, ',') == versions
      && Lookup(txt, "api_proto") == Some(protocol)
      && Lookup(txt, "api_auth").Some? && ParseBool(Lookup(txt, "api_auth").value) == Some(oauthMode)
  {
    MdnsTextFields(priority, versions, protocol, oauthMode);
    FormatIntRoundTrip(priority);
    SplitJoin(versions, ',');
  }

  // ---------------------------------------------------------------- handlers

  /** What a handler writes: the JSON bodies in order, or a nil-pointer panic. */
  datatype Reply = Reply(bodies: seq<Json>) | Panic

  const NodeApiVersionPaths: seq<string> := ["v1.0/", "v1.1/", "v1.2/", "v1.3/"]

  const NodeResourcePaths: seq<string> := ["devices/", "flows/", "receivers/", "self/", "senders/", "sources/"]

  /**
   * handleNodeAPI: the version list when no version is given, otherwise the
   * resource named by the path, or the list of resource paths. The device is
   * a pointer, so it may be absent: "devices" then writes null and "senders"
   * dereferences nil.
   */
  function HandleNodeApi(version: string, rpath: string, node: Node, device: Option<Device>): Reply {
    if version == "" then Reply([Strings(NodeApiVersionPaths)])
    else if rpath == "self" then Reply([NodeJson(node)])
    else if rpath == "devices" then
      Reply([match device case Some(d) => DeviceJson(d) case None => Null])
    else if rpath == "senders" then
      match device
      case Some(d) => Reply([SliceJson(d.senders, SenderJson)])
      case None => Panic
    else Reply([Strings(NodeResourcePaths)])
  }

  /** What a client of the Node API reads back from each reply. */
  lemma NodeApiReplies(version: string, rpath: string, node: Node, device: Option<Device>)
    ensures var r := HandleNodeApi(version, rpath, node, device);
      && (version == "" ==> r == Reply([Strings(NodeApiVersionPaths)]))
      && (version != "" && rpath == "self" ==> r.Reply? && |r.bodies| == 1 && DecodeNode(r.bodies[0]) == Some(node))
      && (version != "" && rpath == "devices" ==>
            r.Reply? && |r.bodies| == 1
            && (device.Some? ==> DecodeNormalized(r.bodies[0]) == Some(Normalize(device.value)))
            && (device.None? ==> r.bodies[0] == Null))
      && (version != "" && rpath == "senders" ==>
            (r.Panic? <==> device.None?)
            && (device.Some? ==> |r.bodies| == 1 && DecodeSlice(r.bodies[0], DecodeSender) == Some(device.value.senders)))
      && (version != "" && rpath != "self" && rpath != "devices" && rpath != "senders" ==>
            r == Reply([Strings(NodeResourcePaths)]))
  {
    if version != "" {
      if rpath == "self" {
        NodeRoundTrip(node);
      } else if rpath == "devices" && device.Some? {
        DeviceRoundTrip(device.value);
      } else if rpath == "senders" && device.Some? {
        SenderListRoundTrip(device.value.senders);
      }
    }
  }

  const ConnectionModes: seq<string> := ["bulk/", "single/"]

  /** The resource list exactly as written, including its spelling of "recievers/". */
  const ConnectionResources: seq<string> := ["senders/", "recievers/"]

  /**
   * The UUID a query id stands for: whatever uuid.Parse returns, since the
   * handler ignores its error (the nil UUID for a bad length or a missing
   * dash, the bytes filled before a bad digit otherwise).
   */
  function QueryUuid(id: string): Uuid {
    ParseText(id).uuid
  }

  /** The id list handleSendersAPI writes: one entry per sender, each the first sender's device id. */
  function ListedSenderIds(ss: seq<Sender>): Slice<Uuid> {
    if ss == [] then Nil else Slice<Uuid>.Of(seq(|ss|, _ => ss[0].deviceId))
  }

  /** The senders whose device id is q, in their order. */
  function MatchingSenders(ss: seq<Sender>, q: Uuid): seq<Sender> {
    if ss == [] then []
    else MatchingSenders(ss[..|ss| - 1], q) + (if ss[|ss| - 1].deviceId == q then [ss[|ss| - 1]] else [])
  }

  /** handleSendersAPI as a value: the reply for the path variables mode, resource and id. */
  function SendersReply(mode: string, resource: string, id: string, device: Option<Device>): Reply {
    if mode != "bulk" && mode != "single" then Reply([Strings(ConnectionModes)])
    else if resource == "" then Reply([Strings(ConnectionResources)])
    else if device.None? then Panic
    else if id == "" then Reply([SliceJson(ListedSenderIds(device.value.senders.Items()), UuidJson)])
    else Reply(EncodeAll(MatchingSenders(device.value.senders.Items(), QueryUuid(id)), SenderJson))
  }

  /**
   * Every Connection API route registered by the web server binds only
   * version, id and sinkId, so `mode` reads as "" and the handler answers
   * the mode list whatever the path and the device.
   */
  lemma RoutedSendersRequest(resource: string, id: string, device: Option<Device>)
    ensures SendersReply("", resource, id, device) == Reply([Strings(["bulk/", "single/"])])
  {
  }

  /** handleSendersAPI, with its two loops over the device's senders. */
  method HandleSendersApi(mode: string, resource: string, id: string, device: Option<Device>) returns (r: Reply)
    ensures r == SendersReply(mode, resource, id, device)
  {
    if mode != "bulk" && mode != "single" {
      return Reply([Strings(ConnectionModes)]);
    }
    if resource == "" {
      return Reply([Strings(ConnectionResources)]);
    }
    if device.None? {
      return Panic;
    }
    var ss := device.value.senders.Items();
    if id == "" {
      var senderUuids: Slice<Uuid> := Nil;
      for i := 0 to |ss|
        invariant senderUuids == if i == 0 then Nil else Slice<Uuid>.Of(seq(i, _ => ss[0].deviceId))
      {
        assert seq(i + 1, _ => ss[0].deviceId) == seq(i, _ => ss[0].deviceId) + [ss[0].deviceId];
        senderUuids := senderUuids.AppendAll([ss[0].deviceId]);
      }
      r := Reply([SliceJson(senderUuids, UuidJson)]);
    } else {
      var query := QueryUuid(id);
      var bodies: seq<Json> := [];
      for i := 0 to |ss|
        invariant bodies == EncodeAll(MatchingSenders(ss[..i], query), SenderJson)
      {
        assert ss[..i + 1][..i] == ss[..i];
        if query == ss[i].deviceId {
          EncodeAllSnoc(MatchingSenders(ss[..i], query), ss[i], SenderJson);
          bodies := bodies + [SenderJson(ss[i])];
        }
      }
      assert ss[..|ss|] == ss;
      r := Reply(bodies);
    }
  }

  /**
   * Without an id the reply is null for a device without senders, and
   * otherwise as many ids as there are senders, every one of them the first
   * sender's device id.
   */
  lemma SenderIdListAsWritten(ss: seq<Sender>)
    ensures var j := SliceJson(ListedSenderIds(ss), UuidJson);
      && (ss == [] <==> j == Null)
      && DecodeSlice(j, DecodeUuid) == Some(ListedSenderIds(ss))
      && |ListedSenderIds(ss).Items()| == |ss|
      && forall k :: 0 <= k < |ListedSenderIds(ss).Items()| ==> ListedSenderIds(ss).Items()[k] == ss[0].deviceId
  {
    UuidsRoundTrip(ListedSenderIds(ss));
  }

  lemma {:induction false} MatchingSendersMembers(ss: seq<Sender>, q: Uuid, s: Sender)
    ensures s in MatchingSenders(ss, q) <==> s in ss && s.deviceId == q
  {
    if ss != [] {
      MatchingSendersMembers(ss[..|ss| - 1], q, s);
      assert ss == ss[..|ss| - 1] + [ss[|ss| - 1]];
    }
  }

  /** Matching distributes over concatenation, so the senders keep their order. */
  lemma {:induction false} MatchingSendersAppend(a: seq<Sender>, b: seq<Sender>, q: Uuid)
    ensures MatchingSenders(a + b, q) == MatchingSenders(a, q) + MatchingSenders(b, q)
    decreases |b|
  {
    if b == [] {
      assert a + b == a;
    } else {
      var b' := b[..|b| - 1];
      assert (a + b)[..|a + b| - 1] == a + b';
      MatchingSendersAppend(a, b', q);
    }
  }

  /**
   * Querying by the text form of a UUID returns every sender whose device id
   * is that UUID, in order, each as its full JSON object.
   */
  lemma SendersByPrintedDeviceId(mode: string, resource: string, d: Device, u: Uuid)
    requires mode == "bulk" || mode == "single"
    requires resource != ""
    ensures var r := SendersReply(mode, resource, ToString(u), Some(d));
      && r.Reply?
      && DecodeAll(r.bodies, DecodeSender) == Some(MatchingSenders(d.senders.Items(), u))
      && forall s :: s in MatchingSenders(d.senders.Items(), u) <==> s in d.senders.Items() && s.deviceId == u
  {
    ToStringRoundTrip(u);
    var m := MatchingSenders(d.senders.Items(), u);
    forall s | s in m
      ensures DecodeSender(SenderJson(s)) == Some(s)
    {
      SenderRoundTrip(s);
    }
    DecodeAllRoundTrip(m, SenderJson, DecodeSender);
    forall s
      ensures s in m <==> s in d.senders.Items() && s.deviceId == u
    {
      MatchingSendersMembers(d.senders.Items(), u, s);
    }
  }

  /** uuid.Parse also takes the 32 hex digits of u, so a query in that form finds u's senders. */
  lemma SendersByUndashedId(mode: string, resource: string, d: Device, u: Uuid)
    requires mode == "bulk" || mode == "single"
    requires resource != ""
    ensures SendersReply(mode, resource, UndashedText(u), Some(d))
      == Reply(EncodeAll(MatchingSenders(d.senders.Items(), u), SenderJson))
  {
    UndashedRoundTrip(u);
  }

  /**
   * Because the parse error is ignored, a dashed query whose pair k is the
   * first bad one finds the senders of the UUID filled up to pair k.
   */
  lemma SendersByBadDigitId(mode: string, resource: string, d: Device, id: string, k: nat)
    requires mode == "bulk" || mode == "single"
    requires resource != ""
    requires |id| == 36 && k < 16
    requires id[8] == '-' && id[13] == '-' && id[18] == '-' && id[23] == '-'
    requires forall j :: 0 <= j < k ==> PairAt(id, j).Some?
    requires PairAt(id, k).None?
    ensures SendersReply(mode, resource, id, Some(d))
      == Reply(EncodeAll(MatchingSenders(d.senders.Items(), FilledUpTo(id, k)), SenderJson))
  {
    PartialFill(id, k);
  }

  // ---------------------------------------------------------------- web server

  /**
   * A DNS-SD registration: instance name, service type, domain, port, TXT
   * strings and the interfaces to announce on (nil for every interface).
   */
  datatype Advertisement =
    Advertisement(instance: string, service: string, domain: string, port: int, txt: seq<string>, ifaces: Slice<NetInterface>)

  const NodePriority := 99

  /** What InitNode hands to zeroconf.Register for the Node API. */
  function NodeAdvertisement(hostName: string, port: int): Advertisement {
    Advertisement(RemoveAll(hostName, ".local"), "_nmos-node._tcp", "local.", port,
                  MdnsText(NodePriority, NodeApiVersions, "http", false), Nil)
  }

  /** The node is advertised under its host name without a trailing ".local", on every interface. */
  lemma NodeAdvertisementNamesHost(h: string, port: int)
    requires forall i :: 0 <= i < |h| ==> !OccursAt(h + ".local", i, ".local")
    ensures var a := NodeAdvertisement(h + ".local", port);
      a.instance == h && a.port == port && a.service == "_nmos-node._tcp" && a.domain == "local." && a.ifaces == Nil
  {
    StripSuffix(h, ".local");
  }

  /** The node's TXT record: priority 99, the four Node API versions, plain http and no OAuth. */
  lemma NodeAdvertisementTxt(hostName: string, port: int)
    ensures var txt := NodeAdvertisement(hostName, port).txt;
      && Lookup(txt, "pri").Some? && ParseInt(Lookup(txt, "pri").value) == Some(99)
      && Lookup(txt, "api_ver").Some? && Split(Lookup(txt, "api_ver").value, ',') == NodeApiVersions
      && Lookup(txt, "api_proto") == Some("http")
      && Lookup(txt, "api_auth") == Some("false")
  {
    NodeApiVersionsHaveNoComma();
    MdnsTextFields(NodePriority, NodeApiVersions, "http", false);
    MdnsTextRoundTrip(NodePriority, NodeApiVersions, "http", false);
  }

  lemma NodeApiVersionsHaveNoComma()
    ensures forall i :: 0 <= i < |NodeApiVersions| ==> ',' !in NodeApiVersions[i]
  {
    forall i | 0 <= i < |NodeApiVersions|
      ensures ',' !in NodeApiVersions[i]
    {
      var v := NodeApiVersions[i];
      assert |v| == 4 && v[0] == 'v' && v[1] != ',' && v[2] == '.' && v[3] != ',';
    }
  }

  /** A host name without ".local" is advertised unchanged. */
  lemma NodeAdvertisementKeepsPlainHost(h: string, port: int)
    requires forall i :: 0 <= i < |h| ==> !OccursAt(h, i, ".local")
    ensures NodeAdvertisement(h, port).instance == h
  {
    RemoveAllAbsent(h, ".local");
  }

  /**
   * NMOSWebServer: the port, the served node (a pointer shared with its
   * owner) and device, whether the HTTP server runs, and the node's mDNS
   * registration.
   */
  class WebServer {
    var port: int
    var serving: bool
    var node: NodeData?
    var device: Option<Device>
    var nodeAdvertisement: Option<Advertisement>

    constructor ()
      ensures port == 0 && !serving && node == null && device == None && nodeAdvertisement == None
    {
      port, serving, node, device, nodeAdvertisement := 0, false, null, None, None;
    }

    /** Start(port): records the port and starts serving on 0.0.0.0:port. */
    method Start(port: int)
      modifies this
      ensures this.port == port && serving
      ensures node == old(node) && device == old(device) && nodeAdvertisement == old(nodeAdvertisement)
    {
      this.port := port;
      serving := true;
    }

    /**
     * InitNode(nodeptr, deviceptr), with os.Hostname given as `hostName`:
     * keeps both pointers and advertises the Node API on the port set by Start.
     */
    method InitNode(nodeptr: NodeData?, deviceptr: Option<Device>, hostName: string)
      modifies this
      ensures node == nodeptr && device == deviceptr
      ensures nodeAdvertisement == Some(NodeAdvertisement(hostName, port))
      ensures port == old(port) && serving == old(serving)
    {
      node := nodeptr;
      device := deviceptr;
      var name := RemoveAll(hostName, ".local");
      var txt := MdnsText(NodePriority, NodeApiVersions, "http", false);
      nodeAdvertisement := Some(Advertisement(name, "_nmos-node._tcp", "local.", port, txt, Nil));
    }

    /** Stop: withdraws the mDNS registration and shuts the HTTP server down. */
    method Stop()
      modifies this
      ensures nodeAdvertisement == None && !serving
      ensures port == old(port) && node == old(node) && device == old(device)
    {
      nodeAdvertisement := None;
      serving := false;
    }

    /** A Node API request, answered from the node as it is now behind the pointer. */
    method ServeNodeApi(version: string, rpath: string) returns (r: Reply)
      requires node != null
      ensures r == HandleNodeApi(version, rpath, node.Value(), device)
    {
      r := HandleNodeApi(version, rpath, node.Value(), device);
    }

    /**
     * handleSendersAPI as the server runs it, answered from its path
     * variables and the device it holds. The routes registered in Start
     * never bind `mode` or `resource`, so a routed request always has
     * mode "" (see RoutedSendersRequest).
     */
    method ServeSendersApi(mode: string, resource: string, id: string) returns (r: Reply)
      ensures r == SendersReply(mode, resource, id, device)
    {
      r := HandleSendersApi(mode, resource, id, device);
    }
  }
}
