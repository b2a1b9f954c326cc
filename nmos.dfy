/**
 * The resource model of pkg/nmos/nmos.go: node, device, sender and receiver
 * records, the `{type, data}` envelope, the normalised device projection that
 * replaces nested senders and receivers by their ids, the manifest link of a
 * sender, the choice of network adapters, and the node's self-description
 * built by `NMOSNodeData.Init`.
 */
module Nmos {
  import opened Wrappers
  import opened Text
  import opened Uuids
  import opened Net
  import opened Wire

  datatype Endpoint = Endpoint(host: string, port: int, protocol: string)

  datatype Api = Api(versions: Slice<string>, endpoints: Slice<Endpoint>)

  datatype Service = Service(href: string, serviceType: string)

  datatype Clock = Clock(name: string, refType: string, traceable: bool, version: string, gmid: string, locked: bool)

  /** NMOSInterface; its unexported attached-device part is never encoded and is not modelled. */
  datatype Interface = Interface(name: string, chassisId: string, portId: string)

  /** NMOSNodeData as a value (its empty Tags and Caps structs carry no data). */
  datatype Node = Node(
    version: string,
    hostname: string,
    labelText: string,
    description: string,
    href: string,
    api: Api,
    services: Slice<Service>,
    id: Uuid,
    clocks: Slice<Clock>,
    interfaces: Slice<Interface>)

  datatype Subscription = Subscription(receiverId: Uuid, active: bool)

  /** NMOSSender without its unexported caps field. */
  datatype Sender = Sender(
    id: Uuid,
    version: string,
    description: string,
    labelText: string,
    manifestHref: string,
    flowId: Uuid,
    transport: string,
    deviceId: Uuid,
    interfaceBindings: Slice<string>,
    subscription: Subscription)

  /** NMOSReceiver: Id is its only exported field. */
  datatype Receiver = Receiver(id: Uuid)

  datatype Control = Control(controlType: string, href: string)

  datatype Device = Device(
    id: Uuid,
    version: string,
    description: string,
    labelText: string,
    deviceType: string,
    nodeId: Uuid,
    senders: Slice<Sender>,
    receivers: Slice<Receiver>,
    controls: Slice<Control>)

  /** pNMOSDevice: a device whose senders and receivers are given by id. */
  datatype NormalizedDevice = NormalizedDevice(
    id: Uuid,
    version: string,
    description: string,
    labelText: string,
    deviceType: string,
    nodeId: Uuid,
    senders: Slice<Uuid>,
    receivers: Slice<Uuid>,
    controls: Slice<Control>)

  /** The payloads this agent places in an envelope. */
  datatype Resource =
    | NodeResource(node: Node)
    | DeviceResource(device: Device)
    | SenderResource(sender: Sender)
    | ReceiverResource(receiver: Receiver)

  /** The anonymous `{type, data}` struct built by MakeTransmission. */
  datatype Envelope = Envelope(kind: string, data: Resource)

  /** MakeTransmission(d, name). */
  function MakeTransmission(d: Resource, name: string): Envelope {
    Envelope(name, d)
  }

  // ---------------------------------------------------------------- normalisation

  function SenderIds(ss: seq<Sender>): seq<Uuid> {
    seq(|ss|, i requires 0 <= i < |ss| => ss[i].id)
  }

  function ReceiverIds(rs: seq<Receiver>): seq<Uuid> {
    seq(|rs|, i requires 0 <= i < |rs| => rs[i].id)
  }

  /** The value NMOSDevice.MarshalJSON encodes in place of the device. */
  function Normalize(d: Device): NormalizedDevice {
    NormalizedDevice(
      d.id, d.version, d.description, d.labelText, d.deviceType, d.nodeId,
      Of(SenderIds(d.senders.Items())),
      Of(ReceiverIds(d.receivers.Items())),
      d.controls)
  }

  /** The id lists of the normalised device start from make(..., 0) and gain one id per child, in order. */
  method MarshalDevice(d: Device) returns (nd: NormalizedDevice)
    ensures nd == Normalize(d)
  {
    var senders: Slice<Uuid> := Of([]);
    var ss := d.senders.Items();
    for i := 0 to |ss|
      invariant senders == Of(SenderIds(ss[..i]))
    {
      senders := senders.AppendAll([ss[i].id]);
    }
    assert ss[..|ss|] == ss;
    var receivers: Slice<Uuid> := Of([]);
    var rs := d.receivers.Items();
    for i := 0 to |rs|
      invariant receivers == Of(ReceiverIds(rs[..i]))
    {
      receivers := receivers.AppendAll([rs[i].id]);
    }
    assert rs[..|rs|] == rs;
    nd := NormalizedDevice(d.id, d.version, d.description, d.labelText, d.deviceType, d.nodeId, senders, receivers, d.controls);
  }

  /**
   * The normalised device lists exactly the ids of the device's senders and
   * receivers, in order, never as null, and keeps every other field.
   */
  lemma NormalizeKeepsIdsInOrder(d: Device)
    ensures var nd := Normalize(d);
      && nd.senders.Of? && nd.receivers.Of?
      && |nd.senders.elems| == |d.senders.Items()|
      && |nd.receivers.elems| == |d.receivers.Items()|
      && (forall i :: 0 <= i < |d.senders.Items()| ==> nd.senders.elems[i] == d.senders.Items()[i].id)
      && (forall i :: 0 <= i < |d.receivers.Items()| ==> nd.receivers.elems[i] == d.receivers.Items()[i].id)
      && nd.id == d.id && nd.version == d.version && nd.description == d.description
      && nd.labelText == d.labelText && nd.deviceType == d.deviceType && nd.nodeId == d.nodeId
      && nd.controls == d.controls
  {
  }

  // ---------------------------------------------------------------- senders

  /** The SDP manifest link of a sender reachable at `ip`. */
  function ManifestHref(ip: string, id: Uuid): string {
    "http://" + ip + "/x-manufacturer/senders/" + ToString(id) + "/stream.sdp"
  }

  /** NMOSSender.InitHREF(ip), on a copy of the sender. */
  function InitHref(s: Sender, ip: string): (r: Sender)
    ensures r.(manifestHref := s.manifestHref) == s
  {
    s.(manifestHref := ManifestHref(ip, s.id))
  }

  /** The manifest link names its sender: the id sits between "/x-manufacturer/senders/" and "/stream.sdp". */
  lemma ManifestHrefNamesSender(s: Sender, ip: string)
    ensures var h := InitHref(s, ip).manifestHref;
      && |h| == |ip| + 78
      && h[..7] == "http://"
      && h[7..7 + |ip|] == ip
      && h[7 + |ip|..|h| - 47] == "/x-manufacturer/senders/"
      && h[|h| - 11..] == "/stream.sdp"
      && Parse(h[|h| - 47..|h| - 11]) == Some(s.id)
  {
    ManifestHrefLayout(ip, ToString(s.id));
    ToStringRoundTrip(s.id);
  }

  /** Where the parts of a manifest link sit, for any 36-character id text. */
  lemma ManifestHrefLayout(ip: string, idText: string)
    requires |idText| == 36
    ensures var h := "http://" + ip + "/x-manufacturer/senders/" + idText + "/stream.sdp";
      && |h| == |ip| + 78
      && h[..7] == "http://"
      && h[7..7 + |ip|] == ip
      && h[7 + |ip|..|h| - 47] == "/x-manufacturer/senders/"
      && h[|h| - 11..] == "/stream.sdp"
      && h[|h| - 47..|h| - 11] == idText
  {
  }

  // ---------------------------------------------------------------- adapters

  /** The copies of interface `i` appended while scanning `addrs`: one per IPv4 address, if its flags qualify. */
  function AdapterCopies(i: NetInterface, addrs: seq<IP>): seq<NetInterface>
    decreases |addrs|
  {
    if addrs == [] then
      []
    else
      AdapterCopies(i, addrs[..|addrs| - 1])
      + (if i.flags == PreferredFlags && To4(addrs[|addrs| - 1]).Some? then [i] else [])
  }

  /** What GetPreferredNetworkAdapters returns for the interfaces `ifaces`. */
  function PreferredAdapters(ifaces: seq<NetInterface>): seq<NetInterface>
    decreases |ifaces|
  {
    if ifaces == [] then []
    else PreferredAdapters(ifaces[..|ifaces| - 1]) + AdapterCopies(ifaces[|ifaces| - 1], ifaces[|ifaces| - 1].addrs)
  }

  /** GetPreferredNetworkAdapters, with net.Interfaces and Addrs given as `ifaces`. */
  method GetPreferredNetworkAdapters(ifaces: seq<NetInterface>) returns (retFaces: seq<NetInterface>)
    ensures retFaces == PreferredAdapters(ifaces)
  {
    retFaces := [];
    for n := 0 to |ifaces|
      invariant retFaces == PreferredAdapters(ifaces[..n])
    {
      var i := ifaces[n];
      assert ifaces[..n + 1][..n] == ifaces[..n];
      for k := 0 to |i.addrs|
        invariant retFaces == PreferredAdapters(ifaces[..n]) + AdapterCopies(i, i.addrs[..k])
      {
        assert i.addrs[..k + 1][..k] == i.addrs[..k];
        if i.flags != PreferredFlags {
          continue;
        }
        if To4(i.addrs[k]).None? {
          continue;
        }
        retFaces := retFaces + [i];
      }
      assert i.addrs[..|i.addrs|] == i.addrs;
    }
    assert ifaces[..|ifaces|] == ifaces;
  }

  /** The dotted forms of the IPv4 addresses among `addrs`, in order. */
  function AddrHosts(addrs: seq<IP>): seq<string>
    decreases |addrs|
  {
    if addrs == [] then
      []
    else
      AddrHosts(addrs[..|addrs| - 1])
      + (match To4(addrs[|addrs| - 1])
         case Some(v4) => [IPv4String(v4)]
         case None => [])
  }

  predicate HasIPv4(addrs: seq<IP>) {
    exists k :: 0 <= k < |addrs| && To4(addrs[k]).Some?
  }

  lemma {:induction false} AdapterCopiesRepeat(i: NetInterface, addrs: seq<IP>)
    ensures var c := AdapterCopies(i, addrs);
      && |c| == (if i.flags == PreferredFlags then |AddrHosts(addrs)| else 0)
      && forall k :: 0 <= k < |c| ==> c[k] == i
    decreases |addrs|
  {
    if addrs != [] {
      AdapterCopiesRepeat(i, addrs[..|addrs| - 1]);
    }
  }

  lemma {:induction false} AddrHostsEmpty(addrs: seq<IP>)
    ensures AddrHosts(addrs) == [] <==> !HasIPv4(addrs)
    decreases |addrs|
  {
    if addrs != [] {
      var init := addrs[..|addrs| - 1];
      AddrHostsEmpty(init);
      if HasIPv4(init) {
        var k :| 0 <= k < |init| && To4(init[k]).Some?;
        assert To4(addrs[k]).Some?;
      }
      if HasIPv4(addrs) {
        var k :| 0 <= k < |addrs| && To4(addrs[k]).Some?;
        if k < |addrs| - 1 {
          assert init[k] == addrs[k];
        }
      }
    }
  }

  /**
   * An interface is returned exactly when its flags are exactly
   * Broadcast|Up|Multicast and it has an IPv4 address.
   */
  lemma {:induction false} PreferredAdaptersMembers(ifaces: seq<NetInterface>, x: NetInterface)
    ensures x in PreferredAdapters(ifaces) <==> x in ifaces && x.flags == PreferredFlags && HasIPv4(x.addrs)
    decreases |ifaces|
  {
    if ifaces != [] {
      var init, last := ifaces[..|ifaces| - 1], ifaces[|ifaces| - 1];
      PreferredAdaptersMembers(init, x);
      var c := AdapterCopies(last, last.addrs);
      assert PreferredAdapters(ifaces) == PreferredAdapters(init) + c;
      assert x in c <==> x == last && last.flags == PreferredFlags && HasIPv4(last.addrs) by {
        AdapterCopiesRepeat(last, last.addrs);
        AddrHostsEmpty(last.addrs);
        if x in c {
          assert c[0] == last;
        }
        if x == last && last.flags == PreferredFlags && HasIPv4(last.addrs) {
          assert c[0] == x;
        }
      }
      assert x in ifaces <==> x in init || x == last by {
        assert ifaces == init + [last];
      }
    }
  }

  /** Each qualifying interface is returned once per IPv4 address it has. */
  lemma PreferredAdaptersOfOne(a: NetInterface)
    requires a.flags == PreferredFlags
    ensures PreferredAdapters([a]) == seq(|AddrHosts(a.addrs)|, _ => a)
  {
    assert [a][..0] == [];
    AdapterCopiesRepeat(a, a.addrs);
  }

  // ---------------------------------------------------------------- Init

  /** The version token Init writes. */
  const InitVersion := "1441973902:879053935"

  /** The Node API versions Init appends, in order. */
  const NodeApiVersions: seq<string> := ["v1.0", "v1.1", "v1.2", "v1.3"]

  /** The dotted forms of every IPv4 address of every adapter, in the order Init visits them. */
  function AdapterHosts(adapters: seq<NetInterface>): seq<string>
    decreases |adapters|
  {
    if adapters == [] then
      []
    else
      AdapterHosts(adapters[..|adapters| - 1]) + AddrHosts(adapters[|adapters| - 1].addrs)
  }

  function EndpointsFor(hosts: seq<string>, port: int): seq<Endpoint> {
    seq(|hosts|, i requires 0 <= i < |hosts| => Endpoint(hosts[i], port, "http"))
  }

  /** The interface entry of an adapter: its MAC address with '-' between the bytes as both ids. */
  function InterfaceEntry(a: NetInterface): Interface {
    var localMac := ReplaceChar(HardwareAddrString(a.hardwareAddr), ':', '-');
    Interface(a.name, localMac, localMac)
  }

  function InterfaceEntries(adapters: seq<NetInterface>): seq<Interface> {
    seq(|adapters|, i requires 0 <= i < |adapters| => InterfaceEntry(adapters[i]))
  }

  function NodeHref(host: string, port: int): string {
    "http://" + host + ":" + FormatInt(port)
  }

  /** The href after Init: set from the first IPv4 address only if it was empty before. */
  function InitialHref(before: string, hosts: seq<string>, port: int): string {
    if before == "" && |hosts| > 0 then NodeHref(hosts[0], port) else before
  }

  /** The href, endpoints and interfaces after Init has visited `adapters`. */
  function Collected(href0: string, endpoints0: Slice<Endpoint>, interfaces0: Slice<Interface>,
                     adapters: seq<NetInterface>, port: int): (string, Slice<Endpoint>, Slice<Interface>)
  {
    var hosts := AdapterHosts(adapters);
    (InitialHref(href0, hosts, port), endpoints0.AppendAll(EndpointsFor(hosts, port)),
     interfaces0.AppendAll(InterfaceEntries(adapters)))
  }

  /** The node NMOSNodeData.Init leaves behind, given the node before it and its foreign inputs. */
  function Initialized(before: Node, port: int, hostName: string, ifaces: seq<NetInterface>, newId: Uuid): Node {
    var c := Collected(before.href, before.api.endpoints, before.interfaces, PreferredAdapters(ifaces), port);
    var firstName := FirstField(hostName, '.');
    Node(InitVersion, hostName, firstName, firstName + "-node", c.0,
         Api(before.api.versions.AppendAll(NodeApiVersions), c.1), Of([]), newId, Of([]), c.2)
  }

  /** NMOSNodeData: the node's self-description, filled in place by Init. */
  class NodeData {
    var version: string
    var hostname: string
    var labelText: string
    var description: string
    var href: string
    var api: Api
    var services: Slice<Service>
    var id: Uuid
    var clocks: Slice<Clock>
    var interfaces: Slice<Interface>

    /** The zero value of the struct. */
    constructor ()
      ensures Value() == Node("", "", "", "", "", Api(Nil, Nil), Nil, NilUuid, Nil, Nil)
    {
      version, hostname, labelText, description, href := "", "", "", "", "";
      api := Api(Nil, Nil);
      services, id, clocks, interfaces := Nil, NilUuid, Nil, Nil;
    }

    function Value(): Node
      reads this
    {
      Node(version, hostname, labelText, description, href, api, services, id, clocks, interfaces)
    }

    /**
     * Init(port), with os.Hostname, uuid.New and net.Interfaces given as
     * `hostName`, `newId` and `ifaces`.
     */
    method Init(port: int, hostName: string, ifaces: seq<NetInterface>, newId: Uuid)
      modifies this
      ensures Value() == Initialized(old(Value()), port, hostName, ifaces, newId)
    {
      var n := InitFields(Value(), port, hostName, ifaces, newId);
      Store(n);
    }

    /** Overwrites every field, as assigning a whole struct value does. */
    method Store(n: Node)
      modifies this
      ensures Value() == n
    {
      version, hostname, labelText, description, id := n.version, n.hostname, n.labelText, n.description, n.id;
      href, api, services, clocks, interfaces := n.href, n.api, n.services, n.clocks, n.interfaces;
    }
  }

  /**
   * The values Init stores, computed as it computes them: the adapters, the
   * first label of the host name, then the walk over adapters and addresses.
   */
  method InitFields(before: Node, port: int, hostName: string, ifaces: seq<NetInterface>, newId: Uuid)
    returns (n: Node)
    ensures n == Initialized(before, port, hostName, ifaces, newId)
  {
    var myIPAddresses := GetPreferredNetworkAdapters(ifaces);
    var firstName := FirstField(hostName, '.');
    var nodeHref, endpoints, entries := CollectAdapters(before.href, before.api.endpoints, before.interfaces, myIPAddresses, port);
    var versions := before.api.versions.AppendAll(NodeApiVersions);
    n := Node(InitVersion, hostName, firstName, firstName + "-node", nodeHref, Api(versions, endpoints), Of([]), newId, Of([]), entries);
  }

  /**
   * Init's loop over the chosen adapters: the endpoints and href of each
   * adapter's addresses, then one interface entry for the adapter.
   */
  method CollectAdapters(href0: string, endpoints0: Slice<Endpoint>, interfaces0: Slice<Interface>,
                         myIPAddresses: seq<NetInterface>, port: int)
    returns (href: string, endpoints: Slice<Endpoint>, interfaces: Slice<Interface>)
    ensures (href, endpoints, interfaces) == Collected(href0, endpoints0, interfaces0, myIPAddresses, port)
  {
    href, endpoints, interfaces := href0, endpoints0, interfaces0;
    for n := 0 to |myIPAddresses|
      invariant (href, endpoints, interfaces) == Collected(href0, endpoints0, interfaces0, myIPAddresses[..n], port)
    {
      var intf := myIPAddresses[n];
      CollectedStep(href0, endpoints0, interfaces0, myIPAddresses, n, port);
      href, endpoints := AddAddressEndpoints(href, endpoints, intf.addrs, port);
      var localMac := ReplaceChar(HardwareAddrString(intf.hardwareAddr), ':', '-');
      interfaces := interfaces.AppendAll([Interface(intf.name, localMac, localMac)]);
    }
    assert myIPAddresses[..|myIPAddresses|] == myIPAddresses;
  }

  /** Visiting one more adapter adds its addresses' endpoints and its interface entry. */
  lemma CollectedStep(href0: string, endpoints0: Slice<Endpoint>, interfaces0: Slice<Interface>,
                      adapters: seq<NetInterface>, n: nat, port: int)
    requires n < |adapters|
    ensures var c := Collected(href0, endpoints0, interfaces0, adapters[..n], port);
      var added := AddrHosts(adapters[n].addrs);
      Collected(href0, endpoints0, interfaces0, adapters[..n + 1], port)
        == (InitialHref(c.0, added, port), c.1.AppendAll(EndpointsFor(added, port)),
            c.2.AppendAll([InterfaceEntry(adapters[n])]))
  {
    var seen, added := AdapterHosts(adapters[..n]), AddrHosts(adapters[n].addrs);
    var c := Collected(href0, endpoints0, interfaces0, adapters[..n], port);
    var c' := Collected(href0, endpoints0, interfaces0, adapters[..n + 1], port);
    assert AdapterHosts(adapters[..n + 1]) == seen + added by {
      assert adapters[..n + 1][..n] == adapters[..n];
    }
    assert c'.0 == InitialHref(c.0, added, port) by {
      InitialHrefAppend(href0, seen, added, port);
    }
    assert c'.1 == c.1.AppendAll(EndpointsFor(added, port)) by {
      EndpointsForAppend(seen, added, port);
      AppendAllTwice(endpoints0, EndpointsFor(seen, port), EndpointsFor(added, port));
    }
    assert c'.2 == c.2.AppendAll([InterfaceEntry(adapters[n])]) by {
      AppendAllTwice(interfaces0, InterfaceEntries(adapters[..n]), [InterfaceEntry(adapters[n])]);
      assert InterfaceEntries(adapters[..n]) + [InterfaceEntry(adapters[n])] == InterfaceEntries(adapters[..n + 1]);
    }
  }

  /**
   * Init's inner loop over one adapter's addresses: each IPv4 address adds an
   * "http" endpoint on `port`, and sets the href if it is still empty.
   */
  method AddAddressEndpoints(href0: string, endpoints0: Slice<Endpoint>, addrs: seq<IP>, port: int)
    returns (href: string, endpoints: Slice<Endpoint>)
    ensures href == InitialHref(href0, AddrHosts(addrs), port)
    ensures endpoints == endpoints0.AppendAll(EndpointsFor(AddrHosts(addrs), port))
  {
    href, endpoints := href0, endpoints0;
    for k := 0 to |addrs|
      invariant href == InitialHref(href0, AddrHosts(addrs[..k]), port)
      invariant endpoints == endpoints0.AppendAll(EndpointsFor(AddrHosts(addrs[..k]), port))
    {
      AddressStep(href0, endpoints0, addrs, k, port);
      match To4(addrs[k]) {
        case Some(v4) =>
          var host := IPv4String(v4);
          if href == "" {
            href := NodeHref(host, port);
          }
          endpoints := endpoints.AppendAll([Endpoint(host, port, "http")]);
        case None =>
      }
    }
    assert addrs[..|addrs|] == addrs;
  }

  /** Visiting one more address: an IPv4 one adds its endpoint and sets an empty href; any other changes nothing. */
  lemma AddressStep(href0: string, endpoints0: Slice<Endpoint>, addrs: seq<IP>, k: nat, port: int)
    requires k < |addrs|
    ensures var hosts, hosts' := AddrHosts(addrs[..k]), AddrHosts(addrs[..k + 1]);
      match To4(addrs[k])
      case Some(v4) =>
        var host := IPv4String(v4);
        var h := InitialHref(href0, hosts, port);
        && InitialHref(href0, hosts', port) == (if h == "" then NodeHref(host, port) else h)
        && endpoints0.AppendAll(EndpointsFor(hosts', port))
          == endpoints0.AppendAll(EndpointsFor(hosts, port)).AppendAll([Endpoint(host, port, "http")])
      case None => hosts' == hosts
  {
    var hosts := AddrHosts(addrs[..k]);
    AddrHostsStep(addrs, k);
    match To4(addrs[k]) {
      case Some(v4) =>
        var host := IPv4String(v4);
        InitialHrefAppend(href0, hosts, [host], port);
        AppendAllTwice(endpoints0, EndpointsFor(hosts, port), [Endpoint(host, port, "http")]);
        EndpointsForAppend(hosts, [host], port);
      case None =>
    }
  }

  /** One more address adds its dotted form when it has an IPv4 form, and nothing otherwise. */
  lemma AddrHostsStep(addrs: seq<IP>, k: nat)
    requires k < |addrs|
    ensures AddrHosts(addrs[..k + 1])
      == AddrHosts(addrs[..k]) + (match To4(addrs[k]) case Some(v4) => [IPv4String(v4)] case None => [])
  {
    assert addrs[..k + 1][..k] == addrs[..k];
  }

  lemma InitialHrefAppend(h: string, a: seq<string>, b: seq<string>, port: int)
    ensures InitialHref(InitialHref(h, a, port), b, port) == InitialHref(h, a + b, port)
  {
    if h == "" && |a| == 0 {
      assert a + b == b;
    }
  }

  lemma EndpointsForAppend(a: seq<string>, b: seq<string>, port: int)
    ensures EndpointsFor(a, port) + EndpointsFor(b, port) == EndpointsFor(a + b, port)
  {
  }

  /**
   * Init names the node after the host: the label is the host name up to its
   * first '.', the description adds "-node", the full name is kept, and the
   * version and id are replaced.
   */
  lemma InitNamesNode(before: Node, port: int, hostName: string, ifaces: seq<NetInterface>, newId: Uuid)
    ensures var n := Initialized(before, port, hostName, ifaces, newId);
      && '.' !in n.labelText
      && n.labelText <= hostName
      && (n.labelText == hostName || hostName[|n.labelText|] == '.')
      && n.description == n.labelText + "-node"
      && n.hostname == hostName
      && n.version == InitVersion
      && n.id == newId
  {
    FirstFieldIsPrefixBeforeSeparator(hostName, '.');
  }

  /**
   * Init adds the four Node API versions after any already present, and
   * leaves services and clocks empty lists rather than null.
   */
  lemma InitListsVersions(before: Node, port: int, hostName: string, ifaces: seq<NetInterface>, newId: Uuid)
    ensures var n := Initialized(before, port, hostName, ifaces, newId);
      && n.api.versions.Of?
      && n.api.versions.elems == before.api.versions.Items() + ["v1.0", "v1.1", "v1.2", "v1.3"]
      && n.services == Of([]) && n.clocks == Of([])
  {
  }

  /**
   * Every IPv4 address of every chosen adapter adds one endpoint on `port`
   * over "http", in order, after the endpoints already present; the href is
   * set from the first one only when it was empty.
   */
  lemma InitEndpoints(before: Node, port: int, hostName: string, ifaces: seq<NetInterface>, newId: Uuid)
    ensures var n := Initialized(before, port, hostName, ifaces, newId);
      var hosts := AdapterHosts(PreferredAdapters(ifaces));
      var priorEndpoints := before.api.endpoints.Items();
      var es := n.api.endpoints.Items();
      && |es| == |priorEndpoints| + |hosts|
      && es[..|priorEndpoints|] == priorEndpoints
      && (forall i :: 0 <= i < |hosts| ==> es[|priorEndpoints| + i] == Endpoint(hosts[i], port, "http"))
      && (before.href == "" && |hosts| > 0 ==> n.href == "http://" + hosts[0] + ":" + FormatInt(port))
      && (before.href != "" || |hosts| == 0 ==> n.href == before.href)
  {
    var n := Initialized(before, port, hostName, ifaces, newId);
    var hosts := AdapterHosts(PreferredAdapters(ifaces));
    assert n.api.endpoints.Items() == before.api.endpoints.Items() + EndpointsFor(hosts, port);
  }

  /**
   * Every chosen adapter adds one interface whose name is the adapter's and
   * whose chassis and port ids are both its MAC address as lower-case hex
   * pairs joined by '-'.
   */
  lemma InitInterfaces(before: Node, port: int, hostName: string, ifaces: seq<NetInterface>, newId: Uuid)
    ensures var n := Initialized(before, port, hostName, ifaces, newId);
      var adapters := PreferredAdapters(ifaces);
      var priorEntries := before.interfaces.Items();
      var entriesNow := n.interfaces.Items();
      && |entriesNow| == |priorEntries| + |adapters|
      && entriesNow[..|priorEntries|] == priorEntries
      && forall i :: 0 <= i < |adapters| ==>
           && entriesNow[|priorEntries| + i].name == adapters[i].name
           && entriesNow[|priorEntries| + i].chassisId == Join(HexBytes(adapters[i].hardwareAddr), "-")
           && entriesNow[|priorEntries| + i].portId == entriesNow[|priorEntries| + i].chassisId
  {
    var n := Initialized(before, port, hostName, ifaces, newId);
    var adapters := PreferredAdapters(ifaces);
    var priorEntries := before.interfaces.Items();
    assert n.interfaces.Items() == priorEntries + InterfaceEntries(adapters);
    forall i | 0 <= i < |adapters|
      ensures n.interfaces.Items()[|priorEntries| + i] == InterfaceEntry(adapters[i])
      ensures InterfaceEntry(adapters[i]).chassisId == Join(HexBytes(adapters[i].hardwareAddr), "-")
    {
      InterfaceEntryUsesDashedMac(adapters[i]);
    }
  }

  /** Both ids of an interface entry are the MAC address, as lower-case hex pairs joined by '-'. */
  lemma InterfaceEntryUsesDashedMac(a: NetInterface)
    ensures var e := InterfaceEntry(a);
      && e.name == a.name
      && e.chassisId == e.portId
      && e.chassisId == Join(HexBytes(a.hardwareAddr), "-")
  {
    var parts := HexBytes(a.hardwareAddr);
    forall i | 0 <= i < |parts|
      ensures ':' !in parts[i]
    {
      HexByteCharacters(a.hardwareAddr[i], ':');
    }
    ReplaceJoinSeparator(parts, ':', '-');
  }

  lemma {:induction false} AdapterHostsOfCopies(a: NetInterface, adapters: seq<NetInterface>)
    requires forall i :: 0 <= i < |adapters| ==> adapters[i] == a
    ensures |AdapterHosts(adapters)| == |adapters| * |AddrHosts(a.addrs)|
    decreases |adapters|
  {
    if adapters != [] {
      var n, m := |adapters|, |AddrHosts(a.addrs)|;
      assert (n - 1) * m + m == n * m;
      AdapterHostsOfCopies(a, adapters[..n - 1]);
      assert |AdapterHosts(adapters)| == (n - 1) * m + m;
    }
  }

  /**
   * Because an adapter is returned once per IPv4 address and Init visits all
   * addresses of every copy, an adapter with m IPv4 addresses yields m * m
   * endpoints and m interface entries.
   */
  lemma InitRepeatsAdapter(a: NetInterface)
    requires a.flags == PreferredFlags
    ensures var m := |AddrHosts(a.addrs)|;
      && |AdapterHosts(PreferredAdapters([a]))| == m * m
      && |InterfaceEntries(PreferredAdapters([a]))| == m
  {
    PreferredAdaptersOfOne(a);
    AdapterHostsOfCopies(a, PreferredAdapters([a]));
  }
}
