/**
 * How encoding/json writes the records of the resource model: one object
 * member per exported field, named by its json tag, in declaration order;
 * empty Tags and Caps structs as `{}`; UUIDs as their text form; nil slices as
 * `null`. A device is written through its MarshalJSON, that is as its
 * normalised projection. Each encoder has a positional reference decoder,
 * and the round-trip lemmas show that the encoding loses nothing but what
 * normalisation drops.
 */
module WireCodec {
  import opened Wrappers
  import opened Uuids
  import opened Wire
  import opened Nmos

  /** The encoding of an empty struct (NMOSTags, NMOSCapabilities). */
  const EmptyStruct: Json := Object([])

  function StringJson(s: string): Json {
    Str(s)
  }

  function UuidJson(u: Uuid): Json {
    Str(ToString(u))
  }

  function DecodeUuid(j: Json): Option<Uuid> {
    var s :- AsString(j);
    Parse(s)
  }

  lemma UuidRoundTrip(u: Uuid)
    ensures DecodeUuid(UuidJson(u)) == Some(u)
  {
    ToStringRoundTrip(u);
  }

  // ---------------------------------------------------------------- node parts

  const EndpointKeys: seq<string> := ["host", "port", "protocol"]

  function EndpointJson(e: Endpoint): Json {
    Obj(EndpointKeys, [Str(e.host), Number(e.port), Str(e.protocol)])
  }

  function DecodeEndpoint(j: Json): Option<Endpoint> {
    var vs :- Fields(j, EndpointKeys);
    var host :- AsString(vs[0]);
    var port :- AsNumber(vs[1]);
    var protocol :- AsString(vs[2]);
    Some(Endpoint(host, port, protocol))
  }

  lemma EndpointRoundTrip(e: Endpoint)
    ensures DecodeEndpoint(EndpointJson(e)) == Some(e)
  {
    FieldsOfObj(EndpointKeys, [Str(e.host), Number(e.port), Str(e.protocol)]);
  }

  const ApiKeys: seq<string> := ["versions", "endpoints"]

  function ApiJson(a: Api): Json {
    Obj(ApiKeys, [SliceJson(a.versions, StringJson), SliceJson(a.endpoints, EndpointJson)])
  }

  function DecodeApi(j: Json): Option<Api> {
    var vs :- Fields(j, ApiKeys);
    var versions :- DecodeSlice(vs[0], AsString);
    var endpoints :- DecodeSlice(vs[1], DecodeEndpoint);
    Some(Api(versions, endpoints))
  }

  lemma ApiRoundTrip(a: Api)
    ensures DecodeApi(ApiJson(a)) == Some(a)
  {
    FieldsOfObj(ApiKeys, [SliceJson(a.versions, StringJson), SliceJson(a.endpoints, EndpointJson)]);
    SliceRoundTrip(a.versions, StringJson, AsString);
    forall e | e in a.endpoints.Items()
      ensures DecodeEndpoint(EndpointJson(e)) == Some(e)
    {
      EndpointRoundTrip(e);
    }
    SliceRoundTrip(a.endpoints, EndpointJson, DecodeEndpoint);
  }

  const ServiceKeys: seq<string> := ["href", "type"]

  function ServiceJson(s: Service): Json {
    Obj(ServiceKeys, [Str(s.href), Str(s.serviceType)])
  }

  function DecodeService(j: Json): Option<Service> {
    var vs :- Fields(j, ServiceKeys);
    var href :- AsString(vs[0]);
    var serviceType :- AsString(vs[1]);
    Some(Service(href, serviceType))
  }

  lemma ServiceRoundTrip(s: Service)
    ensures DecodeService(ServiceJson(s)) == Some(s)
  {
    FieldsOfObj(ServiceKeys, [Str(s.href), Str(s.serviceType)]);
  }

  const ClockKeys: seq<string> := ["name", "ref_type", "traceable", "version", "gmid", "locked"]

  function ClockJson(c: Clock): Json {
    Obj(ClockKeys, [Str(c.name), Str(c.refType), Bool(c.traceable), Str(c.version), Str(c.gmid), Bool(c.locked)])
  }

  function DecodeClock(j: Json): Option<Clock> {
    var vs :- Fields(j, ClockKeys);
    var name :- AsString(vs[0]);
    var refType :- AsString(vs[1]);
    var traceable :- AsBool(vs[2]);
    var version :- AsString(vs[3]);
    var gmid :- AsString(vs[4]);
    var locked :- AsBool(vs[5]);
    Some(Clock(name, refType, traceable, version, gmid, locked))
  }

  lemma ClockRoundTrip(c: Clock)
    ensures DecodeClock(ClockJson(c)) == Some(c)
  {
    FieldsOfObj(ClockKeys, [Str(c.name), Str(c.refType), Bool(c.traceable), Str(c.version), Str(c.gmid), Bool(c.locked)]);
  }

  const InterfaceKeys: seq<string> := ["name", "chassis_id", "port_id"]

  /** The unexported attached-device field is not written. */
  function InterfaceJson(i: Interface): Json {
    Obj(InterfaceKeys, [Str(i.name), Str(i.chassisId), Str(i.portId)])
  }

  function DecodeInterface(j: Json): Option<Interface> {
    var vs :- Fields(j, InterfaceKeys);
    var name :- AsString(vs[0]);
    var chassisId :- AsString(vs[1]);
    var portId :- AsString(vs[2]);
    Some(Interface(name, chassisId, portId))
  }

  lemma InterfaceRoundTrip(i: Interface)
    ensures DecodeInterface(InterfaceJson(i)) == Some(i)
  {
    FieldsOfObj(InterfaceKeys, [Str(i.name), Str(i.chassisId), Str(i.portId)]);
  }

  // ---------------------------------------------------------------- node

  const NodeKeys: seq<string> :=
    ["version", "hostname", "label", "description", "tags", "href", "api", "services", "caps", "id", "clocks", "interfaces"]

  function NodeValues(n: Node): seq<Json> {
    [Str(n.version), Str(n.hostname), Str(n.labelText), Str(n.description), EmptyStruct, Str(n.href),
     ApiJson(n.api), SliceJson(n.services, ServiceJson), EmptyStruct, UuidJson(n.id),
     SliceJson(n.clocks, ClockJson), SliceJson(n.interfaces, InterfaceJson)]
  }

  function NodeJson(n: Node): Json {
    Obj(NodeKeys, NodeValues(n))
  }

  function DecodeNode(j: Json): Option<Node> {
    var vs :- Fields(j, NodeKeys);
    DecodeNodeValues(vs)
  }

  function DecodeNodeValues(vs: seq<Json>): Option<Node>
    requires |vs| == |NodeKeys|
  {
    var version :- AsString(vs[0]);
    var hostname :- AsString(vs[1]);
    var labelText :- AsString(vs[2]);
    var description :- AsString(vs[3]);
    var href :- AsString(vs[5]);
    var api :- DecodeApi(vs[6]);
    var services :- DecodeSlice(vs[7], DecodeService);
    var id :- DecodeUuid(vs[9]);
    var clocks :- DecodeSlice(vs[10], DecodeClock);
    var interfaces :- DecodeSlice(vs[11], DecodeInterface);
    Some(Node(version, hostname, labelText, description, href, api, services, id, clocks, interfaces))
  }

  /** A node is read back from its JSON form. */
  lemma NodeRoundTrip(n: Node)
    ensures DecodeNode(NodeJson(n)) == Some(n)
  {
    FieldsOfObj(NodeKeys, NodeValues(n));
    NodeValuesRoundTrip(n);
  }

  lemma NodeValuesRoundTrip(n: Node)
    ensures DecodeNodeValues(NodeValues(n)) == Some(n)
  {
    NodeStringFields(n);
    NodeListFields(n);
    NodeIdField(n);
    DecodeNodeFields(NodeValues(n), n);
  }

  lemma NodeStringFields(n: Node)
    ensures |NodeValues(n)| == |NodeKeys|
    ensures AsString(NodeValues(n)[0]) == Some(n.version) && AsString(NodeValues(n)[1]) == Some(n.hostname)
    ensures AsString(NodeValues(n)[2]) == Some(n.labelText) && AsString(NodeValues(n)[3]) == Some(n.description)
    ensures AsString(NodeValues(n)[5]) == Some(n.href)
  {
  }

  lemma NodeIdField(n: Node)
    ensures DecodeUuid(NodeValues(n)[9]) == Some(n.id)
  {
    assert NodeValues(n)[9] == UuidJson(n.id);
    UuidRoundTrip(n.id);
  }

  lemma NodeListFields(n: Node)
    ensures DecodeApi(NodeValues(n)[6]) == Some(n.api)
    ensures DecodeSlice(NodeValues(n)[7], DecodeService) == Some(n.services)
    ensures DecodeSlice(NodeValues(n)[10], DecodeClock) == Some(n.clocks)
    ensures DecodeSlice(NodeValues(n)[11], DecodeInterface) == Some(n.interfaces)
  {
    assert NodeValues(n)[6] == ApiJson(n.api);
    assert NodeValues(n)[7] == SliceJson(n.services, ServiceJson);
    assert NodeValues(n)[10] == SliceJson(n.clocks, ClockJson);
    assert NodeValues(n)[11] == SliceJson(n.interfaces, InterfaceJson);
    ApiRoundTrip(n.api);
    forall s | s in n.services.Items()
      ensures DecodeService(ServiceJson(s)) == Some(s)
    {
      ServiceRoundTrip(s);
    }
    SliceRoundTrip(n.services, ServiceJson, DecodeService);
    forall c | c in n.clocks.Items()
      ensures DecodeClock(ClockJson(c)) == Some(c)
    {
      ClockRoundTrip(c);
    }
    SliceRoundTrip(n.clocks, ClockJson, DecodeClock);
    forall i | i in n.interfaces.Items()
      ensures DecodeInterface(InterfaceJson(i)) == Some(i)
    {
      InterfaceRoundTrip(i);
    }
    SliceRoundTrip(n.interfaces, InterfaceJson, DecodeInterface);
  }

  /** The positional decoder rebuilds n from any values whose fields decode to those of n. */
  lemma DecodeNodeFields(vs: seq<Json>, n: Node)
    requires |vs| == |NodeKeys|
    requires AsString(vs[0]) == Some(n.version) && AsString(vs[1]) == Some(n.hostname)
    requires AsString(vs[2]) == Some(n.labelText) && AsString(vs[3]) == Some(n.description)
    requires AsString(vs[5]) == Some(n.href) && DecodeApi(vs[6]) == Some(n.api)
    requires DecodeSlice(vs[7], DecodeService) == Some(n.services) && DecodeUuid(vs[9]) == Some(n.id)
    requires DecodeSlice(vs[10], DecodeClock) == Some(n.clocks)
    requires DecodeSlice(vs[11], DecodeInterface) == Some(n.interfaces)
    ensures DecodeNodeValues(vs) == Some(n)
  {
  }

  // ---------------------------------------------------------------- senders and receivers

  const SubscriptionKeys: seq<string> := ["receiver_id", "active"]

  function SubscriptionJson(s: Subscription): Json {
    Obj(SubscriptionKeys, [UuidJson(s.receiverId), Bool(s.active)])
  }

  function DecodeSubscription(j: Json): Option<Subscription> {
    var vs :- Fields(j, SubscriptionKeys);
    var receiverId :- DecodeUuid(vs[0]);
    var active :- AsBool(vs[1]);
    Some(Subscription(receiverId, active))
  }

  lemma SubscriptionRoundTrip(s: Subscription)
    ensures DecodeSubscription(SubscriptionJson(s)) == Some(s)
  {
    FieldsOfObj(SubscriptionKeys, [UuidJson(s.receiverId), Bool(s.active)]);
    UuidRoundTrip(s.receiverId);
  }

  /** The unexported caps field is not written. */
  const SenderKeys: seq<string> :=
    ["id", "version", "description", "label", "tags", "manifest_href", "flow_id", "transport", "device_id",
     "interface_bindings", "subscription"]

  function SenderValues(s: Sender): seq<Json> {
    [UuidJson(s.id), Str(s.version), Str(s.description), Str(s.labelText), EmptyStruct, Str(s.manifestHref),
     UuidJson(s.flowId), Str(s.transport), UuidJson(s.deviceId), SliceJson(s.interfaceBindings, StringJson),
     SubscriptionJson(s.subscription)]
  }

  function SenderJson(s: Sender): Json {
    Obj(SenderKeys, SenderValues(s))
  }

  function DecodeSender(j: Json): Option<Sender> {
    var vs :- Fields(j, SenderKeys);
    DecodeSenderValues(vs)
  }

  function DecodeSenderValues(vs: seq<Json>): Option<Sender>
    requires |vs| == |SenderKeys|
  {
    var id :- DecodeUuid(vs[0]);
    var version :- AsString(vs[1]);
    var description :- AsString(vs[2]);
    var labelText :- AsString(vs[3]);
    var manifestHref :- AsString(vs[5]);
    var flowId :- DecodeUuid(vs[6]);
    var transport :- AsString(vs[7]);
    var deviceId :- DecodeUuid(vs[8]);
    var interfaceBindings :- DecodeSlice(vs[9], AsString);
    var subscription :- DecodeSubscription(vs[10]);
    Some(Sender(id, version, description, labelText, manifestHref, flowId, transport, deviceId, interfaceBindings,
                subscription))
  }

  /** A sender is read back from its JSON form. */
  lemma SenderRoundTrip(s: Sender)
    ensures DecodeSender(SenderJson(s)) == Some(s)
  {
    FieldsOfObj(SenderKeys, SenderValues(s));
    SenderValuesRoundTrip(s);
  }

  lemma SenderValuesRoundTrip(s: Sender)
    ensures DecodeSenderValues(SenderValues(s)) == Some(s)
  {
    SenderUuidFields(s);
    SenderStringFields(s);
    SenderOtherFields(s);
    DecodeSenderFields(SenderValues(s), s);
  }

  lemma SenderUuidFields(s: Sender)
    ensures DecodeUuid(SenderValues(s)[0]) == Some(s.id)
    ensures DecodeUuid(SenderValues(s)[6]) == Some(s.flowId)
    ensures DecodeUuid(SenderValues(s)[8]) == Some(s.deviceId)
  {
    SenderUuidPositions(s);
    UuidRoundTrip(s.id);
    UuidRoundTrip(s.flowId);
    UuidRoundTrip(s.deviceId);
  }

  lemma SenderUuidPositions(s: Sender)
    ensures SenderValues(s)[0] == UuidJson(s.id) && SenderValues(s)[6] == UuidJson(s.flowId)
    ensures SenderValues(s)[8] == UuidJson(s.deviceId)
  {
  }

  lemma SenderStringFields(s: Sender)
    ensures |SenderValues(s)| == |SenderKeys|
    ensures AsString(SenderValues(s)[1]) == Some(s.version) && AsString(SenderValues(s)[2]) == Some(s.description)
    ensures AsString(SenderValues(s)[3]) == Some(s.labelText) && AsString(SenderValues(s)[5]) == Some(s.manifestHref)
    ensures AsString(SenderValues(s)[7]) == Some(s.transport)
  {
  }

  lemma SenderOtherFields(s: Sender)
    ensures DecodeSlice(SenderValues(s)[9], AsString) == Some(s.interfaceBindings)
    ensures DecodeSubscription(SenderValues(s)[10]) == Some(s.subscription)
  {
    SliceRoundTrip(s.interfaceBindings, StringJson, AsString);
    SubscriptionRoundTrip(s.subscription);
  }

  /** The positional decoder rebuilds s from any values whose fields decode to those of s. */
  lemma DecodeSenderFields(vs: seq<Json>, s: Sender)
    requires |vs| == |SenderKeys|
    requires DecodeUuid(vs[0]) == Some(s.id) && AsString(vs[1]) == Some(s.version)
    requires AsString(vs[2]) == Some(s.description) && AsString(vs[3]) == Some(s.labelText)
    requires AsString(vs[5]) == Some(s.manifestHref) && DecodeUuid(vs[6]) == Some(s.flowId)
    requires AsString(vs[7]) == Some(s.transport) && DecodeUuid(vs[8]) == Some(s.deviceId)
    requires DecodeSlice(vs[9], AsString) == Some(s.interfaceBindings)
    requires DecodeSubscription(vs[10]) == Some(s.subscription)
    ensures DecodeSenderValues(vs) == Some(s)
  {
  }

  /** A list of senders, such as the "senders" Node API resource, is read back in order; nil stays null. */
  lemma SenderListRoundTrip(ss: Slice<Sender>)
    ensures DecodeSlice(SliceJson(ss, SenderJson), DecodeSender) == Some(ss)
  {
    forall s | s in ss.Items()
      ensures DecodeSender(SenderJson(s)) == Some(s)
    {
      SenderRoundTrip(s);
    }
    SliceRoundTrip(ss, SenderJson, DecodeSender);
  }

  /** Id is the only exported field of NMOSReceiver, so it is the only member written. */
  function ReceiverJson(r: Receiver): Json {
    Obj(["Id"], [UuidJson(r.id)])
  }

  function DecodeReceiver(j: Json): Option<Receiver> {
    var vs :- Fields(j, ["Id"]);
    var id :- DecodeUuid(vs[0]);
    Some(Receiver(id))
  }

  lemma ReceiverRoundTrip(r: Receiver)
    ensures DecodeReceiver(ReceiverJson(r)) == Some(r)
  {
    FieldsOfObj(["Id"], [UuidJson(r.id)]);
    UuidRoundTrip(r.id);
  }

  // ---------------------------------------------------------------- devices

  const ControlKeys: seq<string> := ["type", "href"]

  function ControlJson(c: Control): Json {
    Obj(ControlKeys, [Str(c.controlType), Str(c.href)])
  }

  function DecodeControl(j: Json): Option<Control> {
    var vs :- Fields(j, ControlKeys);
    var controlType :- AsString(vs[0]);
    var href :- AsString(vs[1]);
    Some(Control(controlType, href))
  }

  lemma ControlRoundTrip(c: Control)
    ensures DecodeControl(ControlJson(c)) == Some(c)
  {
    FieldsOfObj(ControlKeys, [Str(c.controlType), Str(c.href)]);
  }

  const DeviceKeys: seq<string> :=
    ["id", "version", "description", "label", "tags", "type", "node_id", "senders", "receivers", "controls"]

  function NormalizedValues(d: NormalizedDevice): seq<Json> {
    [UuidJson(d.id), Str(d.version), Str(d.description), Str(d.labelText), EmptyStruct, Str(d.deviceType),
     UuidJson(d.nodeId), SliceJson(d.senders, UuidJson), SliceJson(d.receivers, UuidJson),
     SliceJson(d.controls, ControlJson)]
  }

  /** pNMOSDevice as encoding/json writes it. */
  function NormalizedJson(d: NormalizedDevice): Json {
    Obj(DeviceKeys, NormalizedValues(d))
  }

  /** NMOSDevice.MarshalJSON: the device is written as its normalised projection. */
  function DeviceJson(d: Device): Json {
    NormalizedJson(Normalize(d))
  }

  function DecodeNormalized(j: Json): Option<NormalizedDevice> {
    var vs :- Fields(j, DeviceKeys);
    DecodeNormalizedValues(vs)
  }

  function DecodeNormalizedValues(vs: seq<Json>): Option<NormalizedDevice>
    requires |vs| == |DeviceKeys|
  {
    var id :- DecodeUuid(vs[0]);
    var version :- AsString(vs[1]);
    var description :- AsString(vs[2]);
    var labelText :- AsString(vs[3]);
    var deviceType :- AsString(vs[5]);
    var nodeId :- DecodeUuid(vs[6]);
    var senders :- DecodeSlice(vs[7], DecodeUuid);
    var receivers :- DecodeSlice(vs[8], DecodeUuid);
    var controls :- DecodeSlice(vs[9], DecodeControl);
    Some(NormalizedDevice(id, version, description, labelText, deviceType, nodeId, senders, receivers, controls))
  }

  lemma {:induction false} UuidsRoundTrip(us: Slice<Uuid>)
    ensures DecodeSlice(SliceJson(us, UuidJson), DecodeUuid) == Some(us)
  {
    forall u | u in us.Items()
      ensures DecodeUuid(UuidJson(u)) == Some(u)
    {
      UuidRoundTrip(u);
    }
    SliceRoundTrip(us, UuidJson, DecodeUuid);
  }

  /** What a reader gets back from a device's JSON is exactly its normalised projection. */
  lemma DeviceRoundTrip(d: Device)
    ensures DecodeNormalized(DeviceJson(d)) == Some(Normalize(d))
  {
    var nd := Normalize(d);
    FieldsOfObj(DeviceKeys, NormalizedValues(nd));
    NormalizedValuesRoundTrip(nd);
  }

  lemma NormalizedValuesRoundTrip(nd: NormalizedDevice)
    ensures DecodeNormalizedValues(NormalizedValues(nd)) == Some(nd)
  {
    NormalizedStringFields(nd);
    NormalizedUuidFields(nd);
    NormalizedListFields(nd);
    DecodeNormalizedFields(NormalizedValues(nd), nd);
  }

  lemma NormalizedStringFields(nd: NormalizedDevice)
    ensures |NormalizedValues(nd)| == |DeviceKeys|
    ensures AsString(NormalizedValues(nd)[1]) == Some(nd.version)
    ensures AsString(NormalizedValues(nd)[2]) == Some(nd.description)
    ensures AsString(NormalizedValues(nd)[3]) == Some(nd.labelText)
    ensures AsString(NormalizedValues(nd)[5]) == Some(nd.deviceType)
  {
  }

  lemma NormalizedUuidFields(nd: NormalizedDevice)
    ensures DecodeUuid(NormalizedValues(nd)[0]) == Some(nd.id)
    ensures DecodeUuid(NormalizedValues(nd)[6]) == Some(nd.nodeId)
  {
    assert NormalizedValues(nd)[0] == UuidJson(nd.id) && NormalizedValues(nd)[6] == UuidJson(nd.nodeId);
    UuidRoundTrip(nd.id);
    UuidRoundTrip(nd.nodeId);
  }

  lemma NormalizedListFields(nd: NormalizedDevice)
    ensures DecodeSlice(NormalizedValues(nd)[7], DecodeUuid) == Some(nd.senders)
    ensures DecodeSlice(NormalizedValues(nd)[8], DecodeUuid) == Some(nd.receivers)
    ensures DecodeSlice(NormalizedValues(nd)[9], DecodeControl) == Some(nd.controls)
  {
    assert NormalizedValues(nd)[7] == SliceJson(nd.senders, UuidJson);
    assert NormalizedValues(nd)[8] == SliceJson(nd.receivers, UuidJson);
    assert NormalizedValues(nd)[9] == SliceJson(nd.controls, ControlJson);
    UuidsRoundTrip(nd.senders);
    UuidsRoundTrip(nd.receivers);
    forall c | c in nd.controls.Items()
      ensures DecodeControl(ControlJson(c)) == Some(c)
    {
      ControlRoundTrip(c);
    }
    SliceRoundTrip(nd.controls, ControlJson, DecodeControl);
  }

  /** The positional decoder rebuilds nd from any values whose fields decode to those of nd. */
  lemma DecodeNormalizedFields(vs: seq<Json>, nd: NormalizedDevice)
    requires |vs| == |DeviceKeys|
    requires DecodeUuid(vs[0]) == Some(nd.id) && AsString(vs[1]) == Some(nd.version)
    requires AsString(vs[2]) == Some(nd.description) && AsString(vs[3]) == Some(nd.labelText)
    requires AsString(vs[5]) == Some(nd.deviceType) && DecodeUuid(vs[6]) == Some(nd.nodeId)
    requires DecodeSlice(vs[7], DecodeUuid) == Some(nd.senders)
    requires DecodeSlice(vs[8], DecodeUuid) == Some(nd.receivers)
    requires DecodeSlice(vs[9], DecodeControl) == Some(nd.controls)
    ensures DecodeNormalizedValues(vs) == Some(nd)
  {
  }

  /**
   * A device's "senders" and "receivers" members are arrays, never null,
   * holding the text ids of its senders and receivers in order.
   */
  lemma DeviceJsonListsIds(d: Device)
    ensures var ms := DeviceJson(d).members;
      && |ms| == 10
      && ms[7].0 == "senders" && ms[8].0 == "receivers"
      && ms[7].1.Array? && ms[8].1.Array?
      && |ms[7].1.items| == |d.senders.Items()| && |ms[8].1.items| == |d.receivers.Items()|
      && (forall i :: 0 <= i < |ms[7].1.items| ==> ms[7].1.items[i] == Str(ToString(d.senders.Items()[i].id)))
      && (forall i :: 0 <= i < |ms[8].1.items| ==> ms[8].1.items[i] == Str(ToString(d.receivers.Items()[i].id)))
  {
    var nd := Normalize(d);
    var ms := DeviceJson(d).members;
    assert ms[7].0 == DeviceKeys[7] && ms[8].0 == DeviceKeys[8];
    assert ms[7].1 == NormalizedValues(nd)[7] == Array(EncodeAll(SenderIds(d.senders.Items()), UuidJson));
    assert ms[8].1 == NormalizedValues(nd)[8] == Array(EncodeAll(ReceiverIds(d.receivers.Items()), UuidJson));
  }

  // ---------------------------------------------------------------- envelopes

  const EnvelopeKeys: seq<string> := ["type", "data"]

  function ResourceJson(r: Resource): Json {
    match r
    case NodeResource(n) => NodeJson(n)
    case DeviceResource(d) => DeviceJson(d)
    case SenderResource(s) => SenderJson(s)
    case ReceiverResource(rc) => ReceiverJson(rc)
  }

  function EnvelopeJson(e: Envelope): Json {
    Obj(EnvelopeKeys, [Str(e.kind), ResourceJson(e.data)])
  }

  /** The type name and node carried by an envelope whose data is a node. */
  function DecodeNodeEnvelope(j: Json): Option<(string, Node)> {
    var vs :- Fields(j, EnvelopeKeys);
    var kind :- AsString(vs[0]);
    var n :- DecodeNode(vs[1]);
    Some((kind, n))
  }

  /** A node posted in an envelope arrives with its type name and unmodified. */
  lemma NodeEnvelopeRoundTrip(n: Node, name: string)
    ensures DecodeNodeEnvelope(EnvelopeJson(MakeTransmission(NodeResource(n), name))) == Some((name, n))
  {
    FieldsOfObj(EnvelopeKeys, [Str(name), NodeJson(n)]);
    NodeRoundTrip(n);
  }
}
