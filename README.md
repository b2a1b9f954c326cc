# gonmos in Dafny

A model of the core of gonmos, a Go implementation of parts of the AMWA
NMOS IS-04 (discovery and registration) and IS-05 (connection) APIs:

- **Resource model**: the node, device, sender and receiver records, and how
  encoding/json writes them. Objects follow field order. UUIDs are written in
  their text form. A nil slice is written `null`, as distinct from `[]`.
  A device is written through its MarshalJSON, which swaps its senders and
  receivers for their ids.
- **Node initialisation**: adapter selection by flags and IPv4 addresses.
  Init fills the node in place: its label, description, href, endpoints,
  interfaces and versions.
- **Node web server**: the DNS-SD TXT record (`MdnsText`, which appears three
  times in the repository), the Node API and Connection API handlers, and the
  host name cleanup before advertising.
- **Registration agent**, in two versions:
  - pkg/node/node.go: a refusal by the registry is fatal;
  - main.go: the registry's answer is ignored.

  Both keep every discovered registry they reach and post the node in a
  `{type, data}` envelope to it, and keep the health URI of the latest one.
  main.go does this for every registry and starts a heartbeat for each.
  pkg/node/node.go starts a heartbeat only after a 201, and its first other
  status ends the process, so later registries are neither posted to nor
  given a heartbeat.
- **Registry programs**: cmd/register/main.go and register/main.go. What they
  advertise, the Node API of the first, and its choice of interface by name.

Modules: `Wrappers` (Option), `Text` (strconv/strings helpers with reference
parsers), `Uuids`, `Net`, `Wire` (JSON values and Go slices), `Nmos` (records,
normalisation, adapters, `NodeData.Init`), `WireCodec` (JSON encoding with
positional reference decoders), `Api` (TXT records, handlers, `WebServer`),
`Registration` (URIs, the bookkeeping of registering, the heartbeat loop),
`Agent` (`NmosNode`), `LegacyApp` (`App`), `Registry` (the registry
programs).

**How the two agents are stated.** Both agent classes are tied to a single
specification of the bookkeeping, `Registration.ProcessEntries`, and its
lemmas state the promises:

- every registry is recorded and registered in arrival order;
- the last registry's health URI wins;
- strict mode stops at the first refusal;
- lenient mode ignores statuses;
- the agent only ever posts registrations.

**Parameters instead of side effects.** Side effects of the source become
parameters:

- `os.Hostname`, `uuid.New` and `net.Interfaces` (with each interface's
  `Addrs`);
- the registries discovery delivers;
- the HTTP status of each registration POST;
- the cancellation that the heartbeat loop observes on each tick.

**Where the model follows the code rather than the design.**

- pkg/node/node.go and main.go call `Init()` with no argument, but
  `NMOSNodeData.Init` takes a port. The agent passes its web server port,
  8889, and `LegacyApp.App.Run` takes the port as a parameter.
- main.go's `nmos.NMOSNode` is taken to be `NMOSNodeData`.
- `handleSendersAPI` keeps two quirks of the code:
  - it lists the first sender's `Device_id` once per sender (line 80);
  - it matches a query against `Device_id`, not against the sender id (line 90).
- The connection resource list is spelled "recievers/", as in the code.
- pkg/node/node.go:99 calls `InitNode()` with no arguments, but
  `NMOSWebServer.InitNode` takes a node pointer and a device pointer. The
  agent passes its own node and no device (nil).
- pkg/node/node.go:60 and main.go:59 call `MakeTransmission(a.Node)` with one
  argument, but `MakeTransmission` takes the object and its type name. The
  model passes "node".
- The Connection API routes registered at pkg/nmos/api.go:219-228 bind
  `version`, `id` and `sinkId`, never `mode` or `resource`. So in the running
  server `mode` is always "", and every Connection API request is answered
  `["bulk/","single/"]` without reading the device (`Api.RoutedSendersRequest`).
  `handleSendersAPI` is still modelled as a function of its path variables,
  so its other branches are stated as the code reads.
- Both registry programs advertise in the domain the `-domain` flag gives
  ("local." by default), so the domain is a parameter of their
  advertisements. Only the node's advertisement fixes "local.".

## Model

| member | source | states |
|---|---|---|
| Text.FormatIntRoundTrip | pkg/nmos/api.go:274 | the decimal text strconv.FormatInt writes for any integer reads back as that integer |
| Text.FormatIntCharacters | pkg/node/node.go:56 | decimal text holds only digits and '-', so a ':' after it separates the port |
| Text.SplitJoin | pkg/nmos/api.go:275 | splitting the strings.Join of parts that do not contain the separator gives the parts back |
| Text.SplitField | pkg/node/node.go:56 | splitting `p + c + rest` at c, with c not in p, gives p followed by the split of rest |
| Text.FirstFieldIsPrefixBeforeSeparator | pkg/nmos/nmos.go:56-60 | the first field of strings.Split is the longest prefix free of the separator, followed by the separator or the end |
| Text.ReplaceJoinSeparator | pkg/nmos/nmos.go:77 | strings.Replace of ':' by '-' in a ':'-joined text changes only the separators |
| Text.RemoveAllAfterPlainPrefix | pkg/nmos/api.go:195 | strings.Replace with -1 leaves a prefix holding no occurrence untouched |
| Text.StripSuffix | pkg/nmos/api.go:195 | removing ".local" from `h + ".local"` gives h when h has no occurrence of it |
| Text.RemoveAllAbsent | pkg/nmos/api.go:195 | a text without the pattern is left unchanged |
| Text.HexPairOfByte | pkg/nmos/api.go:88 | the two hex digits written for a byte read back as that byte |
| Uuids.ToString | pkg/nmos/nmos.go:188 | the text form of a UUID has 36 characters with '-' at offsets 8, 13, 18 and 23 |
| Uuids.ToStringRoundTrip | pkg/nmos/api.go:88 | uuid.Parse of the text form of a UUID gives that UUID back |
| Uuids.ToStringInjective | pkg/nmos/api.go:88-90 | two UUIDs with the same text form are equal |
| Uuids.ParseBytesOfText | pkg/nmos/api.go:88 | reading the bytes from each byte's offset in the text form gives the UUID's bytes from that byte on, with no error |
| Uuids.UndashedRoundTrip | pkg/nmos/api.go:88 | uuid.Parse also reads a UUID back, with no error, from its 32 hex digits without dashes |
| Uuids.UndashedBytesOfText | pkg/nmos/api.go:88 | reading the undashed digits pairwise from byte i on gives the UUID's bytes from i on |
| Uuids.XtoBOfByte | pkg/nmos/api.go:88 | two hex digits of a byte are read back as that byte |
| Uuids.DashedBytesStopAt | pkg/nmos/api.go:88 | reading the dashed form stops at the first bad pair: the pairs before it are read, the rest stays zero, and an error is reported |
| Uuids.PartialFill | pkg/nmos/api.go:88 | a dashed id whose pair k is the first bad one parses, with an error, to the UUID holding the pairs before k and zeros from k on |
| Net.IPv4StringRoundTrip | pkg/node/node.go:56 | the dotted text of an IPv4 address reads back as that address |
| Net.IPv4StringCharacters | pkg/node/node.go:56 | the dotted text holds only digits and '.' (no part is negative), so the ':' before the port is unambiguous |
| Wire.AppendAll | pkg/nmos/nmos.go:84-87 | append adds the elements at the end, and a nil slice stays nil only when nothing is appended |
| Wire.AppendAllTwice | pkg/nmos/nmos.go:84-87 | two appends in a row are one append of both lists |
| Wire.SliceRoundTrip | pkg/nmos/nmos.go:21-25 | a slice is read back from its JSON, a nil slice as nil and an empty one as empty |
| Wire.DecodeAllRoundTrip | pkg/nmos/nmos.go:204-206 | a list whose elements each read back from their encoding reads back whole, in order |
| Wire.FieldsOfObj | pkg/nmos/nmos.go:13-26 | the values of an object written with the given keys in order are read back by those keys |
| Nmos.MarshalDevice | pkg/nmos/nmos.go:209-230 | MarshalJSON's loops build the projection of the device: senders and receivers replaced by their ids |
| Nmos.NormalizeKeepsIdsInOrder | pkg/nmos/nmos.go:211-228 | the projection keeps every scalar field and the controls, and lists the ids of all senders and receivers, in order, in non-nil slices |
| Nmos.InitHref | pkg/nmos/nmos.go:187-189 | InitHREF changes nothing but the manifest href |
| Nmos.ManifestHrefNamesSender | pkg/nmos/nmos.go:188 | the manifest href is `http://` + ip + "/x-manufacturer/senders/" + the sender's id text + "/stream.sdp", and the id reads back from its text |
| Nmos.GetPreferredNetworkAdapters | pkg/nmos/nmos.go:28-50 | the loop returns the reference selection of adapters |
| Nmos.PreferredAdaptersMembers | pkg/nmos/nmos.go:32-47 | an interface is selected exactly when its flags are exactly up, broadcast and multicast and it has an IPv4 address |
| Nmos.AdapterCopiesRepeat | pkg/nmos/nmos.go:35-46 | an interface is appended once per IPv4 address when its flags match, and never otherwise |
| Nmos.AddrHostsEmpty | pkg/nmos/nmos.go:41-44 | an address list yields no IPv4 host exactly when none of its addresses has an IPv4 form |
| Nmos.PreferredAdaptersOfOne | pkg/nmos/nmos.go:32-48 | a matching interface is selected as many times as it has IPv4 addresses |
| Nmos.NodeData.constructor | pkg/nmos/nmos.go:13-26 | a new node data is the zero value of the struct |
| Nmos.NodeData.Init | pkg/nmos/nmos.go:52-90 | Init leaves the node equal to the reference initialisation of its previous value |
| Nmos.InitFields | pkg/nmos/nmos.go:52-90 | the values Init computes are the reference initialisation |
| Nmos.CollectAdapters | pkg/nmos/nmos.go:63-83 | the loop over adapters and addresses builds the reference href, endpoints and interfaces |
| Nmos.CollectedStep | pkg/nmos/nmos.go:63-83 | visiting one more adapter appends its endpoints and its interface, and sets the href only if it is still empty |
| Nmos.AddAddressEndpoints | pkg/nmos/nmos.go:64-76 | the address loop appends one http endpoint per IPv4 address and sets an empty href from the first one |
| Nmos.AddressStep | pkg/nmos/nmos.go:65-75 | an address with an IPv4 form adds its http endpoint and sets the href only if still empty; any other address changes nothing |
| Nmos.InitialHrefAppend | pkg/nmos/nmos.go:67-69 | only the first IPv4 address seen while the href is empty sets it |
| Nmos.EndpointsForAppend | pkg/nmos/nmos.go:70-74 | the endpoints of two host lists are those of their concatenation |
| Nmos.InitNamesNode | pkg/nmos/nmos.go:55-61 | the label is the host name up to its first '.', the description is label + "-node", and the host name, version and id are stored |
| Nmos.InitListsVersions | pkg/nmos/nmos.go:84-89 | Init appends v1.0 to v1.3 after the existing versions, and sets services and clocks to empty non-nil lists |
| Nmos.InitEndpoints | pkg/nmos/nmos.go:63-76 | Init appends one http endpoint on the port per IPv4 address of each selected adapter, in order, and sets the href from the first only if it was empty |
| Nmos.InitInterfaces | pkg/nmos/nmos.go:77-82 | Init appends one interface per selected adapter, named as the adapter, with chassis and port ids both the MAC address in '-'-separated hex |
| Nmos.InterfaceEntryUsesDashedMac | pkg/nmos/nmos.go:77-82 | an adapter's interface entry carries its name, and its MAC address with '-' between bytes as both ids |
| Nmos.InitRepeatsAdapter | pkg/nmos/nmos.go:41-45 | an adapter with m IPv4 addresses is selected m times, so Init writes m interfaces and m times m endpoints for it |
| WireCodec.UuidRoundTrip | pkg/nmos/nmos.go:23 | a UUID is written as its text and read back |
| WireCodec.EndpointRoundTrip | pkg/nmos/nmos.go:108-112 | an endpoint is read back from its JSON object |
| WireCodec.ApiRoundTrip | pkg/nmos/nmos.go:103-106 | the versions and endpoints are read back, nil lists as null |
| WireCodec.ServiceRoundTrip | pkg/nmos/nmos.go:114-117 | a service is read back from its JSON object |
| WireCodec.ClockRoundTrip | pkg/nmos/nmos.go:119-126 | a clock is read back from its JSON object |
| WireCodec.InterfaceRoundTrip | pkg/nmos/nmos.go:128-136 | an interface is read back from its exported fields |
| WireCodec.NodeRoundTrip | pkg/nmos/nmos.go:13-26 | a node is read back from its JSON object |
| WireCodec.SubscriptionRoundTrip | pkg/nmos/nmos.go:154-157 | a subscription is read back from its JSON object |
| WireCodec.SenderRoundTrip | pkg/nmos/nmos.go:172-185 | a sender is read back from its exported fields |
| WireCodec.SenderListRoundTrip | pkg/nmos/api.go:122-123 | the senders list is read back in order, and a nil list as null |
| WireCodec.ReceiverRoundTrip | pkg/nmos/nmos.go:159-170 | a receiver is read back from its one exported field, its id |
| WireCodec.ControlRoundTrip | pkg/nmos/nmos.go:191-194 | a control is read back from its JSON object |
| WireCodec.UuidsRoundTrip | pkg/nmos/nmos.go:240-241 | a list of UUIDs is read back in order, and a nil list as null |
| WireCodec.DeviceRoundTrip | pkg/nmos/nmos.go:209-243 | what is read back from a device's JSON is exactly its projection |
| WireCodec.DeviceJsonListsIds | pkg/nmos/nmos.go:219-227 | a device's "senders" and "receivers" members are arrays of the text ids of its senders and receivers, in order |
| WireCodec.NodeEnvelopeRoundTrip | pkg/nmos/nmos.go:144-152 | a node wrapped by MakeTransmission is read back with its type name and unchanged |
| Api.TxtEntryParts | pkg/nmos/api.go:272-279 | a `key=value` entry whose key has no '=' splits back into key and value |
| Api.MdnsTextFields | pkg/nmos/api.go:272-279 | MdnsText has exactly four entries keyed pri, api_ver, api_proto and api_auth, in that order, with the given values (the two registry programs hold identical copies) |
| Api.MdnsTextRoundTrip | pkg/nmos/api.go:274-277 | pri reads back as the priority, api_ver splits back at ',' into the versions, and api_auth reads back as the flag |
| Api.NodeApiReplies | pkg/nmos/api.go:103-127 | no version gives the version list; "self" gives the node; "devices" gives the device's projection or null; "senders" gives the senders, or panics without a device; any other path gives the resource list |
| Api.HandleSendersApi | pkg/nmos/api.go:63-101 | the handler's loops produce the reference reply for each combination of mode, resource and id |
| Api.SendersByUndashedId | pkg/nmos/api.go:88-94 | a query by a UUID's 32 undashed digits finds that UUID's senders |
| Api.SendersByBadDigitId | pkg/nmos/api.go:88-94 | as the parse error is ignored, a dashed query with a bad digit finds the senders of the UUID filled up to that digit |
| Api.SenderIdListAsWritten | pkg/nmos/api.go:76-85 | without an id the reply is null for no senders, else one entry per sender, each the first sender's device id |
| Api.MatchingSendersMembers | pkg/nmos/api.go:86-96 | a sender is in the reply exactly when it belongs to the device and its device id equals the query |
| Api.MatchingSendersAppend | pkg/nmos/api.go:88-95 | matching distributes over concatenation, so the replies keep the senders' order |
| Api.SendersByPrintedDeviceId | pkg/nmos/api.go:86-96 | a query by the text of a UUID returns, in order, every sender whose device id is that UUID, each as its full object |
| Api.NodeAdvertisementNamesHost | pkg/nmos/api.go:194-198 | a host named `h.local` is advertised as h, as a _nmos-node._tcp service in local. on the server's port, on every interface |
| Api.NodeAdvertisementKeepsPlainHost | pkg/nmos/api.go:195 | a host name without ".local" is advertised unchanged |
| Api.NodeAdvertisementTxt | pkg/nmos/api.go:196 | the node's TXT record gives priority 99, versions v1.0 to v1.3, protocol http and no authorisation |
| Api.WebServer.constructor | pkg/nmos/api.go:133-143 | a new server has no port, node, device or advertisement and does not serve |
| Api.WebServer.Start | pkg/nmos/api.go:145-162 | Start records the port and starts serving, and changes nothing else |
| Api.WebServer.InitNode | pkg/nmos/api.go:190-198 | InitNode keeps both pointers and advertises the node under the cleaned host name on the server's port |
| Api.WebServer.Stop | pkg/nmos/api.go:164-188 | Stop withdraws the advertisement and stops serving |
| Api.WebServer.ServeNodeApi | pkg/nmos/api.go:103-127 | a Node API request is answered from the node's current value behind the pointer (every caller has set the node: the agent passes its own node to InitNode) |
| Api.WebServer.ServeSendersApi | pkg/nmos/api.go:63-101 | a Connection API request is answered from its path variables and the device the server holds; the registered routes never set mode |
| Api.RoutedSendersRequest | pkg/nmos/api.go:219-228 | with mode unset, as on every registered route, the reply is the mode list `["bulk/","single/"]` whatever the path and the device |
| Registration.RegistryAddressRoundTrip | pkg/node/node.go:56 | the registry address reads back as the entry's first IPv4 address and its port |
| Registration.ResourceUriRoundTrip | pkg/node/node.go:57 | the resource URI reads back as the registry address under the v1.3 registration path |
| Registration.HealthUriRoundTrip | pkg/node/node.go:58 | the health URI reads back as the registry address and the node id under the v1.3 health path |
| Registration.TargetOfReachable | pkg/node/node.go:55-64 | a registry with an IPv4 address is sent the node in a "node" envelope at its resource URI, and gets the node's health URI |
| Registration.UnreachableEnds | pkg/node/node.go:56 | an entry without an IPv4 address ends the process before anything is sent |
| Registration.ProcessEntriesStep | pkg/node/node.go:30-36 | each entry is first recorded in Registers and then registered with, unless the process has ended |
| Registration.ProcessAllAccepted | pkg/node/node.go:30-36 | while registrations are accepted, every registry is recorded in arrival order, sent one POST and given one heartbeat, and the last one's health URI is kept |
| Registration.ProcessAllAfterExit | pkg/node/node.go:72-74 | once log.Fatal has run, nothing more is recorded or sent |
| Registration.ProcessAllSplit | pkg/node/node.go:31-35 | processing a stream is processing a prefix of it, then the rest |
| Registration.ProcessAllStopsAtRefusal | pkg/node/node.go:65-75 | the first refusal ends the process: that registry was recorded and posted to and its health URI kept, but it got no heartbeat |
| Registration.StrictStopsAtRefusal | pkg/node/node.go:54-78 | in the agent, the first status other than 201 ends the process right after posting to that registry: the posts are exactly those to the registries up to it, and the heartbeats exactly those of the registries before it |
| Registration.LenientRegistersWithEvery | main.go:53-70 | in main.go, whatever the statuses, every reachable registry is recorded, posted to and given a heartbeat |
| Registration.ProcessEntriesExited | pkg/node/node.go:72-74 | entries arriving after the process has ended change nothing |
| Registration.ProcessAllPostsFromTargets | pkg/node/node.go:60-64 | every POST sent is the registration POST of one of the discovered registries |
| Registration.ProcessEntriesOnlyRegisters | pkg/node/node.go:94-107 | the agent never withdraws the node: every POST carries the node in a "node" envelope to a resource URI |
| Registration.TicksBeforeCancelIsFirst | pkg/node/node.go:81-91 | the heartbeat runs exactly until the first tick that observes cancellation |
| Registration.RegisterHeartBeat | pkg/node/node.go:80-92 | the loop posts to the URI with no body on every tick before cancellation is seen, and sleeps 5 seconds after each post (main.go holds an identical copy) |
| Registration.HeartbeatStopsAtCancel | main.go:73-83 | no POST follows an observed cancellation, and a loop cancelled at once posts nothing |
| Agent.NmosNode.constructor | pkg/node/node.go:20-28 | a new agent has no registries, no health URI and nothing sent, and owns a fresh node and web server |
| Agent.NmosNode.AddNodeToReg | pkg/node/node.go:54-78 | sets the health URI and posts the node; only 201 starts a heartbeat, and anything else ends the process |
| Agent.NmosNode.ProcessEntries | pkg/node/node.go:30-36 | the loop leaves the bookkeeping equal to the strict specification over the delivered entries |
| Agent.NmosNode.Start | pkg/node/node.go:94-107 | initialises the node, serves and advertises it on 8889, registers with each registry, then stops the web server, cancels the heartbeats and cancels discovery, in that order |
| Agent.NmosNode.ServeNode | pkg/node/node.go:98-99 | the web server serves on 8889 with the agent's node and no device, and advertises the node under the cleaned host name |
| Agent.NmosNode.Shutdown | pkg/node/node.go:103-106 | after cancellation: stop the web server and withdraw its advertisement, then cancel the heartbeats, then cancel discovery; the registration state is untouched, so nothing is deregistered |
| LegacyApp.App.constructor | main.go:20-27 | a new app has no registries, no health URI and nothing sent |
| LegacyApp.App.AddNodeToReg | main.go:53-70 | sets the health URI, posts the node and starts a heartbeat whatever the status |
| LegacyApp.App.ProcessEntries | main.go:29-35 | the loop leaves the bookkeeping equal to the lenient specification over the delivered entries |
| LegacyApp.App.Run | main.go:86-112 | initialises the node and registers it with each registry, then cancels the heartbeats, cancels discovery and exits, in that order |
| LegacyApp.App.OnSignal | main.go:101-108 | on the signal: cancel the heartbeats, then discovery, then exit; the registration state is untouched |
| Registry.InstanceNameRoundTrip | cmd/register/main.go:85-86 | the host name reads back from the instance name "registration_" + host + "_https" |
| Registry.RegistryAdvertisementReads | register/main.go:42-48 | the registration service is advertised under the host's instance name, in the -domain flag's domain, with TXT priority 99, versions v1.0 to v1.3, http and no authorisation |
| Registry.RegistryTextIs | register/main.go:47 | the registries' TXT record is exactly pri=99, api_ver=v1.0,v1.1,v1.2,v1.3, api_proto=http, api_auth=false |
| Registry.CmdAdvertisementText | cmd/register/main.go:152-159 | cmd/register's mdnsText, as called there, gives both services the four entries pri, api_ver, api_proto, api_auth in that order, under the host's instance name |
| Registry.LegacyAdvertisementText | register/main.go:68-75 | register's mdnsText, as called there, gives four entries keyed pri, api_ver, api_proto, api_auth in order, reading back as 99, the versions and false, on port 80 under the host's instance name |
| Registry.AdvertisementsDiffer | cmd/register/main.go:91-96 | cmd/register advertises the registration and node services under one name and TXT on 3232, only on the interfaces named "Wi-Fi" (on all when there is none); register advertises the same registration service, in the same domain, on 80 on every interface |
| Registry.HandleNodeApiAgainstNode | cmd/register/main.go:204-219 | no version gives the version list; an empty path gives the six-entry resource list; "self" gives the node; any other path writes no body |
| Registry.GetMainInterface | cmd/register/main.go:48-68 | the loop returns the interfaces with the given name, in order, as a slice that stays nil when none matches |
| Registry.NamedInterfacesMembers | cmd/register/main.go:51-52 | an interface is selected exactly when it is given and carries the name |
| Registry.NamedInterfacesAppend | cmd/register/main.go:51-66 | selection distributes over concatenation, so the original order is kept |
| Registry.NamedInterfacesExtremes | cmd/register/main.go:51-66 | all interfaces are kept when all carry the name, and none when none does |

## Left out

- HTTP servers, routing tables, the zeroconf library, goroutines, contexts, channels, signals and time. The handlers are functions of their path variables. Discovery is a finite list of entries, each with the status its registration receives. Cancellation is observed once per heartbeat tick.
- A failed `http.Post` returns a nil response, and reading its status then panics. This is not modelled: every POST has a status.
- Byte-level JSON: whitespace, indentation, HTML escaping and the trailing newline are not modelled. The JSON decoders are positional reference readers, not Go's decoder.
- UUID generation, `os.Hostname` and `net.Interfaces` are parameters. IPv6 formatting is not modelled: only IPv4 addresses become hosts.
- Uuids.ParseText: measures the id in characters, where `uuid.Parse` measures it in UTF-8 bytes. The two differ only for ids with non-ASCII characters, which the model does not cover.
- Text.FormatInt: the priority is an int64 in the source, and the model uses unbounded integers. All constants in the source are small.
- Nmos.NodeData.Init: stores all fields at the end, not one assignment at a time. No other code runs in between, so nothing can observe the difference.
- Registration.RegisterHeartBeat: covers finitely many ticks, so a loop that never sees cancellation is described only up to the ticks supplied.
- Agent.NmosNode.Start: does not show that discovery keeps delivering entries while the shutdown runs. In Go, ProcessEntries runs concurrently with Start, and the model processes the entries delivered before cancellation first.
- A "senders" request on the agent's web server, which has no device, is modelled as a panic.
- The `addr.(*net.IPNet)` type assertions in pkg/nmos/nmos.go (lines 41 and 66) panic on any other `net.Addr` type. The model's addresses are always IP networks, so this panic is not modelled.
- cmd/register/main.go's `AddNodeToRegistry` and the registry-side registration and query handlers. They only log and write fixed lists.
- cmd/register/main.go's `node` variable has a type that is not part of this model, and nothing assigns to it. Its JSON is therefore a parameter of `Registry.HandleNodeApi`.
- The unexported fields of NMOSReceiver and NMOSInterface are not modelled. encoding/json never writes them.
- The UI and wiring programs (cmd/node, cmd/explorer, cmd/systemtray) and the older nmos package are not part of this model.
