/**
 * The node agent of pkg/node/node.go: an NMOSNode holds the node resource,
 * the registries found by discovery and the health URI of the latest
 * registration, serves the Node API through its web server, and registers
 * the node with each registry it discovers.
 */
module Agent {
  import opened Wrappers
  import opened Uuids
  import opened Net
  import opened Wire
  import opened Nmos
  import opened Api
  import opened Registration

  /** The shutdown steps, in the order Start takes them. */
  datatype Event = StopWebServer | CancelHeartBeat | CancelRegistryDiscovery

  /** The port the agent serves the Node API on. */
  const AgentPort := 8889

  class NmosNode {
    var registers: seq<ServiceEntry>
    const node: NodeData
    var registerHbUri: string
    /** The HTTP POSTs sent so far, and the URIs the heartbeat loops started post to. */
    var posts: seq<Post>
    var heartbeats: seq<string>
    /** Whether log.Fatal (or a panic) has ended the process. */
    var exited: bool
    var events: seq<Event>
    const webServer: WebServer

    /** The registration state, as the shared bookkeeping describes it. */
    function Bookkeeping(): Book
      reads this
    {
      Book(registers, registerHbUri, posts, heartbeats, exited)
    }

    /** The zero value of the struct. */
    constructor ()
      ensures Bookkeeping() == Book([], "", [], [], false) && events == []
      ensures fresh(node) && fresh(webServer)
      ensures node.Value() == Node("", "", "", "", "", Nmos.Api(Nil, Nil), Nil, NilUuid, Nil, Nil)
      ensures webServer.node == null && webServer.device == None && !webServer.serving
    {
      registers, registerHbUri, posts, heartbeats, exited, events := [], "", [], [], false, [];
      node := new NodeData();
      webServer := new WebServer();
    }

    /**
     * AddNodeToReg(reg), the registry answering the POST with `status`: the
     * health URI becomes the registry's, the node is posted in a "node"
     * envelope, and only 201 starts a heartbeat; any other status ends the
     * process, as does an entry without an IPv4 address.
     */
    method AddNodeToReg(reg: ServiceEntry, status: int)
      requires !exited
      modifies this
      ensures Bookkeeping() == AddToReg(old(Bookkeeping()), node.Value(), reg, status, true)
      ensures events == old(events)
    {
      if reg.addrIPv4 == [] {
        exited := true;
        return;
      }
      var regAddress := IPv4String(reg.addrIPv4[0]) + ":" + Text.FormatInt(reg.port);
      var regUri := ResourceUri(regAddress);
      registerHbUri := HealthUri(regAddress, node.id);
      var wrapped := RegistrationBody(node.Value());
      posts := posts + [Post(regUri, Some(wrapped))];
      if status == 201 {
        heartbeats := heartbeats + [registerHbUri];
      } else {
        exited := true;
      }
    }

    /**
     * ProcessEntries over the entries discovery delivers, registration i
     * answered with statuses[i]: each entry is recorded, then registered
     * with; log.Fatal stops the loop.
     */
    method ProcessEntries(entries: seq<ServiceEntry>, statuses: seq<int>)
      requires |entries| == |statuses| && !exited
      modifies this
      ensures Bookkeeping() == Registration.ProcessEntries(old(Bookkeeping()), node.Value(), entries, statuses, true)
      ensures events == old(events)
    {
      ghost var b0 := Bookkeeping();
      var i := 0;
      while i < |entries| && !exited
        invariant 0 <= i <= |entries|
        invariant Bookkeeping() == Registration.ProcessEntries(b0, node.Value(), entries[..i], statuses[..i], true)
        invariant events == old(events)
        decreases |entries| - i
      {
        ProcessEntriesStep(b0, node.Value(), entries, statuses, i, true);
        registers := registers + [entries[i]];
        AddNodeToReg(entries[i], statuses[i]);
        i := i + 1;
      }
      if i < |entries| {
        ProcessEntriesExited(b0, node.Value(), entries, statuses, true, i);
      } else {
        assert entries[..i] == entries && statuses[..i] == statuses;
      }
    }

    /**
     * Start, with os.Hostname, uuid.New and net.Interfaces given as
     * `hostName`, `newId` and `ifaces`, and the registries discovered before
     * the context is cancelled given as `entries` and their answers as
     * `statuses`: initialise the node, serve and advertise it on port 8889,
     * register it with each registry, then stop the web server, cancel the
     * heartbeats and cancel discovery, in that order, without withdrawing
     * the node from any registry.
     */
    method Start(hostName: string, ifaces: seq<NetInterface>, newId: Uuid, entries: seq<ServiceEntry>, statuses: seq<int>)
      requires |entries| == |statuses| && !exited
      modifies this, node, webServer
      ensures node.Value() == Initialized(old(node.Value()), AgentPort, hostName, ifaces, newId)
      ensures Bookkeeping() == Registration.ProcessEntries(old(Bookkeeping()), node.Value(), entries, statuses, true)
      ensures webServer.node == node && webServer.device == None && webServer.port == AgentPort
      ensures !exited ==> events == old(events) + [StopWebServer, CancelHeartBeat, CancelRegistryDiscovery]
      ensures !exited ==> !webServer.serving && webServer.nodeAdvertisement == None
      ensures exited ==> events == old(events)
      ensures exited ==> webServer.serving && webServer.nodeAdvertisement == Some(NodeAdvertisement(hostName, AgentPort))
    {
      node.Init(AgentPort, hostName, ifaces, newId);
      ServeNode(hostName);
      ProcessEntries(entries, statuses);
      if !exited {
        Shutdown();
      }
    }

    /** Start's second step: serve the Node API on 8889 and advertise the node, with no device. */
    method ServeNode(hostName: string)
      modifies webServer
      ensures webServer.node == node && webServer.device == None && webServer.port == AgentPort
      ensures webServer.serving && webServer.nodeAdvertisement == Some(NodeAdvertisement(hostName, AgentPort))
    {
      webServer.Start(AgentPort);
      webServer.InitNode(node, None, hostName);
    }

    /**
     * Start's last step, once the context is cancelled: stop the web server,
     * then cancel the heartbeats, then cancel discovery. No registration is
     * withdrawn.
     */
    method Shutdown()
      modifies this, webServer
      ensures events == old(events) + [StopWebServer, CancelHeartBeat, CancelRegistryDiscovery]
      ensures Bookkeeping() == old(Bookkeeping())
      ensures !webServer.serving && webServer.nodeAdvertisement == None
      ensures webServer.node == old(webServer.node) && webServer.device == old(webServer.device)
      ensures webServer.port == old(webServer.port)
    {
      webServer.Stop();
      events := events + [StopWebServer];
      events := events + [CancelHeartBeat];
      events := events + [CancelRegistryDiscovery];
    }
  }
}
