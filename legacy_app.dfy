/**
 * The older node program of main.go: an App registers the node with each
 * registry it discovers but ignores the registry's answer, and has no web
 * server of its own.
 */
module LegacyApp {
  import opened Wrappers
  import opened Uuids
  import opened Net
  import opened Nmos
  import opened Registration

  /** The steps main takes once the signal arrives, in order. */
  datatype Event = CancelHeartBeat | CancelRegistryDiscovery | Exit

  class App {
    var registers: seq<ServiceEntry>
    const node: NodeData
    var registerHbUri: string
    var posts: seq<Post>
    var heartbeats: seq<string>
    /** Whether a panic has ended the process. */
    var exited: bool
    var events: seq<Event>

    function Bookkeeping(): Book
      reads this
    {
      Book(registers, registerHbUri, posts, heartbeats, exited)
    }

    /** new(App). */
    constructor ()
      ensures Bookkeeping() == Book([], "", [], [], false) && events == []
      ensures fresh(node)
    {
      registers, registerHbUri, posts, heartbeats, exited, events := [], "", [], [], false, [];
      node := new NodeData();
    }

    /**
     * AddNodeToReg(reg), the registry answering with `status`: the health
     * URI becomes the registry's, the node is posted in a "node" envelope,
     * and a heartbeat starts whatever the status; an entry without an IPv4
     * address panics.
     */
    method AddNodeToReg(reg: ServiceEntry, status: int)
      requires !exited
      modifies this
      ensures Bookkeeping() == AddToReg(old(Bookkeeping()), node.Value(), reg, status, false)
      ensures events == old(events)
    {
      if reg.addrIPv4 == [] {
        exited := true;
        return;
      }
      var regAddress := IPv4String(reg.addrIPv4[0]) + ":" + Text.FormatInt(reg.port);
      var regUri := ResourceUri(regAddress);
      registerHbUri := HealthUri(regAddress, node.id);
      var wrapped := RegistrationBody(node.Value());
      posts := posts + [Post(regUri, Some(wrapped))];
      heartbeats := heartbeats + [registerHbUri];
    }

    /** ProcessEntries over the entries discovery delivers, registration i answered with statuses[i]. */
    method ProcessEntries(entries: seq<ServiceEntry>, statuses: seq<int>)
      requires |entries| == |statuses| && !exited
      modifies this
      ensures Bookkeeping() == Registration.ProcessEntries(old(Bookkeeping()), node.Value(), entries, statuses, false)
      ensures events == old(events)
    {
      ghost var b0 := Bookkeeping();
      var i := 0;
      while i < |entries| && !exited
        invariant 0 <= i <= |entries|
        invariant Bookkeeping() == Registration.ProcessEntries(b0, node.Value(), entries[..i], statuses[..i], false)
        invariant events == old(events)
        decreases |entries| - i
      {
        ProcessEntriesStep(b0, node.Value(), entries, statuses, i, false);
        registers := registers + [entries[i]];
        AddNodeToReg(entries[i], statuses[i]);
        i := i + 1;
      }
      if i < |entries| {
        ProcessEntriesExited(b0, node.Value(), entries, statuses, false, i);
      } else {
        assert entries[..i] == entries && statuses[..i] == statuses;
      }
    }

    /**
     * main, with Init's port and its inputs as parameters, the registries
     * discovered before the signal as `entries` and their answers as
     * `statuses`: initialise the node, register it with each registry, then
     * cancel the heartbeats, cancel discovery and exit, in that order.
     */
    method Run(port: int, hostName: string, ifaces: seq<NetInterface>, newId: Uuid, entries: seq<ServiceEntry>, statuses: seq<int>)
      requires |entries| == |statuses| && !exited
      modifies this, node
      ensures node.Value() == Initialized(old(node.Value()), port, hostName, ifaces, newId)
      ensures Bookkeeping() == Registration.ProcessEntries(old(Bookkeeping()), node.Value(), entries, statuses, false)
      ensures !exited ==> events == old(events) + [CancelHeartBeat, CancelRegistryDiscovery, Exit]
      ensures exited ==> events == old(events)
    {
      node.Init(port, hostName, ifaces, newId);
      ProcessEntries(entries, statuses);
      if !exited {
        OnSignal();
      }
    }

    /**
     * The signal handler goroutine and main's wait on `done`: cancel the
     * heartbeats, then cancel discovery, then exit. No registration is
     * withdrawn.
     */
    method OnSignal()
      modifies this
      ensures events == old(events) + [CancelHeartBeat, CancelRegistryDiscovery, Exit]
      ensures Bookkeeping() == old(Bookkeeping())
    {
      events := events + [CancelHeartBeat];
      events := events + [CancelRegistryDiscovery];
      events := events + [Exit];
    }
  }
}
