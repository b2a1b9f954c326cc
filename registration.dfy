/**
 * Registration with discovered registries, shared by the node agent of
 * pkg/node/node.go and the older program in main.go: the registry address
 * and URIs, the effect of registering with one registry and with a whole
 * discovery stream on the agent's bookkeeping, and the heartbeat loop.
 */
module Registration {
  import opened Wrappers
  import opened Text
  import opened Uuids
  import opened Net
  import opened Wire
  import opened Nmos
  import opened WireCodec

  /** zeroconf.ServiceEntry, as far as the agent reads it. */
  datatype ServiceEntry = ServiceEntry(instance: string, domain: string, addrIPv4: seq<IPv4>, port: int, text: seq<string>)

  const RegistrationApiVersion := "v1.3"

  /** `<first IPv4>:<port>`; an entry without IPv4 addresses makes AddrIPv4[0] panic. */
  function RegistryAddress(e: ServiceEntry): Option<string> {
    if e.addrIPv4 == [] then None else Some(IPv4String(e.addrIPv4[0]) + ":" + FormatInt(e.port))
  }

  const ResourcePath := "/x-nmos/registration/" + RegistrationApiVersion + "/resource"

  const HealthPath := "/x-nmos/registration/" + RegistrationApiVersion + "/health/nodes/"

  function ResourceUri(address: string): string {
    "http://" + address + ResourcePath
  }

  function HealthUri(address: string, nodeId: Uuid): string {
    "http://" + address + HealthPath + ToString(nodeId)
  }

  /** Reference reader of a resource URI: the address between the scheme and the fixed path. */
  function ParseResourceUri(uri: string): Option<string> {
    if |uri| >= 7 + |ResourcePath| && uri[..7] == "http://" && uri[|uri| - |ResourcePath|..] == ResourcePath then
      Some(uri[7..|uri| - |ResourcePath|])
    else None
  }

  /** Reference reader of a health URI: the address, and the node id in its last 36 characters. */
  function ParseHealthUri(uri: string): Option<(string, Uuid)> {
    var n := |HealthPath| + 36;
    if |uri| >= 7 + n && uri[..7] == "http://" && uri[|uri| - n..|uri| - 36] == HealthPath then
      var id :- Parse(uri[|uri| - 36..]);
      Some((uri[7..|uri| - n], id))
    else None
  }

  /** Reference reader of `host:port`. */
  function ParseHostPort(s: string): Option<(IPv4, int)> {
    var parts := Split(s, ':');
    if |parts| != 2 then None
    else
      var ip :- ParseIPv4(parts[0]);
      var port :- ParseInt(parts[1]);
      Some((ip, port))
  }

  /** The address of a registry names its first IPv4 address and its port. */
  lemma RegistryAddressRoundTrip(e: ServiceEntry)
    requires e.addrIPv4 != []
    ensures ParseHostPort(RegistryAddress(e).value) == Some((e.addrIPv4[0], e.port))
  {
    var ip, port := IPv4String(e.addrIPv4[0]), FormatInt(e.port);
    IPv4StringCharacters(e.addrIPv4[0], ':');
    FormatIntCharacters(e.port, ':');
    assert RegistryAddress(e).value == ip + [':'] + port;
    SplitField(ip, ':', port);
    SplitWhole(port, ':');
    IPv4StringRoundTrip(e.addrIPv4[0]);
    FormatIntRoundTrip(e.port);
  }

  /** The resource URI is the registry address under the v1.3 registration path. */
  lemma ResourceUriRoundTrip(address: string)
    ensures ParseResourceUri(ResourceUri(address)) == Some(address)
  {
    var u := ResourceUri(address);
    assert u[..7] == "http://";
    assert u[|u| - |ResourcePath|..] == ResourcePath;
    assert u[7..|u| - |ResourcePath|] == address;
  }

  /** The health URI is the registry address and the node id under the v1.3 health path. */
  lemma HealthUriRoundTrip(address: string, nodeId: Uuid)
    ensures ParseHealthUri(HealthUri(address, nodeId)) == Some((address, nodeId))
  {
    var u := HealthUri(address, nodeId);
    var n := |HealthPath| + 36;
    assert u[..7] == "http://";
    assert u[|u| - n..|u| - 36] == HealthPath;
    assert u[|u| - 36..] == ToString(nodeId);
    assert u[7..|u| - n] == address;
    ToStringRoundTrip(nodeId);
  }

  // ---------------------------------------------------------------- bookkeeping

  /** An HTTP POST the agent sends: URI and JSON body, or no body at all (a nil reader). */
  datatype Post = Post(uri: string, body: Option<Json>)

  /**
   * What registering changes: the discovered registries, the current health
   * URI, the POSTs sent, the URIs of the heartbeat loops started, and
   * whether the process has ended (log.Fatal or a panic).
   */
  datatype Book = Book(registers: seq<ServiceEntry>, hbUri: string, posts: seq<Post>, heartbeats: seq<string>, exited: bool)

  /** The body of a registration: the node in a `{type, data}` envelope of type "node". */
  function RegistrationBody(node: Node): Json {
    EnvelopeJson(MakeTransmission(NodeResource(node), "node"))
  }

  /**
   * Where AddNodeToReg sends a node: nowhere when the entry has no IPv4
   * address (indexing AddrIPv4[0] panics), else the registration POST and
   * the health URI for the node.
   */
  datatype Target = Unreachable | Registry(post: Post, hbUri: string)

  function TargetOf(e: ServiceEntry, node: Node): Target {
    match RegistryAddress(e)
    case None => Unreachable
    case Some(address) => Registry(Post(ResourceUri(address), Some(RegistrationBody(node))), HealthUri(address, node.id))
  }

  /** A reachable registry is sent the node, in a "node" envelope, at its resource URI, and gets the node's health URI. */
  lemma TargetOfReachable(e: ServiceEntry, node: Node)
    requires e.addrIPv4 != []
    ensures var t := TargetOf(e, node);
      && t.Registry?
      && ParseResourceUri(t.post.uri) == RegistryAddress(e)
      && ParseHealthUri(t.hbUri) == Some((RegistryAddress(e).value, node.id))
      && t.post.body.Some? && DecodeNodeEnvelope(t.post.body.value) == Some(("node", node))
      && ParseHostPort(RegistryAddress(e).value) == Some((e.addrIPv4[0], e.port))
  {
    var address := RegistryAddress(e).value;
    ResourceUriRoundTrip(address);
    HealthUriRoundTrip(address, node.id);
    NodeEnvelopeRoundTrip(node, "node");
    RegistryAddressRoundTrip(e);
  }

  /** Whether a registration lets the heartbeat start: only 201 when strict, always otherwise. */
  function Accepted(status: int, strict: bool): bool {
    status == 201 || !strict
  }

  /**
   * AddNodeToReg on a target, with the registry's verdict: the health URI is
   * set and the POST sent; an accepted one starts a heartbeat on that URI,
   * a refused one ends the process (log.Fatal).
   */
  function Register(b: Book, t: Target, accepted: bool): Book {
    if b.exited then b
    else
      match t
      case Unreachable => b.(exited := true)
      case Registry(post, hb) =>
        var b' := b.(hbUri := hb, posts := b.posts + [post]);
        if accepted then b'.(heartbeats := b'.heartbeats + [hb]) else b'.(exited := true)
  }

  /**
   * AddNodeToReg(e) answered with `status`. With `strict` (pkg/node/node.go)
   * only 201 starts a heartbeat and anything else ends the process; without
   * it (main.go) the heartbeat starts whatever the status.
   */
  function AddToReg(b: Book, node: Node, e: ServiceEntry, status: int, strict: bool): Book {
    Register(b, TargetOf(e, node), Accepted(status, strict))
  }

  /** One turn of ProcessEntries: record the entry, then register with it. */
  function Discovered(b: Book, e: ServiceEntry, t: Target, accepted: bool): Book {
    if b.exited then b else Register(b.(registers := b.registers + [e]), t, accepted)
  }

  /** ProcessEntries over discovered entries, with their targets and verdicts. */
  function ProcessAll(b: Book, es: seq<ServiceEntry>, ts: seq<Target>, oks: seq<bool>): Book
    requires |es| == |ts| == |oks|
    decreases |es|
  {
    if es == [] then b
    else
      var k := |es| - 1;
      Discovered(ProcessAll(b, es[..k], ts[..k], oks[..k]), es[k], ts[k], oks[k])
  }

  function Targets(es: seq<ServiceEntry>, node: Node): (r: seq<Target>)
    ensures |r| == |es|
    decreases |es|
  {
    if es == [] then [] else Targets(es[..|es| - 1], node) + [TargetOf(es[|es| - 1], node)]
  }

  function Verdicts(statuses: seq<int>, strict: bool): (r: seq<bool>)
    ensures |r| == |statuses|
    decreases |statuses|
  {
    if statuses == [] then [] else Verdicts(statuses[..|statuses| - 1], strict) + [Accepted(statuses[|statuses| - 1], strict)]
  }

  /** ProcessEntries(es) with registration i answered by statuses[i]. */
  function ProcessEntries(b: Book, node: Node, es: seq<ServiceEntry>, statuses: seq<int>, strict: bool): Book
    requires |es| == |statuses|
  {
    ProcessAll(b, es, Targets(es, node), Verdicts(statuses, strict))
  }

  /** One more entry is one more AddNodeToReg, after recording the entry. */
  lemma ProcessEntriesStep(b: Book, node: Node, es: seq<ServiceEntry>, statuses: seq<int>, i: nat, strict: bool)
    requires |es| == |statuses| && i < |es|
    ensures var r := ProcessEntries(b, node, es[..i], statuses[..i], strict);
      ProcessEntries(b, node, es[..i + 1], statuses[..i + 1], strict)
      == if r.exited then r else AddToReg(r.(registers := r.registers + [es[i]]), node, es[i], statuses[i], strict)
  {
    assert es[..i + 1][..i] == es[..i];
    assert statuses[..i + 1][..i] == statuses[..i];
  }

  /** The POSTs of a list of registry targets, in order. */
  function Posts(ts: seq<Target>): (r: seq<Post>)
    requires forall i :: 0 <= i < |ts| ==> ts[i].Registry?
    ensures |r| == |ts|
    decreases |ts|
  {
    if ts == [] then [] else Posts(ts[..|ts| - 1]) + [ts[|ts| - 1].post]
  }

  /** The health URIs of a list of registry targets, in order. */
  function HealthUris(ts: seq<Target>): (r: seq<string>)
    requires forall i :: 0 <= i < |ts| ==> ts[i].Registry?
    ensures |r| == |ts|
    decreases |ts|
  {
    if ts == [] then [] else HealthUris(ts[..|ts| - 1]) + [ts[|ts| - 1].hbUri]
  }

  /**
   * While every registration is accepted, every discovered registry is
   * recorded in arrival order, is sent one POST and gets one heartbeat loop,
   * and the health URI kept is the last registry's.
   */
  lemma {:induction false} ProcessAllAccepted(b: Book, es: seq<ServiceEntry>, ts: seq<Target>, oks: seq<bool>)
    requires |es| == |ts| == |oks| && !b.exited
    requires forall i :: 0 <= i < |ts| ==> ts[i].Registry? && oks[i]
    ensures var r := ProcessAll(b, es, ts, oks);
      && !r.exited
      && r.registers == b.registers + es
      && r.posts == b.posts + Posts(ts)
      && r.heartbeats == b.heartbeats + HealthUris(ts)
      && r.hbUri == (if es == [] then b.hbUri else ts[|ts| - 1].hbUri)
    decreases |es|
  {
    if es != [] {
      var k := |es| - 1;
      ProcessAllAccepted(b, es[..k], ts[..k], oks[..k]);
      assert es[..k] + [es[k]] == es;
    }
  }

  /** Once the process has ended, nothing further is recorded or sent. */
  lemma {:induction false} ProcessAllAfterExit(b: Book, es: seq<ServiceEntry>, ts: seq<Target>, oks: seq<bool>)
    requires |es| == |ts| == |oks| && b.exited
    ensures ProcessAll(b, es, ts, oks) == b
    decreases |es|
  {
    if es != [] {
      var k := |es| - 1;
      ProcessAllAfterExit(b, es[..k], ts[..k], oks[..k]);
    }
  }

  /** Processing a stream is processing its first m entries, then the rest. */
  lemma {:induction false} ProcessAllSplit(b: Book, es: seq<ServiceEntry>, ts: seq<Target>, oks: seq<bool>, m: nat)
    requires |es| == |ts| == |oks| && m <= |es|
    ensures ProcessAll(b, es, ts, oks) == ProcessAll(ProcessAll(b, es[..m], ts[..m], oks[..m]), es[m..], ts[m..], oks[m..])
    decreases |es|
  {
    if |es| == m {
      assert es[..m] == es && ts[..m] == ts && oks[..m] == oks;
    } else {
      var k := |es| - 1;
      var mid := ProcessAll(b, es[..m], ts[..m], oks[..m]);
      var prev := ProcessAll(b, es[..k], ts[..k], oks[..k]);
      var es2, ts2, oks2 := es[m..], ts[m..], oks[m..];
      var j := |es2| - 1;
      assert prev == ProcessAll(mid, es[..k][m..], ts[..k][m..], oks[..k][m..]) by {
        ProcessAllSplit(b, es[..k], ts[..k], oks[..k], m);
        assert es[..k][..m] == es[..m] && ts[..k][..m] == ts[..m] && oks[..k][..m] == oks[..m];
      }
      assert es2[..j] == es[..k][m..] && ts2[..j] == ts[..k][m..] && oks2[..j] == oks[..k][m..];
      assert es2[j] == es[k] && ts2[j] == ts[k] && oks2[j] == oks[k];
      ProcessAllLast(mid, es2, ts2, oks2);
      ProcessAllLast(b, es, ts, oks);
    }
  }

  /** ProcessAll's last step, stated on its own. */
  lemma ProcessAllLast(b: Book, es: seq<ServiceEntry>, ts: seq<Target>, oks: seq<bool>)
    requires |es| == |ts| == |oks| && es != []
    ensures var k := |es| - 1;
      ProcessAll(b, es, ts, oks) == Discovered(ProcessAll(b, es[..k], ts[..k], oks[..k]), es[k], ts[k], oks[k])
  {
  }

  /**
   * The first refused registration ends the process: that registry is still
   * recorded and posted to and its health URI kept, but it gets no heartbeat
   * and no later entry is looked at.
   */
  lemma ProcessAllStopsAtRefusal(b: Book, es: seq<ServiceEntry>, ts: seq<Target>, oks: seq<bool>, k: nat)
    requires |es| == |ts| == |oks| && !b.exited
    requires k < |es| && ts[k].Registry? && !oks[k]
    requires forall i :: 0 <= i < k ==> ts[i].Registry? && oks[i]
    ensures var r := ProcessAll(b, es, ts, oks);
      && r.exited
      && r.registers == b.registers + es[..k + 1]
      && r.posts == b.posts + Posts(ts[..k + 1])
      && r.heartbeats == b.heartbeats + HealthUris(ts[..k])
      && r.hbUri == ts[k].hbUri
  {
    var es1, ts1, oks1 := es[..k + 1], ts[..k + 1], oks[..k + 1];
    var r1 := ProcessAll(b, es1, ts1, oks1);
    assert r1.exited && r1.registers == b.registers + es1 && r1.posts == b.posts + Posts(ts1)
        && r1.heartbeats == b.heartbeats + HealthUris(ts1[..k]) && r1.hbUri == ts[k].hbUri by {
      assert forall i :: 0 <= i < k ==> ts1[i].Registry? && oks1[i];
      RefusalStep(b, es1, ts1, oks1);
    }
    assert ts1[..k] == ts[..k];
    ExitedPrefix(b, es, ts, oks, k + 1);
  }

  /** Once a prefix of the stream has ended the process, the rest of the stream changes nothing. */
  lemma ExitedPrefix(b: Book, es: seq<ServiceEntry>, ts: seq<Target>, oks: seq<bool>, m: nat)
    requires |es| == |ts| == |oks| && m <= |es|
    requires ProcessAll(b, es[..m], ts[..m], oks[..m]).exited
    ensures ProcessAll(b, es, ts, oks) == ProcessAll(b, es[..m], ts[..m], oks[..m])
  {
    ProcessAllSplit(b, es, ts, oks, m);
    ProcessAllAfterExit(ProcessAll(b, es[..m], ts[..m], oks[..m]), es[m..], ts[m..], oks[m..]);
  }

  /** The step of ProcessAllStopsAtRefusal that reaches the refused entry, the last of `es`. */
  lemma RefusalStep(b: Book, es: seq<ServiceEntry>, ts: seq<Target>, oks: seq<bool>)
    requires |es| == |ts| == |oks| && !b.exited && es != []
    requires ts[|ts| - 1].Registry? && !oks[|oks| - 1]
    requires forall i :: 0 <= i < |ts| - 1 ==> ts[i].Registry? && oks[i]
    ensures var r := ProcessAll(b, es, ts, oks);
      && r.exited
      && r.registers == b.registers + es
      && r.posts == b.posts + Posts(ts)
      && r.heartbeats == b.heartbeats + HealthUris(ts[..|ts| - 1])
      && r.hbUri == ts[|ts| - 1].hbUri
  {
    var k := |es| - 1;
    ProcessAllAccepted(b, es[..k], ts[..k], oks[..k]);
    var before := ProcessAll(b, es[..k], ts[..k], oks[..k]);
    assert ProcessAll(b, es, ts, oks) == Discovered(before, es[k], ts[k], oks[k]);
    assert es[..k] + [es[k]] == es;
  }

  /** Every reachable entry has a registry target, which the i-th entry's. */
  lemma {:induction false} TargetsAt(es: seq<ServiceEntry>, node: Node, i: nat)
    requires i < |es|
    ensures Targets(es, node)[i] == TargetOf(es[i], node)
    decreases |es|
  {
    if i < |es| - 1 {
      TargetsAt(es[..|es| - 1], node, i);
    }
  }

  lemma {:induction false} VerdictsAt(statuses: seq<int>, strict: bool, i: nat)
    requires i < |statuses|
    ensures Verdicts(statuses, strict)[i] == Accepted(statuses[i], strict)
    decreases |statuses|
  {
    if i < |statuses| - 1 {
      VerdictsAt(statuses[..|statuses| - 1], strict, i);
    }
  }

  predicate Reachable(es: seq<ServiceEntry>) {
    forall i :: 0 <= i < |es| ==> es[i].addrIPv4 != []
  }

  /**
   * In main.go the registry's answer changes nothing: every reachable
   * registry discovered is recorded, sent the node and given a heartbeat,
   * whatever the statuses.
   */
  lemma LenientRegistersWithEvery(b: Book, node: Node, es: seq<ServiceEntry>, statuses: seq<int>)
    requires |es| == |statuses| && !b.exited && Reachable(es)
    ensures var r := ProcessEntries(b, node, es, statuses, false);
      && (forall i :: 0 <= i < |es| ==> Targets(es, node)[i].Registry?)
      && !r.exited
      && r.registers == b.registers + es
      && r.posts == b.posts + Posts(Targets(es, node))
      && r.heartbeats == b.heartbeats + HealthUris(Targets(es, node))
  {
    forall i | 0 <= i < |es|
      ensures Targets(es, node)[i].Registry? && Verdicts(statuses, false)[i]
    {
      TargetsAt(es, node, i);
      VerdictsAt(statuses, false, i);
    }
    ProcessAllAccepted(b, es, Targets(es, node), Verdicts(statuses, false));
  }

  /**
   * In pkg/node/node.go the first status other than 201 ends the process
   * right after posting to that registry; registries before it each got a
   * heartbeat.
   */
  lemma StrictStopsAtRefusal(b: Book, node: Node, es: seq<ServiceEntry>, statuses: seq<int>, k: nat)
    requires |es| == |statuses| && !b.exited && Reachable(es)
    requires k < |es| && statuses[k] != 201
    requires forall i :: 0 <= i < k ==> statuses[i] == 201
    ensures var r := ProcessEntries(b, node, es, statuses, true);
      && r.exited
      && r.registers == b.registers + es[..k + 1]
      && (forall i :: 0 <= i <= k ==> Targets(es, node)[i].Registry?)
      && r.posts == b.posts + Posts(Targets(es, node)[..k + 1])
      && r.heartbeats == b.heartbeats + HealthUris(Targets(es, node)[..k])
      && |r.posts| == |b.posts| + k + 1
      && |r.heartbeats| == |b.heartbeats| + k
      && r.hbUri == TargetOf(es[k], node).hbUri
  {
    var ts, oks := Targets(es, node), Verdicts(statuses, true);
    forall i | 0 <= i <= k
      ensures ts[i] == TargetOf(es[i], node) && ts[i].Registry? && oks[i] == (statuses[i] == 201)
    {
      TargetsAt(es, node, i);
      VerdictsAt(statuses, true, i);
    }
    ProcessAllStopsAtRefusal(b, es, ts, oks, k);
  }

  /** An entry without an IPv4 address ends the process (the index panics) before anything is sent. */
  lemma UnreachableEnds(b: Book, node: Node, e: ServiceEntry, status: int, strict: bool)
    requires !b.exited && e.addrIPv4 == []
    ensures AddToReg(b, node, e, status, strict) == b.(exited := true)
  {
  }

  lemma {:induction false} TargetsPrefix(es: seq<ServiceEntry>, node: Node, m: nat)
    requires m <= |es|
    ensures Targets(es[..m], node) == Targets(es, node)[..m]
    decreases |es|
  {
    if m < |es| {
      TargetsPrefix(es[..|es| - 1], node, m);
      assert es[..|es| - 1][..m] == es[..m];
    } else {
      assert es[..m] == es;
    }
  }

  lemma {:induction false} VerdictsPrefix(statuses: seq<int>, strict: bool, m: nat)
    requires m <= |statuses|
    ensures Verdicts(statuses[..m], strict) == Verdicts(statuses, strict)[..m]
    decreases |statuses|
  {
    if m < |statuses| {
      VerdictsPrefix(statuses[..|statuses| - 1], strict, m);
      assert statuses[..|statuses| - 1][..m] == statuses[..m];
    } else {
      assert statuses[..m] == statuses;
    }
  }

  /** Entries discovered after the process has ended change nothing. */
  lemma ProcessEntriesExited(b: Book, node: Node, es: seq<ServiceEntry>, statuses: seq<int>, strict: bool, m: nat)
    requires |es| == |statuses| && m <= |es|
    requires ProcessEntries(b, node, es[..m], statuses[..m], strict).exited
    ensures ProcessEntries(b, node, es, statuses, strict) == ProcessEntries(b, node, es[..m], statuses[..m], strict)
  {
    TargetsPrefix(es, node, m);
    VerdictsPrefix(statuses, strict, m);
    ExitedPrefix(b, es, Targets(es, node), Verdicts(statuses, strict), m);
  }

  /** Every POST sent while processing a stream is the registration POST of one of its targets. */
  lemma {:induction false} ProcessAllPostsFromTargets(b: Book, es: seq<ServiceEntry>, ts: seq<Target>, oks: seq<bool>)
    requires |es| == |ts| == |oks|
    ensures var r := ProcessAll(b, es, ts, oks);
      && |b.posts| <= |r.posts|
      && r.posts[..|b.posts|] == b.posts
      && forall i :: |b.posts| <= i < |r.posts| ==> exists j :: 0 <= j < |ts| && ts[j].Registry? && ts[j].post == r.posts[i]
    decreases |es|
  {
    if es != [] {
      var k := |es| - 1;
      ProcessAllPostsFromTargets(b, es[..k], ts[..k], oks[..k]);
      var before := ProcessAll(b, es[..k], ts[..k], oks[..k]);
      var r := ProcessAll(b, es, ts, oks);
      assert r == Discovered(before, es[k], ts[k], oks[k]);
      forall i | |b.posts| <= i < |r.posts|
        ensures exists j :: 0 <= j < |ts| && ts[j].Registry? && ts[j].post == r.posts[i]
      {
        if i < |before.posts| {
          var j :| 0 <= j < k && ts[..k][j].Registry? && ts[..k][j].post == before.posts[i];
          assert ts[j].Registry? && ts[j].post == r.posts[i];
        } else {
          assert ts[k].Registry? && ts[k].post == r.posts[i];
        }
      }
    }
  }

  /**
   * The agent only ever registers: every POST it sends carries the node in
   * a "node" envelope to the resource URI of a discovered registry, and none
   * withdraws the node.
   */
  lemma ProcessEntriesOnlyRegisters(b: Book, node: Node, es: seq<ServiceEntry>, statuses: seq<int>, strict: bool)
    requires |es| == |statuses|
    ensures var r := ProcessEntries(b, node, es, statuses, strict);
      && |b.posts| <= |r.posts|
      && r.posts[..|b.posts|] == b.posts
      && forall i :: |b.posts| <= i < |r.posts| ==>
           r.posts[i].body.Some? && DecodeNodeEnvelope(r.posts[i].body.value) == Some(("node", node)) && ParseResourceUri(r.posts[i].uri).Some?
  {
    var ts := Targets(es, node);
    var r := ProcessEntries(b, node, es, statuses, strict);
    ProcessAllPostsFromTargets(b, es, ts, Verdicts(statuses, strict));
    forall i | |b.posts| <= i < |r.posts|
      ensures r.posts[i].body.Some? && DecodeNodeEnvelope(r.posts[i].body.value) == Some(("node", node)) && ParseResourceUri(r.posts[i].uri).Some?
    {
      var j :| 0 <= j < |ts| && ts[j].Registry? && ts[j].post == r.posts[i];
      TargetsAt(es, node, j);
      TargetOfReachable(es[j], node);
    }
  }

  // ---------------------------------------------------------------- heartbeat

  /** How many ticks pass before the first one that observes cancellation. */
  function TicksBeforeCancel(cancelled: seq<bool>): (n: nat)
    ensures n <= |cancelled|
  {
    if cancelled == [] || cancelled[0] then 0 else 1 + TicksBeforeCancel(cancelled[1..])
  }

  lemma {:induction false} TicksBeforeCancelIsFirst(cancelled: seq<bool>)
    ensures forall i :: 0 <= i < TicksBeforeCancel(cancelled) ==> !cancelled[i]
    ensures TicksBeforeCancel(cancelled) < |cancelled| ==> cancelled[TicksBeforeCancel(cancelled)]
  {
    if cancelled != [] && !cancelled[0] {
      TicksBeforeCancelIsFirst(cancelled[1..]);
    }
  }

  /**
   * RegisterHeartBeat(ctx, uri), with ctx.Done() observed once per tick as
   * `cancelled`: each tick either returns, if cancelled, or posts to uri
   * with no body and sleeps 5 seconds. Returns the POSTs sent and the seconds
   * slept, over the ticks observed.
   */
  method RegisterHeartBeat(uri: string, cancelled: seq<bool>) returns (posts: seq<Post>, slept: nat)
    ensures posts == seq(TicksBeforeCancel(cancelled), _ => Post(uri, None))
    ensures slept == 5 * |posts|
  {
    posts, slept := [], 0;
    var i := 0;
    while i < |cancelled|
      invariant 0 <= i <= |cancelled|
      invariant forall j :: 0 <= j < i ==> !cancelled[j]
      invariant posts == seq(i, _ => Post(uri, None)) && slept == 5 * i
      decreases |cancelled| - i
    {
      if cancelled[i] {
        break;
      }
      posts := posts + [Post(uri, None)];
      slept := slept + 5;
      i := i + 1;
    }
    HeartbeatTicks(cancelled, i);
  }

  lemma HeartbeatTicks(cancelled: seq<bool>, i: nat)
    requires i <= |cancelled|
    requires forall j :: 0 <= j < i ==> !cancelled[j]
    requires i == |cancelled| || cancelled[i]
    ensures TicksBeforeCancel(cancelled) == i
  {
    TicksBeforeCancelIsFirst(cancelled);
  }

  /** A heartbeat never posts once cancellation has been observed, and posts nothing if cancelled at once. */
  lemma HeartbeatStopsAtCancel(cancelled: seq<bool>, k: nat)
    requires k < |cancelled| && cancelled[k]
    ensures TicksBeforeCancel(cancelled) <= k
    ensures cancelled[0] ==> TicksBeforeCancel(cancelled) == 0
  {
    TicksBeforeCancelIsFirst(cancelled);
  }
}
