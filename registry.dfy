/**
 * The two registry programs, cmd/register/main.go and register/main.go: the
 * DNS-SD service they advertise, the Node API handler of the first, and its
 * choice of network interface by name.
 */
module Registry {
  import opened Wrappers
  import opened Text
  import opened Net
  import opened Wire
  import opened Nmos
  import opened Api

  const RegisterServiceType := "_nmos-register._tcp"

  const RegistryPriority := 99

  const AggregatorApiVersions: seq<string> := ["v1.0", "v1.1", "v1.2", "v1.3"]

  /** DNS_SD_HTTP_PORT of cmd/register/main.go. */
  const CmdRegistryPort := 3232

  /** DNS_SD_HTTP_PORT of register/main.go. */
  const LegacyRegistryPort := 80

  /** DNS_SD_NAME: the DNS-SD instance name built from the host name. */
  function InstanceName(hostName: string): string {
    "registration_" + hostName + "_https"
  }

  /** Reference reader of an instance name: the host name between the fixed prefix and suffix. */
  function ParseInstanceName(s: string): Option<string> {
    if |s| >= 19 && s[..13] == "registration_" && s[|s| - 6..] == "_https" then Some(s[13..|s| - 6]) else None
  }

  /** The host name is read back from the instance name, so distinct hosts advertise distinct names. */
  lemma InstanceNameRoundTrip(hostName: string)
    ensures ParseInstanceName(InstanceName(hostName)) == Some(hostName)
  {
    var s := InstanceName(hostName);
    assert s[..13] == "registration_";
    assert s[|s| - 6..] == "_https";
    assert s[13..|s| - 6] == hostName;
  }

  /** The TXT record both programs publish: mdnsText(priority, AGGREGATOR_APIVERSIONS, "http", oauth_mode). */
  function RegistryText(): seq<string> {
    MdnsText(RegistryPriority, AggregatorApiVersions, "http", false)
  }

  /**
   * The registration service advertised in `domain` (the -domain flag, "local." by default) on
   * `port` under the host's instance name, announced on the interfaces
   * `selected` (nil for all of them).
   */
  function RegistryAdvertisement(hostName: string, domain: string, port: int, selected: Slice<NetInterface>): Advertisement {
    Advertisement(InstanceName(hostName), RegisterServiceType, domain, port, RegistryText(), selected)
  }

  /** The interface name cmd/register/main.go selects by default. */
  const MainInterfaceName := "Wi-Fi"

  /**
   * cmd/register/main.go advertises a registration service and a node
   * service, both on port 3232 under one name, on the interfaces that
   * GetMainInterface("Wi-Fi") selects from the host's `netIfaces`.
   */
  function CmdAdvertisements(hostName: string, domain: string, netIfaces: seq<NetInterface>): seq<Advertisement> {
    var reg := RegistryAdvertisement(hostName, domain, CmdRegistryPort, MainInterfaces(MainInterfaceName, netIfaces));
    [reg, reg.(service := "_nmos-node._tcp")]
  }

  /** register/main.go advertises the registration service alone, on port 80, on every interface. */
  function LegacyAdvertisements(hostName: string, domain: string): seq<Advertisement> {
    [RegistryAdvertisement(hostName, domain, LegacyRegistryPort, Nil)]
  }

  lemma AggregatorApiVersionsHaveNoComma()
    ensures forall i :: 0 <= i < |AggregatorApiVersions| ==> ',' !in AggregatorApiVersions[i]
  {
    assert AggregatorApiVersions == NodeApiVersions;
    NodeApiVersionsHaveNoComma();
  }

  /**
   * A browser of either registry's advertisement reads priority 99, the
   * four API versions, plain HTTP and no authorisation from the TXT record,
   * and the host name from the instance name.
   */
  lemma RegistryAdvertisementReads(hostName: string, domain: string, port: int, selected: Slice<NetInterface>)
    ensures var a := RegistryAdvertisement(hostName, domain, port, selected);
      && ParseInstanceName(a.instance) == Some(hostName)
      && a.service == "_nmos-register._tcp" && a.domain == domain && a.port == port
      && |a.txt| == 4
      && Lookup(a.txt, "pri").Some? && ParseInt(Lookup(a.txt, "pri").value) == Some(99)
      && Lookup(a.txt, "api_ver").Some? && Split(Lookup(a.txt, "api_ver").value, ',') == AggregatorApiVersions
      && Lookup(a.txt, "api_proto") == Some("http")
      && Lookup(a.txt, "api_auth") == Some("false")
  {
    InstanceNameRoundTrip(hostName);
    AggregatorApiVersionsHaveNoComma();
    MdnsTextFields(RegistryPriority, AggregatorApiVersions, "http", false);
    MdnsTextRoundTrip(RegistryPriority, AggregatorApiVersions, "http", false);
  }

  lemma PriorityText()
    ensures FormatInt(RegistryPriority) == "99"
  {
    assert FormatNat(9) == "9";
    assert FormatNat(99) == FormatNat(9) + [DigitChar(9)];
  }

  lemma VersionsText()
    ensures Join(AggregatorApiVersions, ",") == "v1.0,v1.1,v1.2,v1.3"
  {
    var vs := AggregatorApiVersions;
    assert Join(vs[3..], ",") == "v1.3";
    assert Join(vs[2..], ",") == "v1.2,v1.3" by { assert vs[2..][1..] == vs[3..]; }
    assert Join(vs[1..], ",") == "v1.1,v1.2,v1.3" by { assert vs[1..][1..] == vs[2..]; }
  }

  /** The registries' TXT strings, written out. */
  lemma RegistryTextIs()
    ensures RegistryText() == ["pri=99", "api_ver=v1.0,v1.1,v1.2,v1.3", "api_proto=http", "api_auth=false"]
  {
    PriorityText();
    VersionsText();
    assert TxtEntry("pri", "99") == "pri=99";
    assert TxtEntry("api_ver", "v1.0,v1.1,v1.2,v1.3") == "api_ver=v1.0,v1.1,v1.2,v1.3";
    assert TxtEntry("api_proto", "http") == "api_proto=http";
    assert TxtEntry("api_auth", FormatBool(false)) == "api_auth=false";
  }

  /**
   * cmd/register/main.go's copy of mdnsText, as that program calls it: both
   * of its services carry the four TXT strings pri, api_ver, api_proto and
   * api_auth, in that order, with 99 in decimal, the versions joined by ','
   * and the flag as "false", under the host's instance name.
   */
  lemma CmdAdvertisementText(hostName: string, domain: string, netIfaces: seq<NetInterface>)
    ensures var ads := CmdAdvertisements(hostName, domain, netIfaces);
      && |ads| == 2
      && ads[0].txt == ads[1].txt == ["pri=99", "api_ver=v1.0,v1.1,v1.2,v1.3", "api_proto=http", "api_auth=false"]
      && ParseInstanceName(ads[0].instance) == ParseInstanceName(ads[1].instance) == Some(hostName)
      && KeyOf(ads[0].txt[0]) == "pri" && KeyOf(ads[0].txt[1]) == "api_ver"
      && KeyOf(ads[0].txt[2]) == "api_proto" && KeyOf(ads[0].txt[3]) == "api_auth"
  {
    var ads := CmdAdvertisements(hostName, domain, netIfaces);
    var txt := RegistryText();
    assert ads[0].txt == ads[1].txt == txt;
    assert ads[0].instance == ads[1].instance == InstanceName(hostName);
    InstanceNameRoundTrip(hostName);
    MdnsTextFields(RegistryPriority, AggregatorApiVersions, "http", false);
    assert KeyOf(txt[0]) == "pri" && KeyOf(txt[1]) == "api_ver";
    assert KeyOf(txt[2]) == "api_proto" && KeyOf(txt[3]) == "api_auth";
    RegistryTextIs();
  }

  /**
   * register/main.go's copy of mdnsText, as that program calls it: the one
   * registration service, on port 80, carries the four TXT strings in the
   * order pri, api_ver, api_proto, api_auth, read back as priority 99, the
   * four versions, plain HTTP and no authorisation.
   */
  lemma LegacyAdvertisementText(hostName: string, domain: string)
    ensures |LegacyAdvertisements(hostName, domain)| == 1
    ensures LegacyAdvertisements(hostName, domain)[0].port == 80
    ensures ParseInstanceName(LegacyAdvertisements(hostName, domain)[0].instance) == Some(hostName)
    ensures var txt := LegacyAdvertisements(hostName, domain)[0].txt;
      && |txt| == 4
      && KeyOf(txt[0]) == "pri" && KeyOf(txt[1]) == "api_ver"
      && KeyOf(txt[2]) == "api_proto" && KeyOf(txt[3]) == "api_auth"
      && Lookup(txt, "pri").Some? && ParseInt(Lookup(txt, "pri").value) == Some(99)
      && Lookup(txt, "api_ver").Some? && Split(Lookup(txt, "api_ver").value, ',') == AggregatorApiVersions
      && Lookup(txt, "api_auth").Some? && ParseBool(Lookup(txt, "api_auth").value) == Some(false)
  {
    InstanceNameRoundTrip(hostName);
    AggregatorApiVersionsHaveNoComma();
    MdnsTextFields(RegistryPriority, AggregatorApiVersions, "http", false);
    MdnsTextRoundTrip(RegistryPriority, AggregatorApiVersions, "http", false);
  }

  /**
   * The two programs advertise the same registration service, but on ports
   * 3232 and 80, and on different interfaces: cmd/register only on those
   * named "Wi-Fi" (on every one when none is, as the selection is then nil),
   * register on every interface.
   */
  lemma AdvertisementsDiffer(hostName: string, domain: string, netIfaces: seq<NetInterface>)
    ensures var cmd := CmdAdvertisements(hostName, domain, netIfaces);
      && cmd[0] == LegacyAdvertisements(hostName, domain)[0].(port := 3232, ifaces := cmd[0].ifaces)
      && cmd[1] == cmd[0].(service := "_nmos-node._tcp")
    ensures LegacyAdvertisements(hostName, domain)[0].port == 80
    ensures LegacyAdvertisements(hostName, domain)[0].domain == domain
    ensures LegacyAdvertisements(hostName, domain)[0].ifaces == Nil
    ensures forall x :: x in CmdAdvertisements(hostName, domain, netIfaces)[0].ifaces.Items() <==> x in netIfaces && x.name == "Wi-Fi"
    ensures CmdAdvertisements(hostName, domain, netIfaces)[0].ifaces.Nil? <==> forall x :: x in netIfaces ==> x.name != "Wi-Fi"
  {
    var named := NamedInterfaces(MainInterfaceName, netIfaces);
    NamedInterfacesMembers(MainInterfaceName, netIfaces);
    assert CmdAdvertisements(hostName, domain, netIfaces)[0].ifaces.Items() == named;
    if named != [] {
      assert named[0] in named;
    }
  }

  // ---------------------------------------------------------------- Node API

  /**
   * cmd/register's handleNodeAPI: the version list when no version is given;
   * otherwise the resource list for an empty path, the package's node
   * (`node`, handed in as its encoding) for "self", and no body for any
   * other path. The route with a resource path is registered for POST only,
   * so the last two branches answer POST requests alone; the router refuses
   * a GET there.
   */
  function HandleNodeApi(version: string, rpath: string, node: Json): Reply {
    if version == "" then Reply([Strings(NodeApiVersionPaths)])
    else
      var listing := if rpath == "" then [Strings(NodeResourcePaths)] else [];
      var self := if rpath == "self" then [node] else [];
      Reply(listing + self)
  }

  /**
   * The registry's Node API lists versions and resources exactly as the
   * node's own handler does, serves the node for "self", and writes nothing
   * where the node's handler would list resources or serve one.
   */
  lemma HandleNodeApiAgainstNode(version: string, rpath: string, node: Json, n: Node, device: Option<Device>)
    ensures var r := HandleNodeApi(version, rpath, node);
      && r.Reply?
      && (version == "" || rpath == "" ==> r == Api.HandleNodeApi(version, rpath, n, device))
      && (version != "" && rpath == "self" ==> r.bodies == [node])
      && (version != "" && rpath != "" && rpath != "self" ==> r.bodies == [])
      && |r.bodies| <= 1
  {
  }

  // ---------------------------------------------------------------- interfaces

  /** The interfaces named `name`, in their original order. */
  function NamedInterfaces(name: string, ifaces: seq<NetInterface>): seq<NetInterface>
    decreases |ifaces|
  {
    if ifaces == [] then []
    else
      var rest := NamedInterfaces(name, ifaces[..|ifaces| - 1]);
      if ifaces[|ifaces| - 1].name == name then rest + [ifaces[|ifaces| - 1]] else rest
  }

  /** The interfaces named `name` as the slice GetMainInterface builds: nil when there is none. */
  function MainInterfaces(name: string, ifaces: seq<NetInterface>): Slice<NetInterface> {
    var named := NamedInterfaces(name, ifaces);
    if named == [] then Nil else Of(named)
  }

  /**
   * GetMainInterface(name), with net.Interfaces() given as `ifaces`: the
   * interfaces named `name`, appended one by one to a nil slice, so the
   * result is nil when there is none.
   */
  method GetMainInterface(name: string, ifaces: seq<NetInterface>) returns (selected: Slice<NetInterface>)
    ensures selected.Items() == NamedInterfaces(name, ifaces)
    ensures selected.Nil? <==> NamedInterfaces(name, ifaces) == []
    ensures selected == MainInterfaces(name, ifaces)
  {
    selected := Nil;
    for i := 0 to |ifaces|
      invariant selected.Items() == NamedInterfaces(name, ifaces[..i])
      invariant selected.Nil? <==> NamedInterfaces(name, ifaces[..i]) == []
    {
      assert ifaces[..i + 1][..i] == ifaces[..i];
      if ifaces[i].name == name {
        selected := selected.AppendAll([ifaces[i]]);
      }
    }
    assert ifaces[..|ifaces|] == ifaces;
  }

  /** An interface is selected exactly when it is one of the given ones and carries the name. */
  lemma {:induction false} NamedInterfacesMembers(name: string, ifaces: seq<NetInterface>)
    ensures forall x :: x in NamedInterfaces(name, ifaces) <==> x in ifaces && x.name == name
    decreases |ifaces|
  {
    if ifaces != [] {
      var k := |ifaces| - 1;
      NamedInterfacesMembers(name, ifaces[..k]);
      assert ifaces == ifaces[..k] + [ifaces[k]];
    }
  }

  /** Selection keeps order: selecting from two lists one after the other is selecting from their concatenation. */
  lemma {:induction false} NamedInterfacesAppend(name: string, xs: seq<NetInterface>, ys: seq<NetInterface>)
    ensures NamedInterfaces(name, xs + ys) == NamedInterfaces(name, xs) + NamedInterfaces(name, ys)
    decreases |ys|
  {
    if ys == [] {
      assert xs + ys == xs;
    } else {
      var k := |ys| - 1;
      NamedInterfacesAppend(name, xs, ys[..k]);
      assert (xs + ys)[..|xs + ys| - 1] == xs + ys[..k];
    }
  }

  /** Every interface is kept when all carry the name, and none when none does. */
  lemma {:induction false} NamedInterfacesExtremes(name: string, ifaces: seq<NetInterface>)
    ensures (forall i :: 0 <= i < |ifaces| ==> ifaces[i].name == name) ==> NamedInterfaces(name, ifaces) == ifaces
    ensures (forall i :: 0 <= i < |ifaces| ==> ifaces[i].name != name) ==> NamedInterfaces(name, ifaces) == []
    decreases |ifaces|
  {
    if ifaces != [] {
      var k := |ifaces| - 1;
      NamedInterfacesExtremes(name, ifaces[..k]);
      assert ifaces[..k] + [ifaces[k]] == ifaces;
    }
  }
}
