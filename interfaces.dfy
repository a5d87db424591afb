/** The Ethernet interface defines: network::if, ::none, ::promisc,
    ::static, ::dynamic, ::bridge and ::alias. Each validates its
    parameters in the order the manifests do and renders the lines of
    ifcfg-<title> through the Ethernet template. A boolean parameter left
    out is false (`OrFalse`); the boot protocol of ::dynamic left out is
    DHCP (`BootProto`). */
module Interfaces {
  import opened Wrappers
  import opened Ifcfg
  import opened Validators
  import opened Conventions
  import opened Template
  import opened Platform
  import opened Artifacts

  // ------------------------------------------------------------ network::if

  datatype IfParams = IfParams(ensure: string, mtu: Option<string>, ethtoolOpts: Option<string>, zone: Option<string>)

  /** BOOTPROTO=none, the MAC fact of the device, the link options and an
      optional firewall zone; no address lines. */
  function IfLines(title: string, up: bool, mac: Option<string>, p: IfParams, f: Facts): (ds: seq<Directive>)
    ensures EthernetHead(ds, title, Some("none"), mac, up, f)
      && Given(ds, MTU, p.mtu) && Given(ds, ETHTOOL_OPTS, p.ethtoolOpts) && Given(ds, ZONE, p.zone)
      && NoAddress(ds) && Unset(ds, PEERDNS)
  {
    var plan := DevicePlan(title, "Ethernet", up, f).(
      bootproto := Some("none"), hwaddr := mac,
      mtu := p.mtu, ethtoolOpts := p.ethtoolOpts, zone := p.zone);
    EthernetFile(plan);
    Render(Ethernet, plan)
  }

  /** Validation of the parameters, then the lines. */
  function If(title: string, p: IfParams, f: Facts): (r: Result<seq<Directive>>)
    ensures r.Err? <==> !UpOrDown(p.ensure)
    ensures r.Err? ==> r.msg == UpDownMessage
    ensures r.Ok? ==> r.value == IfLines(title, p.ensure == "up", ResolveMac(title, None, f.macs), p, f)
  {
    var e :- ParseEnsure(p.ensure, Stdlib);
    Ok(IfLines(title, e == Up, ResolveMac(title, None, f.macs), p, f))
  }

  // ------------------------------------------------------ network::if::none

  datatype NoneParams = NoneParams(
    ensure: string, macaddress: Option<string>, userctl: Option<bool>,
    mtu: Option<string>, ethtoolOpts: Option<string>, linkdelay: Option<string>)

  /** An interface without an address: BOOTPROTO=none, the MAC (the
      parameter over the fact), link options, USERCTL and LINKDELAY. */
  function IfNoneLines(title: string, up: bool, mac: Option<string>, p: NoneParams, f: Facts): (ds: seq<Directive>)
    ensures EthernetHead(ds, title, Some("none"), mac, up, f)
      && Given(ds, MTU, p.mtu) && Given(ds, ETHTOOL_OPTS, p.ethtoolOpts)
      && Given(ds, USERCTL, UserCtl(OrFalse(p.userctl))) && Given(ds, LINKDELAY, p.linkdelay)
      && NoAddress(ds) && Unset(ds, PEERDNS)
  {
    var plan := DevicePlan(title, "Ethernet", up, f).(
      bootproto := Some("none"), hwaddr := mac,
      mtu := p.mtu, ethtoolOpts := p.ethtoolOpts, userctl := UserCtl(OrFalse(p.userctl)), linkdelay := p.linkdelay);
    EthernetFile(plan);
    Render(Ethernet, plan)
  }

  /** Validation of the parameters, then the lines. */
  function IfNone(title: string, p: NoneParams, f: Facts): (r: Result<seq<Directive>>)
    ensures r.Err? <==> !UpOrDown(p.ensure)
    ensures r.Err? ==> r.msg == UpDownMessage
    ensures r.Ok? ==> r.value == IfNoneLines(title, p.ensure == "up", ResolveMac(title, p.macaddress, f.macs), p, f)
  {
    var e :- ParseEnsure(p.ensure, Stdlib);
    Ok(IfNoneLines(title, e == Up, ResolveMac(title, p.macaddress, f.macs), p, f))
  }

  // --------------------------------------------------- network::if::promisc

  datatype PromiscParams = PromiscParams(ensure: string, macaddress: Option<string>)

  /** A promiscuous interface: no address, PEERDNS=no and PROMISC=yes. */
  function IfPromiscLines(title: string, up: bool, mac: Option<string>, p: PromiscParams, f: Facts): (ds: seq<Directive>)
    ensures EthernetHead(ds, title, Some("none"), mac, up, f)
      && Given(ds, PEERDNS, Some("no")) && Given(ds, PROMISC, Some("yes")) && NoAddress(ds)
  {
    var plan := DevicePlan(title, "Ethernet", up, f).(
      bootproto := Some("none"), hwaddr := mac,
      peerdns := Some("no"), promisc := Some("yes"));
    EthernetFile(plan);
    Render(Ethernet, plan)
  }

  /** Validation of the parameters, then the lines. */
  function IfPromisc(title: string, p: PromiscParams, f: Facts): (r: Result<seq<Directive>>)
    ensures r.Err? <==> !UpOrDown(p.ensure)
    ensures r.Err? ==> r.msg == UpDownMessage
    ensures r.Ok? ==> r.value == IfPromiscLines(title, p.ensure == "up", ResolveMac(title, p.macaddress, f.macs), p, f)
  {
    var e :- ParseEnsure(p.ensure, Stdlib);
    Ok(IfPromiscLines(title, e == Up, ResolveMac(title, p.macaddress, f.macs), p, f))
  }

  // ---------------------------------------------------- network::if::static

  datatype StaticParams = StaticParams(
    ensure: string, ipaddress: string, netmask: string, gateway: Option<string>,
    macaddress: Option<string>, userctl: Option<bool>, mtu: Option<string>, ethtoolOpts: Option<string>,
    peerdns: Option<bool>, dns1: Option<string>, dns2: Option<string>, domain: Option<string>,
    ipv6init: Option<bool>, ipv6autoconf: Option<bool>, ipv6peerdns: Option<bool>,
    ipv6address: Option<string>, ipv6gateway: Option<string>, ipv6sec: Option<string>,
    linkdelay: Option<string>, scope: Option<string>, aliases: seq<Secondary>)

  /** The IPv6 settings of a static interface. */
  function StaticIpv6(p: StaticParams): (r: Ipv6) {
    Ipv6(OrFalse(p.ipv6init), p.ipv6address, p.ipv6gateway, OrFalse(p.ipv6peerdns))
  }

  /** A statically addressed interface. The address is checked first, the
      IPv6 address next (whether or not IPv6 is initialised). The file
      holds the IPv4 block, PEERDNS always, the resolver lines, the IPv6
      block when IPv6 is initialised, and one numbered group per
      secondary address. */
  function IfStaticLines(title: string, up: bool, mac: Option<string>, p: StaticParams, f: Facts): (ds: seq<Directive>)
    ensures EthernetHead(ds, title, Some("none"), mac, up, f)
      && Ipv4Lines(ds, p.ipaddress, p.netmask, p.gateway)
      && DnsLines(ds, OrFalse(p.peerdns), p.dns1, p.dns2, p.domain)
      && Given(ds, MTU, p.mtu) && Given(ds, ETHTOOL_OPTS, p.ethtoolOpts)
      && Given(ds, USERCTL, UserCtl(OrFalse(p.userctl))) && Given(ds, LINKDELAY, p.linkdelay) && Given(ds, SCOPE, p.scope)
      && Ipv6Lines(ds, StaticIpv6(p))
      && (if OrFalse(p.ipv6init) then Given(ds, IPV6_AUTOCONF, Some(YesNo(OrFalse(p.ipv6autoconf)))) && Given(ds, IPV6ADDR_SECONDARIES, p.ipv6sec)
          else Unset(ds, IPV6_AUTOCONF) && Unset(ds, IPV6ADDR_SECONDARIES))
      && Numbered(ds, p.aliases)
  {
    var base := DevicePlan(title, "Ethernet", up, f).(
      bootproto := Some("none"), hwaddr := mac,
      ipaddr := Some(p.ipaddress), netmask := Some(p.netmask), gateway := p.gateway,
      peerdns := Some(YesNo(OrFalse(p.peerdns))), dns1 := p.dns1, dns2 := p.dns2, domain := p.domain,
      mtu := p.mtu, ethtoolOpts := p.ethtoolOpts, userctl := UserCtl(OrFalse(p.userctl)),
      linkdelay := p.linkdelay, scope := p.scope, secondaries := p.aliases);
    var v6 := Ipv6Plan(base, StaticIpv6(p));
    var plan := if OrFalse(p.ipv6init) then v6.(ipv6Autoconf := Some(YesNo(OrFalse(p.ipv6autoconf))), ipv6Secondaries := p.ipv6sec) else v6;
    EthernetFile(plan);
    Render(Ethernet, plan)
  }

  /** Validation of the parameters, then the lines. */
  function IfStatic(title: string, p: StaticParams, f: Facts): (r: Result<seq<Directive>>)
    ensures !UpOrDown(p.ensure) ==> r == Err(UpDownMessage)
    ensures UpOrDown(p.ensure) && !IsIPv4(p.ipaddress) ==> r == Err(p.ipaddress + " is not an IP address.")
    ensures UpOrDown(p.ensure) && IsIPv4(p.ipaddress) && p.ipv6address.Some? && !IsIPv6(p.ipv6address.value)
      ==> r == Err(p.ipv6address.value + " is not an IPv6 address.")
    ensures r.Ok? <==> UpOrDown(p.ensure) && IsIPv4(p.ipaddress) && (p.ipv6address.Some? ==> IsIPv6(p.ipv6address.value))
    ensures r.Ok? ==> r.value == IfStaticLines(title, p.ensure == "up", ResolveMac(title, p.macaddress, f.macs), p, f)
  {
    var e :- ParseEnsure(p.ensure, Stdlib);
    var ip :- ValidateIPv4(p.ipaddress);
    var ip6 :- ValidateOptIPv6(p.ipv6address);
    Ok(IfStaticLines(title, e == Up, ResolveMac(title, p.macaddress, f.macs), p, f))
  }

  // --------------------------------------------------- network::if::dynamic

  datatype DynamicParams = DynamicParams(
    ensure: string, macaddress: Option<string>, bootproto: Option<string>, userctl: Option<bool>,
    mtu: Option<string>, dhcpHostname: Option<string>, ethtoolOpts: Option<string>, linkdelay: Option<string>)

  /** An interface addressed by DHCP (or another boot protocol): the
      protocol, the MAC, DHCP_HOSTNAME and the link options; no address
      or resolver lines. */
  function IfDynamicLines(title: string, up: bool, mac: Option<string>, p: DynamicParams, f: Facts): (ds: seq<Directive>)
    ensures EthernetHead(ds, title, Some(BootProto(p.bootproto)), mac, up, f)
    ensures p.bootproto.None? ==> Given(ds, BOOTPROTO, Some("dhcp"))
    ensures p.bootproto.Some? ==> Given(ds, BOOTPROTO, p.bootproto)
    ensures Given(ds, MTU, p.mtu) && Given(ds, DHCP_HOSTNAME, p.dhcpHostname) && Given(ds, ETHTOOL_OPTS, p.ethtoolOpts)
      && Given(ds, USERCTL, UserCtl(OrFalse(p.userctl))) && Given(ds, LINKDELAY, p.linkdelay)
      && NoAddress(ds) && Unset(ds, PEERDNS)
  {
    var plan := DevicePlan(title, "Ethernet", up, f).(
      bootproto := Some(BootProto(p.bootproto)), hwaddr := mac,
      mtu := p.mtu, dhcpHostname := p.dhcpHostname, ethtoolOpts := p.ethtoolOpts,
      userctl := UserCtl(OrFalse(p.userctl)), linkdelay := p.linkdelay);
    EthernetFile(plan);
    Render(Ethernet, plan)
  }

  /** Validation of the parameters, then the lines. */
  function IfDynamic(title: string, p: DynamicParams, f: Facts): (r: Result<seq<Directive>>)
    ensures r.Err? <==> !UpOrDown(p.ensure)
    ensures r.Err? ==> r.msg == UpDownMessage
    ensures r.Ok? ==> r.value == IfDynamicLines(title, p.ensure == "up", ResolveMac(title, p.macaddress, f.macs), p, f)
  {
    var e :- ParseEnsure(p.ensure, Stdlib);
    Ok(IfDynamicLines(title, e == Up, ResolveMac(title, p.macaddress, f.macs), p, f))
  }

  // ---------------------------------------------------- network::if::bridge

  datatype IfBridgeParams = IfBridgeParams(ensure: string, bridge: string, mtu: Option<string>, ethtoolOpts: Option<string>)

  /** A port of a bridge: no address, PEERDNS=no, and BRIDGE naming the
      bridge it joins. */
  function IfBridgeLines(title: string, up: bool, p: IfBridgeParams, f: Facts): (ds: seq<Directive>)
    ensures EthernetHead(ds, title, Some("none"), None, up, f)
      && Given(ds, PEERDNS, Some("no")) && Given(ds, BRIDGE, Some(p.bridge))
      && Given(ds, MTU, p.mtu) && Given(ds, ETHTOOL_OPTS, p.ethtoolOpts) && NoAddress(ds)
  {
    var plan := DevicePlan(title, "Ethernet", up, f).(
      bootproto := Some("none"), peerdns := Some("no"), bridge := Some(p.bridge),
      mtu := p.mtu, ethtoolOpts := p.ethtoolOpts);
    EthernetFile(plan);
    Render(Ethernet, plan)
  }

  /** Validation of the parameters, then the lines. */
  function IfBridge(title: string, p: IfBridgeParams, f: Facts): (r: Result<seq<Directive>>)
    ensures r.Err? <==> !UpOrDown(p.ensure)
    ensures r.Err? ==> r.msg == UpDownMessage
    ensures r.Ok? ==> r.value == IfBridgeLines(title, p.ensure == "up", p, f)
  {
    var e :- ParseEnsure(p.ensure, Stdlib);
    Ok(IfBridgeLines(title, e == Up, p, f))
  }

  // ----------------------------------------------------- network::if::alias

  datatype IfAliasParams = IfAliasParams(
    ensure: string, ipaddress: string, netmask: string, gateway: Option<string>,
    peerdns: Option<bool>, dns1: Option<string>, dns2: Option<string>, domain: Option<string>)

  /** An alias (`dev:n`) of an interface: no MAC, the boot line ONPARENT
      when the title has the alias form, the IPv4 block and the resolver
      lines. */
  function IfAliasLines(title: string, up: bool, p: IfAliasParams, f: Facts): (ds: seq<Directive>)
    ensures EthernetHead(ds, title, Some("none"), None, up, f)
      && Ipv4Lines(ds, p.ipaddress, p.netmask, p.gateway)
      && DnsLines(ds, OrFalse(p.peerdns), p.dns1, p.dns2, p.domain)
  {
    var base := DevicePlan(title, "Ethernet", up, f);
    var plan := base.(
      bootproto := Some("none"), ipaddr := Some(p.ipaddress), netmask := Some(p.netmask), gateway := p.gateway,
      peerdns := Some(YesNo(OrFalse(p.peerdns))), dns1 := p.dns1, dns2 := p.dns2, domain := p.domain);
    assert plan.device == base.device && plan.onboot == base.onboot && plan.hotplug == base.hotplug
      && plan.onparent == base.onparent && plan.devtype == base.devtype && plan.nmControlled == base.nmControlled;
    EthernetFile(plan);
    Render(Ethernet, plan)
  }

  /** Validation of the parameters, then the lines. */
  function IfAlias(title: string, p: IfAliasParams, f: Facts): (r: Result<seq<Directive>>)
    ensures !UpOrDown(p.ensure) ==> r == Err(UpDownMessage)
    ensures UpOrDown(p.ensure) && !IsIPv4(p.ipaddress) ==> r == Err(p.ipaddress + " is not an IP address.")
    ensures r.Ok? <==> UpOrDown(p.ensure) && IsIPv4(p.ipaddress)
    ensures r.Ok? ==> r.value == IfAliasLines(title, p.ensure == "up", p, f)
  {
    var e :- ParseEnsure(p.ensure, Stdlib);
    var ip :- ValidateIPv4(p.ipaddress);
    Ok(IfAliasLines(title, e == Up, p, f))
  }
}
