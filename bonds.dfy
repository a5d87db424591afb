/** Bonding: network::bond::static, ::dynamic and ::bridge describe a bond
    master, network::bond::slave an interface enslaved to one, and
    network::bond::alias an alias of a bond, restarted through its own
    exec. Bond masters render through the bond template and default their
    driver options to `miimon=100`. */
module Bonds {
  import opened Wrappers
  import opened Ifcfg
  import opened Validators
  import opened Conventions
  import opened Template
  import opened Resources
  import opened Platform
  import opened Artifacts

  const DefaultBondingOpts: string := "miimon=100"

  /** BONDING_OPTS: the given options, or the default. */
  function BondingOpts(o: Option<string>): (r: string)
    ensures o.None? ==> r == DefaultBondingOpts
    ensures o.Some? ==> r == o.value
  {
    o.GetOr(DefaultBondingOpts)
  }

  // --------------------------------------------------- network::bond::static

  datatype BondStaticParams = BondStaticParams(
    ensure: string, ipaddress: string, netmask: string, gateway: Option<string>,
    mtu: Option<string>, ethtoolOpts: Option<string>, bondingOpts: Option<string>,
    peerdns: Option<bool>, dns1: Option<string>, dns2: Option<string>, domain: Option<string>,
    ipv6init: Option<bool>, ipv6peerdns: Option<bool>, ipv6address: Option<string>, ipv6gateway: Option<string>)

  function BondIpv6(p: BondStaticParams): (r: Ipv6) {
    Ipv6(OrFalse(p.ipv6init), p.ipv6address, p.ipv6gateway, OrFalse(p.ipv6peerdns))
  }

  /** A statically addressed bond: BOOTPROTO=none, the address block, the
      driver and link options, the resolver lines and the IPv6 block. */
  function BondStaticLines(title: string, up: bool, p: BondStaticParams, f: Facts): (ds: seq<Directive>)
    ensures DeviceHead(ds, title, Some("none"), up, f)
      && Ipv4Lines(ds, p.ipaddress, p.netmask, p.gateway)
      && Given(ds, MTU, p.mtu) && Given(ds, ETHTOOL_OPTS, p.ethtoolOpts)
      && Given(ds, BONDING_OPTS, Some(BondingOpts(p.bondingOpts)))
      && DnsLines(ds, OrFalse(p.peerdns), p.dns1, p.dns2, p.domain)
      && Ipv6Lines(ds, BondIpv6(p))
  {
    var base := DevicePlan(title, "Ethernet", up, f).(
      bootproto := Some("none"), ipaddr := Some(p.ipaddress), netmask := Some(p.netmask), gateway := p.gateway,
      mtu := p.mtu, ethtoolOpts := p.ethtoolOpts, bondingOpts := Some(BondingOpts(p.bondingOpts)),
      peerdns := Some(YesNo(OrFalse(p.peerdns))), dns1 := p.dns1, dns2 := p.dns2, domain := p.domain);
    var plan := Ipv6Plan(base, BondIpv6(p));
    BondFile(plan);
    Render(BondMaster, plan)
  }

  /** The state is checked first, the address next, the IPv6 address last. */
  function BondStatic(title: string, p: BondStaticParams, f: Facts): (r: Result<seq<Directive>>)
    ensures !UpOrDown(p.ensure) ==> r == Err(UpDownMessage)
    ensures UpOrDown(p.ensure) && !IsIPv4(p.ipaddress) ==> r == Err(p.ipaddress + " is not an IP address.")
    ensures UpOrDown(p.ensure) && IsIPv4(p.ipaddress) && p.ipv6address.Some? && !IsIPv6(p.ipv6address.value)
      ==> r == Err(p.ipv6address.value + " is not an IPv6 address.")
    ensures r.Ok? <==> UpOrDown(p.ensure) && IsIPv4(p.ipaddress) && (p.ipv6address.Some? ==> IsIPv6(p.ipv6address.value))
    ensures r.Ok? ==> r.value == BondStaticLines(title, p.ensure == "up", p, f)
  {
    var e :- ParseEnsure(p.ensure, Stdlib);
    var ip :- ValidateIPv4(p.ipaddress);
    var ip6 :- ValidateOptIPv6(p.ipv6address);
    Ok(BondStaticLines(title, e == Up, p, f))
  }

  // -------------------------------------------------- network::bond::dynamic

  datatype BondDynamicParams = BondDynamicParams(
    ensure: string, mtu: Option<string>, ethtoolOpts: Option<string>, bondingOpts: Option<string>)

  /** A bond addressed by DHCP: no address or resolver lines. */
  function BondDynamicLines(title: string, up: bool, p: BondDynamicParams, f: Facts): (ds: seq<Directive>)
    ensures DeviceHead(ds, title, Some("dhcp"), up, f)
      && Given(ds, MTU, p.mtu) && Given(ds, ETHTOOL_OPTS, p.ethtoolOpts)
      && Given(ds, BONDING_OPTS, Some(BondingOpts(p.bondingOpts)))
      && NoAddress(ds) && Unset(ds, PEERDNS)
  {
    var plan := DevicePlan(title, "Ethernet", up, f).(
      bootproto := Some("dhcp"), mtu := p.mtu, ethtoolOpts := p.ethtoolOpts,
      bondingOpts := Some(BondingOpts(p.bondingOpts)));
    BondFile(plan);
    Render(BondMaster, plan)
  }

  function BondDynamic(title: string, p: BondDynamicParams, f: Facts): (r: Result<seq<Directive>>)
    ensures r.Err? <==> !UpOrDown(p.ensure)
    ensures r.Err? ==> r.msg == UpDownMessage
    ensures r.Ok? ==> r.value == BondDynamicLines(title, p.ensure == "up", p, f)
  {
    var e :- ParseEnsure(p.ensure, Stdlib);
    Ok(BondDynamicLines(title, e == Up, p, f))
  }

  // --------------------------------------------------- network::bond::bridge

  datatype BondBridgeParams = BondBridgeParams(
    ensure: string, bridge: string, mtu: Option<string>, ethtoolOpts: Option<string>, bondingOpts: Option<string>)

  /** A bond that is a port of a bridge: no address, PEERDNS=no and BRIDGE
      naming the bridge. */
  function BondBridgeLines(title: string, up: bool, p: BondBridgeParams, f: Facts): (ds: seq<Directive>)
    ensures DeviceHead(ds, title, Some("none"), up, f)
      && Given(ds, MTU, p.mtu) && Given(ds, ETHTOOL_OPTS, p.ethtoolOpts)
      && Given(ds, BONDING_OPTS, Some(BondingOpts(p.bondingOpts)))
      && Given(ds, PEERDNS, Some("no")) && Given(ds, BRIDGE, Some(p.bridge)) && NoAddress(ds)
  {
    var plan := DevicePlan(title, "Ethernet", up, f).(
      bootproto := Some("none"), mtu := p.mtu, ethtoolOpts := p.ethtoolOpts,
      bondingOpts := Some(BondingOpts(p.bondingOpts)), peerdns := Some("no"), bridge := Some(p.bridge));
    BondFile(plan);
    Render(BondMaster, plan)
  }

  function BondBridge(title: string, p: BondBridgeParams, f: Facts): (r: Result<seq<Directive>>)
    ensures r.Err? <==> !UpOrDown(p.ensure)
    ensures r.Err? ==> r.msg == UpDownMessage
    ensures r.Ok? ==> r.value == BondBridgeLines(title, p.ensure == "up", p, f)
  {
    var e :- ParseEnsure(p.ensure, Stdlib);
    Ok(BondBridgeLines(title, e == Up, p, f))
  }

  // ---------------------------------------------------- network::bond::slave

  datatype SlaveParams = SlaveParams(macaddress: Option<string>, master: string, ethtoolOpts: Option<string>)

  /** A slave of the bond `master`: its MAC, MASTER, SLAVE=yes and the link
      options. */
  function SlaveLines(title: string, mac: Option<string>, p: SlaveParams, f: Facts): (ds: seq<Directive>)
    ensures Given(ds, DEVICE, Some(title)) && Given(ds, HWADDR, mac)
      && Given(ds, MASTER, Some(p.master)) && Given(ds, SLAVE, Some("yes"))
      && Given(ds, TYPE, Some("Ethernet")) && Given(ds, ETHTOOL_OPTS, p.ethtoolOpts)
      && Given(ds, NM_CONTROLLED, Some(NmControlled(f)))
  {
    var plan := NoPlan.(
      device := Some(title), hwaddr := mac, master := Some(p.master), slave := Some("yes"),
      devtype := Some("Ethernet"), ethtoolOpts := p.ethtoolOpts, nmControlled := Some(NmControlled(f)));
    SlaveFile(plan);
    Render(BondSlave, plan)
  }

  /** A given MAC must be six hex octets; it is preferred to the fact. */
  function Slave(title: string, p: SlaveParams, f: Facts): (r: Result<seq<Directive>>)
    ensures r.Err? <==> p.macaddress.Some? && !IsMac(p.macaddress.value)
    ensures r.Err? ==> r.msg == p.macaddress.value + " is not a MAC address."
    ensures r.Ok? ==> r.value == SlaveLines(title, ResolveMac(title, p.macaddress, f.macs), p, f)
  {
    if p.macaddress.Some? then
      var mac :- ValidateMac(p.macaddress.value);
      Ok(SlaveLines(title, Some(mac), p, f))
    else Ok(SlaveLines(title, ResolveMac(title, None, f.macs), p, f))
  }

  // ---------------------------------------------------- network::bond::alias

  datatype BondAliasParams = BondAliasParams(ensure: string, ipaddress: string, netmask: string, gateway: Option<string>)

  /** An alias of a bond: the alias lines with PEERDNS=no. */
  function BondAliasLines(title: string, up: bool, p: BondAliasParams, f: Facts): (ds: seq<Directive>)
    ensures EthernetHead(ds, title, Some("none"), None, up, f)
      && Ipv4Lines(ds, p.ipaddress, p.netmask, p.gateway) && Given(ds, PEERDNS, Some("no"))
  {
    var plan := DevicePlan(title, "Ethernet", up, f).(
      bootproto := Some("none"), ipaddr := Some(p.ipaddress), netmask := Some(p.netmask),
      gateway := p.gateway, peerdns := Some("no"));
    EthernetFile(plan);
    Render(Ethernet, plan)
  }

  function BondAlias(title: string, p: BondAliasParams, f: Facts): (r: Result<seq<Directive>>)
    ensures !UpOrDown(p.ensure) ==> r == Err(UpDownMessage)
    ensures UpOrDown(p.ensure) && !IsIPv4(p.ipaddress) ==> r == Err(p.ipaddress + " is not an IP address.")
    ensures r.Ok? <==> UpOrDown(p.ensure) && IsIPv4(p.ipaddress)
    ensures r.Ok? ==> r.value == BondAliasLines(title, p.ensure == "up", p, f)
  {
    var e :- ParseEnsure(p.ensure, Stdlib);
    var ip :- ValidateIPv4(p.ipaddress);
    Ok(BondAliasLines(title, e == Up, p, f))
  }

  /** The command that applies a bond alias once its file changes: bounce
      the alias when it is up, take it down otherwise. */
  function AliasExec(dev: string, up: bool): (e: Exec)
    ensures e.refreshonly && e.user.None? && e.group.None?
    ensures up ==> e.name == "ifup-" + dev && e.command == "/sbin/ifdown " + dev + "; /sbin/ifup " + dev
    ensures !up ==> e.name == "ifdown-" + dev && e.command == "/sbin/ifdown " + dev
  {
    if up then Exec("ifup-" + dev, "/sbin/ifdown " + dev + "; /sbin/ifup " + dev, true, None, None)
    else Exec("ifdown-" + dev, "/sbin/ifdown " + dev, true, None, None)
  }
}
