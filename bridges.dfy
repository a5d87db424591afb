/** Bridges: network::bridge (no address), ::static and ::dynamic. Every
    bridge file has TYPE=Bridge, the boot line ONBOOT, a forwarding delay
    (30 by default) and the spanning-tree switch STP (off by default).
    network::bridge::dynamic declares typed parameters, so its errors are
    the type checker's. */
module Bridges {
  import opened Wrappers
  import opened Ifcfg
  import opened Validators
  import opened Template
  import opened Platform
  import opened Artifacts

  const DefaultDelay: string := "30"

  /** DELAY: the given delay, or the default. */
  function Delay(o: Option<string>): (r: string)
    ensures o.None? ==> r == DefaultDelay
    ensures o.Some? ==> r == o.value
  {
    o.GetOr(DefaultDelay)
  }

  /** The value of a boolean parameter that passed validation: the given
      boolean, or the default when none was given. */
  function Flag(o: Option<Param>, default: bool): (r: bool) {
    if o.Some? && o.value.PBool? then o.value.b else default
  }

  /** The plan every bridge starts from: the device, TYPE=Bridge, ONBOOT
      for the state and NM_CONTROLLED. */
  function BridgePlan(title: string, up: bool, f: Facts): (p: Plan)
    ensures p.device == Some(title) && p.devtype == Some("Bridge") && p.onboot == Some(YesNo(up))
      && p.nmControlled == Some(NmControlled(f))
    ensures p.(device := None, devtype := None, onboot := None, nmControlled := None) == NoPlan
  {
    NoPlan.(device := Some(title), devtype := Some("Bridge"), onboot := Some(YesNo(up)), nmControlled := Some(NmControlled(f)))
  }

  /** The first lines of a bridge file. */
  predicate BridgeHead(ds: seq<Directive>, title: string, bootproto: string, up: bool, f: Facts) {
    Given(ds, DEVICE, Some(title)) && Given(ds, BOOTPROTO, Some(bootproto)) && Given(ds, ONBOOT, Some(YesNo(up)))
    && Given(ds, TYPE, Some("Bridge")) && Given(ds, NM_CONTROLLED, Some(NmControlled(f)))
  }

  /** The bridge settings: DELAY, STP and the optional BRIDGING_OPTS. */
  predicate BridgeSettings(ds: seq<Directive>, delay: Option<string>, stp: bool, opts: Option<string>) {
    Given(ds, DELAY, Some(Delay(delay))) && Given(ds, STP, Some(YesNo(stp))) && Given(ds, BRIDGING_OPTS, opts)
  }

  // --------------------------------------------------------- network::bridge

  datatype BridgeParams = BridgeParams(
    ensure: string, stp: Option<Param>, delay: Option<string>, bridgingOpts: Option<string>)

  /** A bridge without an address: BOOTPROTO=none and PEERDNS=no. */
  function BridgeLines(title: string, up: bool, p: BridgeParams, f: Facts): (ds: seq<Directive>)
    ensures BridgeHead(ds, title, "none", up, f)
      && Given(ds, PEERDNS, Some("no")) && BridgeSettings(ds, p.delay, Flag(p.stp, false), p.bridgingOpts)
      && NoAddress(ds)
  {
    var plan := BridgePlan(title, up, f).(
      bootproto := Some("none"), peerdns := Some("no"),
      delay := Some(Delay(p.delay)), stp := Some(YesNo(Flag(p.stp, false))), bridgingOpts := p.bridgingOpts);
    BridgeFile(plan);
    Render(BridgeDevice, plan)
  }

  /** The state is checked first, then STP. */
  function Bridge(title: string, p: BridgeParams, f: Facts): (r: Result<seq<Directive>>)
    ensures !UpOrDown(p.ensure) ==> r == Err(UpDownMessage)
    ensures UpOrDown(p.ensure) && p.stp.Some? && p.stp.value.PStr? ==> r == Err("\"" + p.stp.value.s + "\" is not a boolean.")
    ensures r.Ok? <==> UpOrDown(p.ensure) && (p.stp.Some? ==> p.stp.value.PBool?)
    ensures r.Ok? ==> r.value == BridgeLines(title, p.ensure == "up", p, f)
  {
    var e :- ParseEnsure(p.ensure, Stdlib);
    var stp :- ValidateOptBool(p.stp, false, Stdlib);
    Ok(BridgeLines(title, e == Up, p, f))
  }

  // ------------------------------------------------- network::bridge::static

  datatype BridgeStaticParams = BridgeStaticParams(
    ensure: string, ipaddress: string, netmask: string, gateway: Option<string>,
    ipv6init: Option<Param>, ipv6address: Option<string>, ipv6gateway: Option<string>, ipv6peerdns: Option<bool>,
    peerdns: Option<bool>, dns1: Option<string>, dns2: Option<string>, domain: Option<string>,
    stp: Option<Param>, delay: Option<string>, bridgingOpts: Option<string>)

  function BridgeIpv6(p: BridgeStaticParams): (r: Ipv6) {
    Ipv6(Flag(p.ipv6init, false), p.ipv6address, p.ipv6gateway, OrFalse(p.ipv6peerdns))
  }

  /** A statically addressed bridge: BOOTPROTO=static, the address block,
      the IPv6 block and the resolver lines. */
  function BridgeStaticLines(title: string, up: bool, p: BridgeStaticParams, f: Facts): (ds: seq<Directive>)
    ensures BridgeHead(ds, title, "static", up, f)
      && Ipv4Lines(ds, p.ipaddress, p.netmask, p.gateway)
      && Ipv6Lines(ds, BridgeIpv6(p))
      && DnsLines(ds, OrFalse(p.peerdns), p.dns1, p.dns2, p.domain)
      && BridgeSettings(ds, p.delay, Flag(p.stp, false), p.bridgingOpts)
  {
    var base := BridgePlan(title, up, f).(
      bootproto := Some("static"), ipaddr := Some(p.ipaddress), netmask := Some(p.netmask), gateway := p.gateway,
      peerdns := Some(YesNo(OrFalse(p.peerdns))), dns1 := p.dns1, dns2 := p.dns2, domain := p.domain,
      delay := Some(Delay(p.delay)), stp := Some(YesNo(Flag(p.stp, false))), bridgingOpts := p.bridgingOpts);
    var plan := Ipv6Plan(base, BridgeIpv6(p));
    BridgeFile(plan);
    Render(BridgeDevice, plan)
  }

  /** The state and both addresses are valid. */
  predicate StaticValid(p: BridgeStaticParams) {
    UpOrDown(p.ensure) && IsIPv4(p.ipaddress) && (p.ipv6address.Some? ==> IsIPv6(p.ipv6address.value))
  }

  /** The state, the address, the IPv6 address, STP and the IPv6 switch
      are checked in that order. */
  function BridgeStatic(title: string, p: BridgeStaticParams, f: Facts): (r: Result<seq<Directive>>)
    ensures !UpOrDown(p.ensure) ==> r == Err(UpDownMessage)
    ensures UpOrDown(p.ensure) && !IsIPv4(p.ipaddress) ==> r == Err(p.ipaddress + " is not an IP address.")
    ensures UpOrDown(p.ensure) && IsIPv4(p.ipaddress) && p.ipv6address.Some? && !IsIPv6(p.ipv6address.value)
      ==> r == Err(p.ipv6address.value + " is not an IPv6 address.")
    ensures StaticValid(p) && p.stp.Some? && p.stp.value.PStr?
      ==> r == Err("\"" + p.stp.value.s + "\" is not a boolean.")
    ensures StaticValid(p) && (p.stp.Some? ==> p.stp.value.PBool?) && p.ipv6init.Some? && p.ipv6init.value.PStr?
      ==> r == Err("\"" + p.ipv6init.value.s + "\" is not a boolean.")
    ensures r.Ok? <==>
      StaticValid(p) && (p.stp.Some? ==> p.stp.value.PBool?) && (p.ipv6init.Some? ==> p.ipv6init.value.PBool?)
    ensures r.Ok? ==> r.value == BridgeStaticLines(title, p.ensure == "up", p, f)
  {
    var e :- ParseEnsure(p.ensure, Stdlib);
    var ip :- ValidateIPv4(p.ipaddress);
    var ip6 :- ValidateOptIPv6(p.ipv6address);
    var stp :- ValidateOptBool(p.stp, false, Stdlib);
    var v6 :- ValidateOptBool(p.ipv6init, false, Stdlib);
    Ok(BridgeStaticLines(title, e == Up, p, f))
  }

  // ------------------------------------------------ network::bridge::dynamic

  datatype BridgeDynamicParams = BridgeDynamicParams(
    ensure: string, bootproto: Option<string>, stp: Option<Param>, delay: Option<string>, bridgingOpts: Option<string>)

  /** A bridge addressed by DHCP, or by the given protocol: PEERDNS=no and
      no address lines. */
  function BridgeDynamicLines(title: string, up: bool, p: BridgeDynamicParams, f: Facts): (ds: seq<Directive>)
    ensures BridgeHead(ds, title, BootProto(p.bootproto), up, f)
    ensures p.bootproto.None? ==> Given(ds, BOOTPROTO, Some("dhcp"))
    ensures p.bootproto.Some? ==> Given(ds, BOOTPROTO, p.bootproto)
    ensures Given(ds, PEERDNS, Some("no")) && BridgeSettings(ds, p.delay, Flag(p.stp, false), p.bridgingOpts)
      && NoAddress(ds)
  {
    var plan := BridgePlan(title, up, f).(
      bootproto := Some(BootProto(p.bootproto)), peerdns := Some("no"),
      delay := Some(Delay(p.delay)), stp := Some(YesNo(Flag(p.stp, false))), bridgingOpts := p.bridgingOpts);
    BridgeFile(plan);
    Render(BridgeDevice, plan)
  }

  /** Typed parameters: a state outside the enumeration and a non-boolean
      STP are refused with the type checker's messages. */
  function BridgeDynamic(title: string, p: BridgeDynamicParams, f: Facts): (r: Result<seq<Directive>>)
    ensures !UpOrDown(p.ensure) ==> r == Err(TypedEnsureMessage)
    ensures UpOrDown(p.ensure) && p.stp.Some? && p.stp.value.PStr? ==> r == Err(TypedBoolMessage)
    ensures r.Ok? <==> UpOrDown(p.ensure) && (p.stp.Some? ==> p.stp.value.PBool?)
    ensures r.Ok? ==> r.value == BridgeDynamicLines(title, p.ensure == "up", p, f)
  {
    var e :- ParseEnsure(p.ensure, Typed);
    var stp :- ValidateOptBool(p.stp, false, Typed);
    Ok(BridgeDynamicLines(title, e == Up, p, f))
  }
}
