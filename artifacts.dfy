/** What every device kind shares: the plan it starts from, the file its
    lines become, and the line groups several kinds render alike. */
module Artifacts {
  import opened Wrappers
  import opened Ifcfg
  import opened Conventions
  import opened Template
  import opened Resources
  import opened Platform

  /** Up or down: the states every device define but the alias range
      accepts. */
  predicate UpOrDown(ensure: string) {
    ensure == "up" || ensure == "down"
  }

  /** NM_CONTROLLED: NetworkManager owns the device from release 8 on. */
  function NmControlled(f: Facts): (r: string)
    ensures r == "yes" <==> UsesNetworkManager(f)
    ensures r == "no" <==> !UsesNetworkManager(f)
  {
    YesNo(UsesNetworkManager(f))
  }

  /** The plan of a device named `title` of type `devtype`, with its boot
      lines, before any kind-specific line. */
  function DevicePlan(title: string, devtype: string, up: bool, f: Facts): (p: Plan)
    ensures p.device == Some(title) && p.devtype == Some(devtype) && p.nmControlled == Some(NmControlled(f))
    ensures p.hwaddr == None
    ensures ':' in title ==> p.onparent == Some(YesNo(up)) && p.onboot == None && p.hotplug == None
    ensures ':' !in title ==> p.onboot == Some(YesNo(up)) && p.hotplug == Some(YesNo(up)) && p.onparent == None
    ensures p.(device := None, devtype := None, nmControlled := None, onboot := None, hotplug := None, onparent := None) == NoPlan
  {
    Booted(NoPlan.(device := Some(title), devtype := Some(devtype), nmControlled := Some(NmControlled(f))), title, up)
  }

  /** The lines every Ethernet-type file starts from: DEVICE, BOOTPROTO,
      the boot lines, TYPE=Ethernet, and NM_CONTROLLED. */
  predicate DeviceHead(ds: seq<Directive>, title: string, bootproto: Option<string>, up: bool, f: Facts) {
    Given(ds, DEVICE, Some(title)) && Given(ds, BOOTPROTO, bootproto)
    && Boots(ds, title, up) && Given(ds, TYPE, Some("Ethernet")) && Given(ds, NM_CONTROLLED, Some(NmControlled(f)))
  }

  /** The head of an interface file: the device lines and HWADDR. */
  predicate EthernetHead(ds: seq<Directive>, title: string, bootproto: Option<string>, mac: Option<string>, up: bool, f: Facts) {
    DeviceHead(ds, title, bootproto, up, f) && Given(ds, HWADDR, mac)
  }

  /** The static IPv4 lines. */
  predicate Ipv4Lines(ds: seq<Directive>, ipaddr: string, netmask: string, gateway: Option<string>) {
    Given(ds, IPADDR, Some(ipaddr)) && Given(ds, NETMASK, Some(netmask)) && Given(ds, GATEWAY, gateway)
  }

  /** The resolver lines: PEERDNS always, the servers and the domain when
      given. */
  predicate DnsLines(ds: seq<Directive>, peerdns: bool, dns1: Option<string>, dns2: Option<string>, domain: Option<string>) {
    Given(ds, PEERDNS, Some(YesNo(peerdns))) && Given(ds, DNS1, dns1) && Given(ds, DNS2, dns2) && Given(ds, DOMAIN, domain)
  }

  /** None of the address and resolver lines. */
  predicate NoAddress(ds: seq<Directive>) {
    Unset(ds, IPADDR) && Unset(ds, NETMASK) && Unset(ds, GATEWAY) && Unset(ds, DNS1) && Unset(ds, DNS2) && Unset(ds, DOMAIN)
  }

  /** A boolean parameter the defines default to false: the given value,
      or false when none is given. */
  function OrFalse(o: Option<bool>): (r: bool)
    ensures r <==> o == Some(true)
  {
    o.GetOr(false)
  }

  const DefaultBootProto: string := "dhcp"

  /** BOOTPROTO of a dynamically addressed device: the given protocol, or
      DHCP when none is given. */
  function BootProto(o: Option<string>): (r: string)
    ensures o.None? ==> r == DefaultBootProto
    ensures o.Some? ==> r == o.value
  {
    o.GetOr(DefaultBootProto)
  }

  /** `USERCTL=yes` when users may control the device; no line otherwise. */
  function UserCtl(userctl: bool): (r: Option<string>)
    ensures r.Some? <==> userctl
    ensures r.Some? ==> r.value == "yes"
  {
    if userctl then Some("yes") else None
  }

  /** The IPv6 lines of a static device: none unless IPv6 is initialised;
      then IPV6INIT=yes, IPV6_PEERDNS, and the address and gateway when
      given. */
  datatype Ipv6 = Ipv6(init: bool, address: Option<string>, gateway: Option<string>, peerdns: bool)

  function Ipv6Plan(p: Plan, v: Ipv6): (r: Plan) {
    if v.init then
      p.(ipv6init := Some("yes"), ipv6addr := v.address, ipv6Gateway := v.gateway, ipv6Peerdns := Some(YesNo(v.peerdns)))
    else p
  }

  predicate Ipv6Lines(ds: seq<Directive>, v: Ipv6) {
    if v.init then
      Given(ds, IPV6INIT, Some("yes")) && Given(ds, IPV6ADDR, v.address) && Given(ds, IPV6_DEFAULTGW, v.gateway)
      && Given(ds, IPV6_PEERDNS, Some(YesNo(v.peerdns)))
    else
      Unset(ds, IPV6INIT) && Unset(ds, IPV6ADDR) && Unset(ds, IPV6_DEFAULTGW) && Unset(ds, IPV6_PEERDNS)
  }

  /** The file of a device: under the scripts directory, the rendered
      lines as its content, and the given notification. Its content reads
      back as the settings of the lines. */
  function ScriptOf(name: string, ds: seq<Directive>, notify: Option<string>): (file: File)
    ensures Conventional(file) && file.ensure == Present && file.name == name && file.notify == notify
    ensures file.content == Content(ds)
    ensures ReadBack(file.content) == Some(Settings(ds))
  {
    ContentRoundTrip(ds);
    ScriptFile(name, Content(ds), notify)
  }
}
