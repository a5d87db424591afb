/** IP aliases: network::alias gives a `dev:n` device one more address;
    network::alias::range gives a device a whole range of addresses in one
    ifcfg-<dev>-range<n> file, and may also remove that file. */
module Aliases {
  import opened Wrappers
  import opened Ifcfg
  import opened Validators
  import opened Template
  import opened Platform
  import opened Artifacts

  // --------------------------------------------------------- network::alias

  datatype AliasParams = AliasParams(
    ensure: string, ipaddress: string, netmask: string, gateway: Option<string>, userctl: Option<bool>)

  /** The alias file: no MAC, ONPARENT for a `dev:n` title, the address
      block and USERCTL. */
  function AliasLines(title: string, up: bool, p: AliasParams, f: Facts): (ds: seq<Directive>)
    ensures EthernetHead(ds, title, Some("none"), None, up, f)
      && Ipv4Lines(ds, p.ipaddress, p.netmask, p.gateway)
      && Given(ds, USERCTL, UserCtl(OrFalse(p.userctl)))
  {
    var plan := DevicePlan(title, "Ethernet", up, f).(
      bootproto := Some("none"), ipaddr := Some(p.ipaddress), netmask := Some(p.netmask),
      gateway := p.gateway, userctl := UserCtl(OrFalse(p.userctl)));
    EthernetFile(plan);
    Render(Ethernet, plan)
  }

  /** The state is checked first, the address next. */
  function Alias(title: string, p: AliasParams, f: Facts): (r: Result<seq<Directive>>)
    ensures !UpOrDown(p.ensure) ==> r == Err(UpDownMessage)
    ensures UpOrDown(p.ensure) && !IsIPv4(p.ipaddress) ==> r == Err(p.ipaddress + " is not an IP address.")
    ensures r.Ok? <==> UpOrDown(p.ensure) && IsIPv4(p.ipaddress)
    ensures r.Ok? ==> r.value == AliasLines(title, p.ensure == "up", p, f)
  {
    var e :- ParseEnsure(p.ensure, Stdlib);
    var ip :- ValidateIPv4(p.ipaddress);
    Ok(AliasLines(title, e == Up, p, f))
  }

  // -------------------------------------------------- network::alias::range

  datatype RangeParams = RangeParams(
    ensure: string, ipaddressStart: string, ipaddressEnd: string, clonenumStart: string,
    noaliasrouting: Option<bool>, netmask: Option<string>, broadcast: Option<string>, arpcheck: Option<bool>)

  /** The name of a range file: the device, then `-range` and the first
      clone number. */
  function RangeName(title: string, clonenumStart: string): (r: string) {
    "ifcfg-" + title + "-range" + clonenumStart
  }

  /** The range file: both ends of the range, the first clone number,
      NO_ALIASROUTING (no by default), the optional netmask, broadcast and
      ARP check, and ONPARENT for the state whatever the title. */
  function RangeLines(up: bool, p: RangeParams, f: Facts): (ds: seq<Directive>)
    ensures Given(ds, IPADDR_START, Some(p.ipaddressStart)) && Given(ds, IPADDR_END, Some(p.ipaddressEnd))
      && Given(ds, CLONENUM_START, Some(p.clonenumStart)) && Given(ds, NO_ALIASROUTING, Some(YesNo(OrFalse(p.noaliasrouting))))
      && Given(ds, NETMASK, p.netmask) && Given(ds, BROADCAST, p.broadcast) && Given(ds, ARPCHECK, OptYesNo(p.arpcheck))
      && Given(ds, ONPARENT, Some(YesNo(up))) && Given(ds, NM_CONTROLLED, Some(NmControlled(f)))
  {
    var plan := NoPlan.(
      ipaddrStart := Some(p.ipaddressStart), ipaddrEnd := Some(p.ipaddressEnd),
      clonenumStart := Some(p.clonenumStart), noAliasrouting := Some(YesNo(OrFalse(p.noaliasrouting))),
      netmask := p.netmask, broadcast := p.broadcast, arpcheck := OptYesNo(p.arpcheck),
      onparent := Some(YesNo(up)), nmControlled := Some(NmControlled(f)));
    RangeFile(plan);
    Render(AliasRange, plan)
  }

  /** What a range asks for: its file with these lines, or no file. */
  datatype RangeOutcome = Write(ds: seq<Directive>) | Remove

  predicate RangeEnsure(ensure: string) {
    ensure == "up" || ensure == "down" || ensure == "absent"
  }

  /** The state is checked first, then the first and the last address;
      `absent` removes the file. */
  function Range(p: RangeParams, f: Facts): (r: Result<RangeOutcome>)
    ensures !RangeEnsure(p.ensure) ==> r == Err(UpDownAbsentMessage)
    ensures RangeEnsure(p.ensure) && !IsIPv4(p.ipaddressStart) ==> r == Err(p.ipaddressStart + " is not an IP address.")
    ensures RangeEnsure(p.ensure) && IsIPv4(p.ipaddressStart) && !IsIPv4(p.ipaddressEnd)
      ==> r == Err(p.ipaddressEnd + " is not an IP address.")
    ensures r.Ok? <==> RangeEnsure(p.ensure) && IsIPv4(p.ipaddressStart) && IsIPv4(p.ipaddressEnd)
    ensures r.Ok? ==> (r.value == Remove <==> p.ensure == "absent")
    ensures r.Ok? && p.ensure != "absent" ==> r.value == Write(RangeLines(p.ensure == "up", p, f))
  {
    var e :- ParseRangeEnsure(p.ensure);
    var first :- ValidateIPv4(p.ipaddressStart);
    var last :- ValidateIPv4(p.ipaddressEnd);
    if e == Absent then Ok(Remove) else Ok(Write(RangeLines(e == Up, p, f)))
  }
}
