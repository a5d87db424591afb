/** The ifcfg templates. Each device family renders its keys in one fixed
    order; a device's plan says which of them get a value. A key without a
    value renders no line. The secondary addresses follow every keyed line,
    in list order. */
module Template {
  import opened Wrappers
  import opened Ifcfg
  import opened Conventions

  /** The templates: plain and alias interfaces share one, bond masters,
      bridges, bond slaves and alias ranges have their own. */
  datatype Family = Ethernet | BondMaster | BridgeDevice | BondSlave | AliasRange

  const EthernetOrder: seq<Key> := [
    DEVICE, BOOTPROTO, HWADDR, ONBOOT, HOTPLUG, ONPARENT, TYPE,
    IPADDR, NETMASK, GATEWAY, MTU, DHCP_HOSTNAME, ETHTOOL_OPTS,
    PEERDNS, DNS1, DNS2, DOMAIN, USERCTL,
    IPV6INIT, IPV6_AUTOCONF, IPV6ADDR, IPV6_DEFAULTGW, IPV6_PEERDNS, IPV6ADDR_SECONDARIES,
    LINKDELAY, SCOPE, ZONE, PROMISC, BRIDGE, NM_CONTROLLED]

  const BondOrder: seq<Key> := [
    DEVICE, BOOTPROTO, ONBOOT, HOTPLUG, ONPARENT, TYPE,
    IPADDR, NETMASK, GATEWAY, MTU, BONDING_OPTS, ETHTOOL_OPTS,
    PEERDNS, DNS1, DNS2, DOMAIN, USERCTL,
    IPV6INIT, IPV6ADDR, IPV6_DEFAULTGW, IPV6_PEERDNS, BRIDGE, NM_CONTROLLED]

  const BridgeOrder: seq<Key> := [
    DEVICE, BOOTPROTO, ONBOOT, TYPE, IPADDR, NETMASK, GATEWAY,
    IPV6INIT, IPV6ADDR, IPV6_DEFAULTGW, IPV6_PEERDNS,
    PEERDNS, DNS1, DNS2, DOMAIN, USERCTL, DELAY, STP, BRIDGING_OPTS, NM_CONTROLLED]

  const SlaveOrder: seq<Key> := [
    DEVICE, BOOTPROTO, HWADDR, ONBOOT, MASTER, SLAVE, TYPE, ETHTOOL_OPTS, USERCTL, NM_CONTROLLED]

  const RangeOrder: seq<Key> := [
    IPADDR_START, IPADDR_END, CLONENUM_START, NO_ALIASROUTING,
    NETMASK, BROADCAST, ARPCHECK, ONPARENT, NM_CONTROLLED]

  function Order(f: Family): (r: seq<Key>) {
    match f
    case Ethernet => EthernetOrder
    case BondMaster => BondOrder
    case BridgeDevice => BridgeOrder
    case BondSlave => SlaveOrder
    case AliasRange => RangeOrder
  }

  /** The position of `k` in the family's order, or the length of the
      order when the family has no such key. */
  function Rank(f: Family, k: Key): (r: nat)
    ensures r <= |Order(f)|
  {
    match f
    case Ethernet => EthernetRank(k)
    case BondMaster => BondRank(k)
    case BridgeDevice => BridgeRank(k)
    case BondSlave => SlaveRank(k)
    case AliasRange => RangeRank(k)
  }

  /** Every key of the order is at its rank: the order names each key once. */
  lemma RankOrder(f: Family, i: nat)
    requires i < |Order(f)|
    ensures Rank(f, Order(f)[i]) == i
  {
    match f
    case Ethernet => EthernetRankOrder(i);
    case BondMaster => BondRankOrder(i);
    case BridgeDevice => BridgeRankOrder(i);
    case BondSlave => SlaveRankOrder(i);
    case AliasRange => RangeRankOrder(i);
  }

  /** A key with a rank inside the order is the key at that rank. */
  lemma OrderRank(f: Family, k: Key)
    requires Rank(f, k) < |Order(f)|
    ensures Order(f)[Rank(f, k)] == k
  {
    match f
    case Ethernet => EthernetOrderRank(k);
    case BondMaster => BondOrderRank(k);
    case BridgeDevice => BridgeOrderRank(k);
    case BondSlave => SlaveOrderRank(k);
    case AliasRange => RangeOrderRank(k);
  }

  function EthernetRank(k: Key): (r: nat) {
    match k
    case DEVICE => 0 case BOOTPROTO => 1 case HWADDR => 2 case ONBOOT => 3 case HOTPLUG => 4
    case ONPARENT => 5 case TYPE => 6 case IPADDR => 7 case NETMASK => 8 case GATEWAY => 9
    case MTU => 10 case DHCP_HOSTNAME => 11 case ETHTOOL_OPTS => 12 case PEERDNS => 13
    case DNS1 => 14 case DNS2 => 15 case DOMAIN => 16 case USERCTL => 17 case IPV6INIT => 18
    case IPV6_AUTOCONF => 19 case IPV6ADDR => 20 case IPV6_DEFAULTGW => 21 case IPV6_PEERDNS => 22
    case IPV6ADDR_SECONDARIES => 23 case LINKDELAY => 24 case SCOPE => 25 case ZONE => 26
    case PROMISC => 27 case BRIDGE => 28 case NM_CONTROLLED => 29
    case _ => 30
  }

  function BondRank(k: Key): (r: nat) {
    match k
    case DEVICE => 0 case BOOTPROTO => 1 case ONBOOT => 2 case HOTPLUG => 3 case ONPARENT => 4
    case TYPE => 5 case IPADDR => 6 case NETMASK => 7 case GATEWAY => 8 case MTU => 9
    case BONDING_OPTS => 10 case ETHTOOL_OPTS => 11 case PEERDNS => 12 case DNS1 => 13
    case DNS2 => 14 case DOMAIN => 15 case USERCTL => 16 case IPV6INIT => 17 case IPV6ADDR => 18
    case IPV6_DEFAULTGW => 19 case IPV6_PEERDNS => 20 case BRIDGE => 21 case NM_CONTROLLED => 22
    case _ => 23
  }

  function BridgeRank(k: Key): (r: nat) {
    match k
    case DEVICE => 0 case BOOTPROTO => 1 case ONBOOT => 2 case TYPE => 3 case IPADDR => 4
    case NETMASK => 5 case GATEWAY => 6 case IPV6INIT => 7 case IPV6ADDR => 8
    case IPV6_DEFAULTGW => 9 case IPV6_PEERDNS => 10 case PEERDNS => 11 case DNS1 => 12
    case DNS2 => 13 case DOMAIN => 14 case USERCTL => 15 case DELAY => 16 case STP => 17
    case BRIDGING_OPTS => 18 case NM_CONTROLLED => 19
    case _ => 20
  }

  function SlaveRank(k: Key): (r: nat) {
    match k
    case DEVICE => 0 case BOOTPROTO => 1 case HWADDR => 2 case ONBOOT => 3 case MASTER => 4
    case SLAVE => 5 case TYPE => 6 case ETHTOOL_OPTS => 7 case USERCTL => 8 case NM_CONTROLLED => 9
    case _ => 10
  }

  function RangeRank(k: Key): (r: nat) {
    match k
    case IPADDR_START => 0 case IPADDR_END => 1 case CLONENUM_START => 2 case NO_ALIASROUTING => 3
    case NETMASK => 4 case BROADCAST => 5 case ARPCHECK => 6 case ONPARENT => 7 case NM_CONTROLLED => 8
    case _ => 9
  }

  lemma EthernetRankOrder(i: nat)
    requires i < |EthernetOrder|
    ensures EthernetRank(EthernetOrder[i]) == i
  {
    if i < 15 {
      EthernetRankOrderLow(i);
    } else {
      EthernetRankOrderHigh(i);
    }
  }

  lemma EthernetRankOrderLow(i: nat)
    requires i < 15
    ensures EthernetRank(EthernetOrder[i]) == i
  {
  }

  lemma EthernetRankOrderHigh(i: nat)
    requires 15 <= i < |EthernetOrder|
    ensures EthernetRank(EthernetOrder[i]) == i
  {
  }

  lemma BondRankOrder(i: nat)
    requires i < |BondOrder|
    ensures BondRank(BondOrder[i]) == i
  {
    if i < 11 {
      BondRankOrderLow(i);
    } else {
      BondRankOrderHigh(i);
    }
  }

  lemma BondRankOrderLow(i: nat)
    requires i < 11
    ensures BondRank(BondOrder[i]) == i
  {
  }

  lemma BondRankOrderHigh(i: nat)
    requires 11 <= i < |BondOrder|
    ensures BondRank(BondOrder[i]) == i
  {
  }

  lemma BridgeRankOrder(i: nat)
    requires i < |BridgeOrder|
    ensures BridgeRank(BridgeOrder[i]) == i
  {
    if i < 10 {
      BridgeRankOrderLow(i);
    } else {
      BridgeRankOrderHigh(i);
    }
  }

  lemma BridgeRankOrderLow(i: nat)
    requires i < 10
    ensures BridgeRank(BridgeOrder[i]) == i
  {
  }

  lemma BridgeRankOrderHigh(i: nat)
    requires 10 <= i < |BridgeOrder|
    ensures BridgeRank(BridgeOrder[i]) == i
  {
  }

  lemma SlaveRankOrder(i: nat)
    requires i < |SlaveOrder|
    ensures SlaveRank(SlaveOrder[i]) == i
  {
  }

  lemma RangeRankOrder(i: nat)
    requires i < |RangeOrder|
    ensures RangeRank(RangeOrder[i]) == i
  {
  }

  lemma EthernetOrderRank(k: Key)
    requires EthernetRank(k) < |EthernetOrder|
    ensures EthernetOrder[EthernetRank(k)] == k
  {
    match k
    case DEVICE => case BOOTPROTO => case HWADDR => case ONBOOT => case HOTPLUG =>
    case ONPARENT => case TYPE => case IPADDR => case NETMASK => case GATEWAY =>
    case MTU => case DHCP_HOSTNAME => case ETHTOOL_OPTS => case PEERDNS => case DNS1 =>
    case DNS2 => case DOMAIN => case USERCTL => case IPV6INIT => case IPV6_AUTOCONF =>
    case IPV6ADDR => case IPV6_DEFAULTGW => case IPV6_PEERDNS => case IPV6ADDR_SECONDARIES => case LINKDELAY =>
    case SCOPE => case ZONE => case PROMISC => case BRIDGE => case NM_CONTROLLED =>
    case _ =>
  }

  lemma BondOrderRank(k: Key)
    requires BondRank(k) < |BondOrder|
    ensures BondOrder[BondRank(k)] == k
  {
    match k
    case DEVICE => case BOOTPROTO => case ONBOOT => case HOTPLUG => case ONPARENT =>
    case TYPE => case IPADDR => case NETMASK => case GATEWAY => case MTU =>
    case BONDING_OPTS => case ETHTOOL_OPTS => case PEERDNS => case DNS1 => case DNS2 =>
    case DOMAIN => case USERCTL => case IPV6INIT => case IPV6ADDR => case IPV6_DEFAULTGW =>
    case IPV6_PEERDNS => case BRIDGE => case NM_CONTROLLED =>
    case _ =>
  }

  lemma BridgeOrderRank(k: Key)
    requires BridgeRank(k) < |BridgeOrder|
    ensures BridgeOrder[BridgeRank(k)] == k
  {
    match k
    case DEVICE => case BOOTPROTO => case ONBOOT => case TYPE => case IPADDR =>
    case NETMASK => case GATEWAY => case IPV6INIT => case IPV6ADDR => case IPV6_DEFAULTGW =>
    case IPV6_PEERDNS => case PEERDNS => case DNS1 => case DNS2 => case DOMAIN =>
    case USERCTL => case DELAY => case STP => case BRIDGING_OPTS => case NM_CONTROLLED =>
    case _ =>
  }

  lemma SlaveOrderRank(k: Key)
    requires SlaveRank(k) < |SlaveOrder|
    ensures SlaveOrder[SlaveRank(k)] == k
  {
    match k
    case DEVICE => case BOOTPROTO => case HWADDR => case ONBOOT => case MASTER =>
    case SLAVE => case TYPE => case ETHTOOL_OPTS => case USERCTL => case NM_CONTROLLED =>
    case _ =>
  }

  lemma RangeOrderRank(k: Key)
    requires RangeRank(k) < |RangeOrder|
    ensures RangeOrder[RangeRank(k)] == k
  {
    match k
    case IPADDR_START => case IPADDR_END => case CLONENUM_START => case NO_ALIASROUTING => case NETMASK =>
    case BROADCAST => case ARPCHECK => case ONPARENT => case NM_CONTROLLED =>
    case _ =>
  }

  // ------------------------------------------------------------ plans

  /** What a device renders: a value, or none, for every key of the
      templates, and the secondary addresses of a static interface. */
  datatype Plan = Plan(
    device: Option<string>, bootproto: Option<string>, hwaddr: Option<string>,
    onboot: Option<string>, hotplug: Option<string>, onparent: Option<string>,
    devtype: Option<string>, master: Option<string>, slave: Option<string>,
    mtu: Option<string>, ethtoolOpts: Option<string>, userctl: Option<string>,
    linkdelay: Option<string>, dhcpHostname: Option<string>,
    ipaddr: Option<string>, netmask: Option<string>, gateway: Option<string>,
    peerdns: Option<string>, dns1: Option<string>, dns2: Option<string>, domain: Option<string>,
    ipv6init: Option<string>, ipv6Autoconf: Option<string>, ipv6addr: Option<string>,
    ipv6Gateway: Option<string>, ipv6Peerdns: Option<string>, ipv6Secondaries: Option<string>,
    scope: Option<string>, zone: Option<string>, promisc: Option<string>, bridge: Option<string>,
    bondingOpts: Option<string>, delay: Option<string>, stp: Option<string>, bridgingOpts: Option<string>,
    ipaddrStart: Option<string>, ipaddrEnd: Option<string>, clonenumStart: Option<string>,
    noAliasrouting: Option<string>, broadcast: Option<string>, arpcheck: Option<string>,
    nmControlled: Option<string>,
    secondaries: seq<Secondary>)

  const NoPlan: Plan := Plan(
    None, None, None, None, None, None, None, None, None, None, None, None, None, None,
    None, None, None, None, None, None, None, None, None, None, None, None, None, None,
    None, None, None, None, None, None, None, None, None, None, None, None, None, None, [])

  /** The value entry `n` of the list gives a numbered key, `IPADDR<n>`,
      `NETMASK<n>` or `PREFIX<n>` (numbered from 1). */
  function NumberedValue(s: seq<Secondary>, k: Key): (r: Option<string>) {
    if SecondaryKey(k) && 1 <= k.n <= |s| then EntryValue(s[k.n - 1], k) else None
  }

  /** The value the plan gives a key. */
  function Value(p: Plan, k: Key): (r: Option<string>) {
    match k
    case DEVICE => p.device case BOOTPROTO => p.bootproto case HWADDR => p.hwaddr
    case ONBOOT => p.onboot case HOTPLUG => p.hotplug case ONPARENT => p.onparent
    case TYPE => p.devtype case MASTER => p.master case SLAVE => p.slave
    case MTU => p.mtu case ETHTOOL_OPTS => p.ethtoolOpts case USERCTL => p.userctl
    case LINKDELAY => p.linkdelay case DHCP_HOSTNAME => p.dhcpHostname
    case IPADDR => p.ipaddr case NETMASK => p.netmask case GATEWAY => p.gateway
    case PEERDNS => p.peerdns case DNS1 => p.dns1 case DNS2 => p.dns2 case DOMAIN => p.domain
    case IPV6INIT => p.ipv6init case IPV6_AUTOCONF => p.ipv6Autoconf case IPV6ADDR => p.ipv6addr
    case IPV6_DEFAULTGW => p.ipv6Gateway case IPV6_PEERDNS => p.ipv6Peerdns
    case IPV6ADDR_SECONDARIES => p.ipv6Secondaries
    case SCOPE => p.scope case ZONE => p.zone case PROMISC => p.promisc case BRIDGE => p.bridge
    case BONDING_OPTS => p.bondingOpts case DELAY => p.delay case STP => p.stp
    case BRIDGING_OPTS => p.bridgingOpts
    case IPADDR_START => p.ipaddrStart case IPADDR_END => p.ipaddrEnd
    case CLONENUM_START => p.clonenumStart case NO_ALIASROUTING => p.noAliasrouting
    case BROADCAST => p.broadcast case ARPCHECK => p.arpcheck case NM_CONTROLLED => p.nmControlled
    case IPADDRn(_) => NumberedValue(p.secondaries, k)
    case NETMASKn(_) => NumberedValue(p.secondaries, k)
    case PREFIXn(_) => NumberedValue(p.secondaries, k)
    case ADDRESSn(_) => None
    case GATEWAYn(_) => None
  }

  /** The boot lines: a device named `dev:n` starts with its parent
      (ONPARENT), any other device at boot and on hotplug. The state is
      `yes` exactly when the device is to be up. */
  function Booted(p: Plan, title: string, up: bool): (q: Plan)
    ensures ':' in title ==> q == p.(onparent := Some(YesNo(up)))
    ensures ':' !in title ==> q == p.(onboot := Some(YesNo(up)), hotplug := Some(YesNo(up)))
  {
    var v := Some(YesNo(up));
    if ':' in title then p.(onparent := v) else p.(onboot := v, hotplug := v)
  }

  /** The boot lines `Booted` renders, read off a file. */
  predicate Boots(ds: seq<Directive>, title: string, up: bool) {
    var v := Some(YesNo(up));
    if ':' in title then Given(ds, ONPARENT, v) && Unset(ds, ONBOOT) && Unset(ds, HOTPLUG)
    else Given(ds, ONBOOT, v) && Given(ds, HOTPLUG, v) && Unset(ds, ONPARENT)
  }

  // ------------------------------------------------------------ rendering

  /** `rank` gives every key of `order` its position, and any other key a
      rank past the end: each key occurs in `order` at most once. */
  ghost predicate Ranked(order: seq<Key>, rank: Key -> nat) {
    (forall i :: 0 <= i < |order| ==> rank(order[i]) == i)
    && (forall k :: rank(k) < |order| ==> order[rank(k)] == k)
    && (forall k :: SecondaryKey(k) ==> rank(k) == |order|)
  }

  lemma FamilyRanked(f: Family)
    ensures Ranked(Order(f), k => Rank(f, k))
  {
    forall i | 0 <= i < |Order(f)|
      ensures Rank(f, Order(f)[i]) == i
    {
      RankOrder(f, i);
    }
    forall k | Rank(f, k) < |Order(f)|
      ensures Order(f)[Rank(f, k)] == k
    {
      OrderRank(f, k);
    }
    forall k | SecondaryKey(k)
      ensures Rank(f, k) == |Order(f)|
    {
      NumberedRank(f, k);
    }
  }

  /** No template holds a numbered key. */
  lemma NumberedRank(f: Family, k: Key)
    requires SecondaryKey(k)
    ensures Rank(f, k) == |Order(f)|
  {
    match f
    case Ethernet => assert EthernetRank(k) == 30;
    case BondMaster => assert BondRank(k) == 23;
    case BridgeDevice => assert BridgeRank(k) == 20;
    case BondSlave => assert SlaveRank(k) == 10;
    case AliasRange => assert RangeRank(k) == 9;
  }

  /** The fields of the keys at positions i up to j of `order`, with the
      values `vals` gives them. */
  function Slice(order: seq<Key>, vals: Key -> Option<string>, i: nat, j: nat): (r: seq<Field>)
    requires i <= j <= |order|
    decreases j - i
  {
    if i == j then [] else [Field(order[i], vals(order[i]))] + Slice(order, vals, i + 1, j)
  }

  /** A slice gives exactly the keys ranked inside it, with their values. */
  lemma {:induction false} SliceGather(order: seq<Key>, rank: Key -> nat, vals: Key -> Option<string>, i: nat, j: nat, k: Key)
    requires Ranked(order, rank) && i <= j <= |order|
    ensures Gather(Slice(order, vals, i, j), k) == if i <= rank(k) < j then Listed(vals(k)) else []
    decreases j - i
  {
    if i < j {
      var h := order[i];
      var head, rest := [Field(h, vals(h))], Slice(order, vals, i + 1, j);
      assert Slice(order, vals, i, j) == head + rest;
      GatherAppend(head, rest, k);
      assert head[1..] == [];
      SliceGather(order, rank, vals, i + 1, j, k);
      if k == h {
        assert rank(k) == i;
      } else {
        assert rank(k) != i;
      }
    }
  }

  lemma {:induction false} SliceSplit(order: seq<Key>, vals: Key -> Option<string>, i: nat, m: nat, j: nat)
    requires i <= m <= j <= |order|
    ensures Slice(order, vals, i, j) == Slice(order, vals, i, m) + Slice(order, vals, m, j)
    decreases m - i
  {
    if i < m {
      SliceSplit(order, vals, i + 1, m, j);
    }
  }

  function PlanValues(p: Plan): (r: Key -> Option<string>) {
    k => Value(p, k)
  }

  /** The whole table: every key of the family in order, then the
      secondary addresses numbered from 1. */
  function Table(f: Family, p: Plan): (r: seq<Field>) {
    Slice(Order(f), PlanValues(p), 0, |Order(f)|) + SecondaryFields(p.secondaries, 1)
  }

  /** A key the family's file can hold: one of its template's keys or a
      numbered secondary-address key. */
  predicate Renders(f: Family, k: Key) {
    Rank(f, k) < |Order(f)| || SecondaryKey(k)
  }

  /** What the file of family `f` says about `k`. */
  function Shown(f: Family, p: Plan, k: Key): (r: Option<string>) {
    if Renders(f, k) then Value(p, k) else None
  }

  /** The lines of the file: the table, one line per field with a value. */
  function Render(f: Family, p: Plan): (r: seq<Directive>) {
    Lines(Table(f, p))
  }

  /** Every key the family renders has exactly the plan's value (one line,
      or none when the plan has no value); no other key has a line. */
  lemma RenderGives(f: Family, p: Plan, k: Key)
    ensures Given(Render(f, p), k, Shown(f, p, k))
  {
    TableGather(f, p, k);
    LinesValues(Table(f, p), k);
  }

  /** The secondary addresses give exactly the numbered keys of the list. */
  lemma SecondaryGather(s: seq<Secondary>, k: Key)
    ensures Gather(SecondaryFields(s, 1), k) == if SecondaryKey(k) then Listed(NumberedValue(s, k)) else []
  {
    if SecondaryKey(k) {
      if 1 <= k.n <= |s| {
        SecondaryEntry(s, 1, k.n - 1, k);
      } else {
        SecondaryOutside(s, 1, k, k.n);
      }
    } else {
      SecondaryKeys(s, 1);
      GatherNone(SecondaryFields(s, 1), k);
    }
  }

  /** A ranked order followed by secondary addresses gives every ranked key
      its value, every numbered key the list's value, and nothing else. */
  lemma RankedGather(order: seq<Key>, rank: Key -> nat, vals: Key -> Option<string>, s: seq<Secondary>, k: Key)
    requires Ranked(order, rank)
    ensures Gather(Slice(order, vals, 0, |order|) + SecondaryFields(s, 1), k)
      == if rank(k) < |order| then Listed(vals(k))
         else if SecondaryKey(k) then Listed(NumberedValue(s, k))
         else []
  {
    GatherAppend(Slice(order, vals, 0, |order|), SecondaryFields(s, 1), k);
    SliceGather(order, rank, vals, 0, |order|, k);
    SecondaryGather(s, k);
  }

  lemma TableGather(f: Family, p: Plan, k: Key)
    ensures Gives(Table(f, p), k, Shown(f, p, k))
  {
    FamilyRanked(f);
    var rank := k => Rank(f, k);
    RankedGather(Order(f), rank, PlanValues(p), p.secondaries, k);
    assert rank(k) == Rank(f, k);
    if SecondaryKey(k) {
      NumberedShown(f, p, k);
    }
  }

  lemma NumberedShown(f: Family, p: Plan, k: Key)
    requires SecondaryKey(k)
    ensures Shown(f, p, k) == NumberedValue(p.secondaries, k)
  {
    match k
    case IPADDRn(_) =>
    case NETMASKn(_) =>
    case PREFIXn(_) =>
  }

  // ------------------------------------------------------------ views

  /** A template key shows its plan value. */
  lemma Shows(f: Family, p: Plan, k: Key)
    requires Renders(f, k)
    ensures Given(Render(f, p), k, Value(p, k))
  {
    RenderGives(f, p, k);
  }

  /** A key outside the template has no line. */
  lemma Hides(f: Family, p: Plan, k: Key)
    requires !Renders(f, k)
    ensures Unset(Render(f, p), k)
  {
    RenderGives(f, p, k);
  }

  /** A numbered key shows entry `n` of the secondary addresses, whatever
      the family. */
  ghost predicate Numbered(ds: seq<Directive>, s: seq<Secondary>) {
    forall k :: SecondaryKey(k) ==> Given(ds, k, NumberedValue(s, k))
  }

  lemma ShowsNumbered(f: Family, p: Plan)
    ensures Numbered(Render(f, p), p.secondaries)
  {
    forall k | SecondaryKey(k)
      ensures Given(Render(f, p), k, NumberedValue(p.secondaries, k))
    {
      NumberedShown(f, p, k);
      RenderGives(f, p, k);
    }
  }

  predicate EthernetView1(ds: seq<Directive>, p: Plan) {
    Given(ds, DEVICE, p.device) && Given(ds, BOOTPROTO, p.bootproto) && Given(ds, HWADDR, p.hwaddr)
    && Given(ds, ONBOOT, p.onboot) && Given(ds, HOTPLUG, p.hotplug) && Given(ds, ONPARENT, p.onparent)
  }

  lemma EthernetShown1a(p: Plan)
    ensures Shown(Ethernet, p, DEVICE) == p.device
    ensures Shown(Ethernet, p, BOOTPROTO) == p.bootproto
    ensures Shown(Ethernet, p, HWADDR) == p.hwaddr
  {
  }

  lemma EthernetShown1b(p: Plan)
    ensures Shown(Ethernet, p, ONBOOT) == p.onboot
    ensures Shown(Ethernet, p, HOTPLUG) == p.hotplug
    ensures Shown(Ethernet, p, ONPARENT) == p.onparent
  {
  }

  lemma EthernetShows1(p: Plan)
    ensures EthernetView1(Render(Ethernet, p), p)
  {
    RenderGives(Ethernet, p, DEVICE);
    RenderGives(Ethernet, p, BOOTPROTO);
    RenderGives(Ethernet, p, HWADDR);
    RenderGives(Ethernet, p, ONBOOT);
    RenderGives(Ethernet, p, HOTPLUG);
    RenderGives(Ethernet, p, ONPARENT);
    EthernetShown1a(p);
    EthernetShown1b(p);
  }

  predicate EthernetView2(ds: seq<Directive>, p: Plan) {
    Given(ds, TYPE, p.devtype) && Given(ds, IPADDR, p.ipaddr) && Given(ds, NETMASK, p.netmask)
    && Given(ds, GATEWAY, p.gateway) && Given(ds, MTU, p.mtu) && Given(ds, DHCP_HOSTNAME, p.dhcpHostname)
  }

  lemma EthernetShown2a(p: Plan)
    ensures Shown(Ethernet, p, TYPE) == p.devtype
    ensures Shown(Ethernet, p, IPADDR) == p.ipaddr
    ensures Shown(Ethernet, p, NETMASK) == p.netmask
  {
  }

  lemma EthernetShown2b(p: Plan)
    ensures Shown(Ethernet, p, GATEWAY) == p.gateway
    ensures Shown(Ethernet, p, MTU) == p.mtu
    ensures Shown(Ethernet, p, DHCP_HOSTNAME) == p.dhcpHostname
  {
  }

  lemma EthernetShows2(p: Plan)
    ensures EthernetView2(Render(Ethernet, p), p)
  {
    RenderGives(Ethernet, p, TYPE);
    RenderGives(Ethernet, p, IPADDR);
    RenderGives(Ethernet, p, NETMASK);
    RenderGives(Ethernet, p, GATEWAY);
    RenderGives(Ethernet, p, MTU);
    RenderGives(Ethernet, p, DHCP_HOSTNAME);
    EthernetShown2a(p);
    EthernetShown2b(p);
  }

  predicate EthernetView3(ds: seq<Directive>, p: Plan) {
    Given(ds, ETHTOOL_OPTS, p.ethtoolOpts) && Given(ds, PEERDNS, p.peerdns) && Given(ds, DNS1, p.dns1)
    && Given(ds, DNS2, p.dns2) && Given(ds, DOMAIN, p.domain) && Given(ds, USERCTL, p.userctl)
  }

  lemma EthernetShown3a(p: Plan)
    ensures Shown(Ethernet, p, ETHTOOL_OPTS) == p.ethtoolOpts
    ensures Shown(Ethernet, p, PEERDNS) == p.peerdns
    ensures Shown(Ethernet, p, DNS1) == p.dns1
  {
  }

  lemma EthernetShown3b(p: Plan)
    ensures Shown(Ethernet, p, DNS2) == p.dns2
    ensures Shown(Ethernet, p, DOMAIN) == p.domain
    ensures Shown(Ethernet, p, USERCTL) == p.userctl
  {
  }

  lemma EthernetShows3(p: Plan)
    ensures EthernetView3(Render(Ethernet, p), p)
  {
    RenderGives(Ethernet, p, ETHTOOL_OPTS);
    RenderGives(Ethernet, p, PEERDNS);
    RenderGives(Ethernet, p, DNS1);
    RenderGives(Ethernet, p, DNS2);
    RenderGives(Ethernet, p, DOMAIN);
    RenderGives(Ethernet, p, USERCTL);
    EthernetShown3a(p);
    EthernetShown3b(p);
  }

  predicate EthernetView4(ds: seq<Directive>, p: Plan) {
    Given(ds, IPV6INIT, p.ipv6init) && Given(ds, IPV6_AUTOCONF, p.ipv6Autoconf) && Given(ds, IPV6ADDR, p.ipv6addr)
    && Given(ds, IPV6_DEFAULTGW, p.ipv6Gateway) && Given(ds, IPV6_PEERDNS, p.ipv6Peerdns) && Given(ds, IPV6ADDR_SECONDARIES, p.ipv6Secondaries)
  }

  lemma EthernetShown4a(p: Plan)
    ensures Shown(Ethernet, p, IPV6INIT) == p.ipv6init
    ensures Shown(Ethernet, p, IPV6_AUTOCONF) == p.ipv6Autoconf
    ensures Shown(Ethernet, p, IPV6ADDR) == p.ipv6addr
  {
  }

  lemma EthernetShown4b(p: Plan)
    ensures Shown(Ethernet, p, IPV6_DEFAULTGW) == p.ipv6Gateway
    ensures Shown(Ethernet, p, IPV6_PEERDNS) == p.ipv6Peerdns
    ensures Shown(Ethernet, p, IPV6ADDR_SECONDARIES) == p.ipv6Secondaries
  {
  }

  lemma EthernetShows4(p: Plan)
    ensures EthernetView4(Render(Ethernet, p), p)
  {
    RenderGives(Ethernet, p, IPV6INIT);
    RenderGives(Ethernet, p, IPV6_AUTOCONF);
    RenderGives(Ethernet, p, IPV6ADDR);
    RenderGives(Ethernet, p, IPV6_DEFAULTGW);
    RenderGives(Ethernet, p, IPV6_PEERDNS);
    RenderGives(Ethernet, p, IPV6ADDR_SECONDARIES);
    EthernetShown4a(p);
    EthernetShown4b(p);
  }

  predicate EthernetView5(ds: seq<Directive>, p: Plan) {
    Given(ds, LINKDELAY, p.linkdelay) && Given(ds, SCOPE, p.scope) && Given(ds, ZONE, p.zone)
    && Given(ds, PROMISC, p.promisc) && Given(ds, BRIDGE, p.bridge) && Given(ds, NM_CONTROLLED, p.nmControlled)
  }

  lemma EthernetShown5a(p: Plan)
    ensures Shown(Ethernet, p, LINKDELAY) == p.linkdelay
    ensures Shown(Ethernet, p, SCOPE) == p.scope
    ensures Shown(Ethernet, p, ZONE) == p.zone
  {
  }

  lemma EthernetShown5b(p: Plan)
    ensures Shown(Ethernet, p, PROMISC) == p.promisc
    ensures Shown(Ethernet, p, BRIDGE) == p.bridge
    ensures Shown(Ethernet, p, NM_CONTROLLED) == p.nmControlled
  {
  }

  lemma EthernetShows5(p: Plan)
    ensures EthernetView5(Render(Ethernet, p), p)
  {
    RenderGives(Ethernet, p, LINKDELAY);
    RenderGives(Ethernet, p, SCOPE);
    RenderGives(Ethernet, p, ZONE);
    RenderGives(Ethernet, p, PROMISC);
    RenderGives(Ethernet, p, BRIDGE);
    RenderGives(Ethernet, p, NM_CONTROLLED);
    EthernetShown5a(p);
    EthernetShown5b(p);
  }

  /** The file of the Ethernet template: each of its keys shows the plan's
      field, and each numbered key the secondary-address entry. */
  ghost predicate EthernetView(ds: seq<Directive>, p: Plan) {
    EthernetView1(ds, p) && EthernetView2(ds, p) && EthernetView3(ds, p) && EthernetView4(ds, p) && EthernetView5(ds, p) && Numbered(ds, p.secondaries)
  }

  lemma EthernetFile(p: Plan)
    ensures EthernetView(Render(Ethernet, p), p)
  {
    EthernetShows1(p);
    EthernetShows2(p);
    EthernetShows3(p);
    EthernetShows4(p);
    EthernetShows5(p);
    ShowsNumbered(Ethernet, p);
  }

  predicate BondView1(ds: seq<Directive>, p: Plan) {
    Given(ds, DEVICE, p.device) && Given(ds, BOOTPROTO, p.bootproto) && Given(ds, ONBOOT, p.onboot)
    && Given(ds, HOTPLUG, p.hotplug) && Given(ds, ONPARENT, p.onparent) && Given(ds, TYPE, p.devtype)
  }

  lemma BondShown1a(p: Plan)
    ensures Shown(BondMaster, p, DEVICE) == p.device
    ensures Shown(BondMaster, p, BOOTPROTO) == p.bootproto
    ensures Shown(BondMaster, p, ONBOOT) == p.onboot
  {
  }

  lemma BondShown1b(p: Plan)
    ensures Shown(BondMaster, p, HOTPLUG) == p.hotplug
    ensures Shown(BondMaster, p, ONPARENT) == p.onparent
    ensures Shown(BondMaster, p, TYPE) == p.devtype
  {
  }

  lemma BondShows1(p: Plan)
    ensures BondView1(Render(BondMaster, p), p)
  {
    RenderGives(BondMaster, p, DEVICE);
    RenderGives(BondMaster, p, BOOTPROTO);
    RenderGives(BondMaster, p, ONBOOT);
    RenderGives(BondMaster, p, HOTPLUG);
    RenderGives(BondMaster, p, ONPARENT);
    RenderGives(BondMaster, p, TYPE);
    BondShown1a(p);
    BondShown1b(p);
  }

  predicate BondView2(ds: seq<Directive>, p: Plan) {
    Given(ds, IPADDR, p.ipaddr) && Given(ds, NETMASK, p.netmask) && Given(ds, GATEWAY, p.gateway)
    && Given(ds, MTU, p.mtu) && Given(ds, BONDING_OPTS, p.bondingOpts) && Given(ds, ETHTOOL_OPTS, p.ethtoolOpts)
  }

  lemma BondShown2a(p: Plan)
    ensures Shown(BondMaster, p, IPADDR) == p.ipaddr
    ensures Shown(BondMaster, p, NETMASK) == p.netmask
    ensures Shown(BondMaster, p, GATEWAY) == p.gateway
  {
  }

  lemma BondShown2b(p: Plan)
    ensures Shown(BondMaster, p, MTU) == p.mtu
    ensures Shown(BondMaster, p, BONDING_OPTS) == p.bondingOpts
    ensures Shown(BondMaster, p, ETHTOOL_OPTS) == p.ethtoolOpts
  {
  }

  lemma BondShows2(p: Plan)
    ensures BondView2(Render(BondMaster, p), p)
  {
    RenderGives(BondMaster, p, IPADDR);
    RenderGives(BondMaster, p, NETMASK);
    RenderGives(BondMaster, p, GATEWAY);
    RenderGives(BondMaster, p, MTU);
    RenderGives(BondMaster, p, BONDING_OPTS);
    RenderGives(BondMaster, p, ETHTOOL_OPTS);
    BondShown2a(p);
    BondShown2b(p);
  }

  predicate BondView3(ds: seq<Directive>, p: Plan) {
    Given(ds, PEERDNS, p.peerdns) && Given(ds, DNS1, p.dns1) && Given(ds, DNS2, p.dns2)
    && Given(ds, DOMAIN, p.domain) && Given(ds, USERCTL, p.userctl) && Given(ds, IPV6INIT, p.ipv6init)
  }

  lemma BondShown3a(p: Plan)
    ensures Shown(BondMaster, p, PEERDNS) == p.peerdns
    ensures Shown(BondMaster, p, DNS1) == p.dns1
    ensures Shown(BondMaster, p, DNS2) == p.dns2
  {
  }

  lemma BondShown3b(p: Plan)
    ensures Shown(BondMaster, p, DOMAIN) == p.domain
    ensures Shown(BondMaster, p, USERCTL) == p.userctl
    ensures Shown(BondMaster, p, IPV6INIT) == p.ipv6init
  {
  }

  lemma BondShows3(p: Plan)
    ensures BondView3(Render(BondMaster, p), p)
  {
    RenderGives(BondMaster, p, PEERDNS);
    RenderGives(BondMaster, p, DNS1);
    RenderGives(BondMaster, p, DNS2);
    RenderGives(BondMaster, p, DOMAIN);
    RenderGives(BondMaster, p, USERCTL);
    RenderGives(BondMaster, p, IPV6INIT);
    BondShown3a(p);
    BondShown3b(p);
  }

  predicate BondView4(ds: seq<Directive>, p: Plan) {
    Given(ds, IPV6ADDR, p.ipv6addr) && Given(ds, IPV6_DEFAULTGW, p.ipv6Gateway) && Given(ds, IPV6_PEERDNS, p.ipv6Peerdns)
    && Given(ds, BRIDGE, p.bridge) && Given(ds, NM_CONTROLLED, p.nmControlled)
  }

  lemma BondShown4a(p: Plan)
    ensures Shown(BondMaster, p, IPV6ADDR) == p.ipv6addr
    ensures Shown(BondMaster, p, IPV6_DEFAULTGW) == p.ipv6Gateway
    ensures Shown(BondMaster, p, IPV6_PEERDNS) == p.ipv6Peerdns
  {
  }

  lemma BondShown4b(p: Plan)
    ensures Shown(BondMaster, p, BRIDGE) == p.bridge
    ensures Shown(BondMaster, p, NM_CONTROLLED) == p.nmControlled
  {
  }

  lemma BondShows4(p: Plan)
    ensures BondView4(Render(BondMaster, p), p)
  {
    RenderGives(BondMaster, p, IPV6ADDR);
    RenderGives(BondMaster, p, IPV6_DEFAULTGW);
    RenderGives(BondMaster, p, IPV6_PEERDNS);
    RenderGives(BondMaster, p, BRIDGE);
    RenderGives(BondMaster, p, NM_CONTROLLED);
    BondShown4a(p);
    BondShown4b(p);
  }

  /** The file of the Bond template: each of its keys shows the plan's
      field, and each numbered key the secondary-address entry. */
  ghost predicate BondView(ds: seq<Directive>, p: Plan) {
    BondView1(ds, p) && BondView2(ds, p) && BondView3(ds, p) && BondView4(ds, p) && Numbered(ds, p.secondaries)
  }

  lemma BondFile(p: Plan)
    ensures BondView(Render(BondMaster, p), p)
  {
    BondShows1(p);
    BondShows2(p);
    BondShows3(p);
    BondShows4(p);
    ShowsNumbered(BondMaster, p);
  }

  predicate BridgeView1(ds: seq<Directive>, p: Plan) {
    Given(ds, DEVICE, p.device) && Given(ds, BOOTPROTO, p.bootproto) && Given(ds, ONBOOT, p.onboot)
    && Given(ds, TYPE, p.devtype) && Given(ds, IPADDR, p.ipaddr) && Given(ds, NETMASK, p.netmask)
  }

  lemma BridgeShown1a(p: Plan)
    ensures Shown(BridgeDevice, p, DEVICE) == p.device
    ensures Shown(BridgeDevice, p, BOOTPROTO) == p.bootproto
    ensures Shown(BridgeDevice, p, ONBOOT) == p.onboot
  {
  }

  lemma BridgeShown1b(p: Plan)
    ensures Shown(BridgeDevice, p, TYPE) == p.devtype
    ensures Shown(BridgeDevice, p, IPADDR) == p.ipaddr
    ensures Shown(BridgeDevice, p, NETMASK) == p.netmask
  {
  }

  lemma BridgeShows1(p: Plan)
    ensures BridgeView1(Render(BridgeDevice, p), p)
  {
    RenderGives(BridgeDevice, p, DEVICE);
    RenderGives(BridgeDevice, p, BOOTPROTO);
    RenderGives(BridgeDevice, p, ONBOOT);
    RenderGives(BridgeDevice, p, TYPE);
    RenderGives(BridgeDevice, p, IPADDR);
    RenderGives(BridgeDevice, p, NETMASK);
    BridgeShown1a(p);
    BridgeShown1b(p);
  }

  predicate BridgeView2(ds: seq<Directive>, p: Plan) {
    Given(ds, GATEWAY, p.gateway) && Given(ds, IPV6INIT, p.ipv6init) && Given(ds, IPV6ADDR, p.ipv6addr)
    && Given(ds, IPV6_DEFAULTGW, p.ipv6Gateway) && Given(ds, IPV6_PEERDNS, p.ipv6Peerdns) && Given(ds, PEERDNS, p.peerdns)
  }

  lemma BridgeShown2a(p: Plan)
    ensures Shown(BridgeDevice, p, GATEWAY) == p.gateway
    ensures Shown(BridgeDevice, p, IPV6INIT) == p.ipv6init
    ensures Shown(BridgeDevice, p, IPV6ADDR) == p.ipv6addr
  {
  }

  lemma BridgeShown2b(p: Plan)
    ensures Shown(BridgeDevice, p, IPV6_DEFAULTGW) == p.ipv6Gateway
    ensures Shown(BridgeDevice, p, IPV6_PEERDNS) == p.ipv6Peerdns
    ensures Shown(BridgeDevice, p, PEERDNS) == p.peerdns
  {
  }

  lemma BridgeShows2(p: Plan)
    ensures BridgeView2(Render(BridgeDevice, p), p)
  {
    RenderGives(BridgeDevice, p, GATEWAY);
    RenderGives(BridgeDevice, p, IPV6INIT);
    RenderGives(BridgeDevice, p, IPV6ADDR);
    RenderGives(BridgeDevice, p, IPV6_DEFAULTGW);
    RenderGives(BridgeDevice, p, IPV6_PEERDNS);
    RenderGives(BridgeDevice, p, PEERDNS);
    BridgeShown2a(p);
    BridgeShown2b(p);
  }

  predicate BridgeView3(ds: seq<Directive>, p: Plan) {
    Given(ds, DNS1, p.dns1) && Given(ds, DNS2, p.dns2) && Given(ds, DOMAIN, p.domain)
    && Given(ds, USERCTL, p.userctl) && Given(ds, DELAY, p.delay) && Given(ds, STP, p.stp)
  }

  lemma BridgeShown3a(p: Plan)
    ensures Shown(BridgeDevice, p, DNS1) == p.dns1
    ensures Shown(BridgeDevice, p, DNS2) == p.dns2
    ensures Shown(BridgeDevice, p, DOMAIN) == p.domain
  {
  }

  lemma BridgeShown3b(p: Plan)
    ensures Shown(BridgeDevice, p, USERCTL) == p.userctl
    ensures Shown(BridgeDevice, p, DELAY) == p.delay
    ensures Shown(BridgeDevice, p, STP) == p.stp
  {
  }

  lemma BridgeShows3(p: Plan)
    ensures BridgeView3(Render(BridgeDevice, p), p)
  {
    RenderGives(BridgeDevice, p, DNS1);
    RenderGives(BridgeDevice, p, DNS2);
    RenderGives(BridgeDevice, p, DOMAIN);
    RenderGives(BridgeDevice, p, USERCTL);
    RenderGives(BridgeDevice, p, DELAY);
    RenderGives(BridgeDevice, p, STP);
    BridgeShown3a(p);
    BridgeShown3b(p);
  }

  predicate BridgeView4(ds: seq<Directive>, p: Plan) {
    Given(ds, BRIDGING_OPTS, p.bridgingOpts) && Given(ds, NM_CONTROLLED, p.nmControlled)
  }

  lemma BridgeShown4a(p: Plan)
    ensures Shown(BridgeDevice, p, BRIDGING_OPTS) == p.bridgingOpts
    ensures Shown(BridgeDevice, p, NM_CONTROLLED) == p.nmControlled
  {
  }

  lemma BridgeShows4(p: Plan)
    ensures BridgeView4(Render(BridgeDevice, p), p)
  {
    RenderGives(BridgeDevice, p, BRIDGING_OPTS);
    RenderGives(BridgeDevice, p, NM_CONTROLLED);
    BridgeShown4a(p);
  }

  /** The file of the Bridge template: each of its keys shows the plan's
      field, and each numbered key the secondary-address entry. */
  ghost predicate BridgeView(ds: seq<Directive>, p: Plan) {
    BridgeView1(ds, p) && BridgeView2(ds, p) && BridgeView3(ds, p) && BridgeView4(ds, p) && Numbered(ds, p.secondaries)
  }

  lemma BridgeFile(p: Plan)
    ensures BridgeView(Render(BridgeDevice, p), p)
  {
    BridgeShows1(p);
    BridgeShows2(p);
    BridgeShows3(p);
    BridgeShows4(p);
    ShowsNumbered(BridgeDevice, p);
  }

  predicate SlaveView1(ds: seq<Directive>, p: Plan) {
    Given(ds, DEVICE, p.device) && Given(ds, BOOTPROTO, p.bootproto) && Given(ds, HWADDR, p.hwaddr)
    && Given(ds, ONBOOT, p.onboot) && Given(ds, MASTER, p.master) && Given(ds, SLAVE, p.slave)
  }

  lemma SlaveShown1a(p: Plan)
    ensures Shown(BondSlave, p, DEVICE) == p.device
    ensures Shown(BondSlave, p, BOOTPROTO) == p.bootproto
    ensures Shown(BondSlave, p, HWADDR) == p.hwaddr
  {
  }

  lemma SlaveShown1b(p: Plan)
    ensures Shown(BondSlave, p, ONBOOT) == p.onboot
    ensures Shown(BondSlave, p, MASTER) == p.master
    ensures Shown(BondSlave, p, SLAVE) == p.slave
  {
  }

  lemma SlaveShows1(p: Plan)
    ensures SlaveView1(Render(BondSlave, p), p)
  {
    RenderGives(BondSlave, p, DEVICE);
    RenderGives(BondSlave, p, BOOTPROTO);
    RenderGives(BondSlave, p, HWADDR);
    RenderGives(BondSlave, p, ONBOOT);
    RenderGives(BondSlave, p, MASTER);
    RenderGives(BondSlave, p, SLAVE);
    SlaveShown1a(p);
    SlaveShown1b(p);
  }

  predicate SlaveView2(ds: seq<Directive>, p: Plan) {
    Given(ds, TYPE, p.devtype) && Given(ds, ETHTOOL_OPTS, p.ethtoolOpts) && Given(ds, USERCTL, p.userctl)
    && Given(ds, NM_CONTROLLED, p.nmControlled)
  }

  lemma SlaveShown2a(p: Plan)
    ensures Shown(BondSlave, p, TYPE) == p.devtype
    ensures Shown(BondSlave, p, ETHTOOL_OPTS) == p.ethtoolOpts
    ensures Shown(BondSlave, p, USERCTL) == p.userctl
  {
  }

  lemma SlaveShown2b(p: Plan)
    ensures Shown(BondSlave, p, NM_CONTROLLED) == p.nmControlled
  {
  }

  lemma SlaveShows2(p: Plan)
    ensures SlaveView2(Render(BondSlave, p), p)
  {
    RenderGives(BondSlave, p, TYPE);
    RenderGives(BondSlave, p, ETHTOOL_OPTS);
    RenderGives(BondSlave, p, USERCTL);
    RenderGives(BondSlave, p, NM_CONTROLLED);
    SlaveShown2a(p);
    SlaveShown2b(p);
  }

  /** The file of the Slave template: each of its keys shows the plan's
      field, and each numbered key the secondary-address entry. */
  ghost predicate SlaveView(ds: seq<Directive>, p: Plan) {
    SlaveView1(ds, p) && SlaveView2(ds, p) && Numbered(ds, p.secondaries)
  }

  lemma SlaveFile(p: Plan)
    ensures SlaveView(Render(BondSlave, p), p)
  {
    SlaveShows1(p);
    SlaveShows2(p);
    ShowsNumbered(BondSlave, p);
  }

  predicate RangeView1(ds: seq<Directive>, p: Plan) {
    Given(ds, IPADDR_START, p.ipaddrStart) && Given(ds, IPADDR_END, p.ipaddrEnd) && Given(ds, CLONENUM_START, p.clonenumStart)
    && Given(ds, NO_ALIASROUTING, p.noAliasrouting) && Given(ds, NETMASK, p.netmask) && Given(ds, BROADCAST, p.broadcast)
  }

  lemma RangeShown1a(p: Plan)
    ensures Shown(AliasRange, p, IPADDR_START) == p.ipaddrStart
    ensures Shown(AliasRange, p, IPADDR_END) == p.ipaddrEnd
    ensures Shown(AliasRange, p, CLONENUM_START) == p.clonenumStart
  {
  }

  lemma RangeShown1b(p: Plan)
    ensures Shown(AliasRange, p, NO_ALIASROUTING) == p.noAliasrouting
    ensures Shown(AliasRange, p, NETMASK) == p.netmask
    ensures Shown(AliasRange, p, BROADCAST) == p.broadcast
  {
  }

  lemma RangeShows1(p: Plan)
    ensures RangeView1(Render(AliasRange, p), p)
  {
    RenderGives(AliasRange, p, IPADDR_START);
    RenderGives(AliasRange, p, IPADDR_END);
    RenderGives(AliasRange, p, CLONENUM_START);
    RenderGives(AliasRange, p, NO_ALIASROUTING);
    RenderGives(AliasRange, p, NETMASK);
    RenderGives(AliasRange, p, BROADCAST);
    RangeShown1a(p);
    RangeShown1b(p);
  }

  predicate RangeView2(ds: seq<Directive>, p: Plan) {
    Given(ds, ARPCHECK, p.arpcheck) && Given(ds, ONPARENT, p.onparent) && Given(ds, NM_CONTROLLED, p.nmControlled)
  }

  lemma RangeShown2a(p: Plan)
    ensures Shown(AliasRange, p, ARPCHECK) == p.arpcheck
    ensures Shown(AliasRange, p, ONPARENT) == p.onparent
    ensures Shown(AliasRange, p, NM_CONTROLLED) == p.nmControlled
  {
  }

  lemma RangeShows2(p: Plan)
    ensures RangeView2(Render(AliasRange, p), p)
  {
    RenderGives(AliasRange, p, ARPCHECK);
    RenderGives(AliasRange, p, ONPARENT);
    RenderGives(AliasRange, p, NM_CONTROLLED);
    RangeShown2a(p);
  }

  /** The file of the Range template: each of its keys shows the plan's
      field, and each numbered key the secondary-address entry. */
  ghost predicate RangeView(ds: seq<Directive>, p: Plan) {
    RangeView1(ds, p) && RangeView2(ds, p) && Numbered(ds, p.secondaries)
  }

  lemma RangeFile(p: Plan)
    ensures RangeView(Render(AliasRange, p), p)
  {
    RangeShows1(p);
    RangeShows2(p);
    ShowsNumbered(AliasRange, p);
  }

  // ------------------------------------------------------------ line order

  /** Some line setting `a` comes before some line setting `b`. */
  predicate Precedes(ds: seq<Directive>, a: Key, b: Key) {
    exists m :: 0 <= m <= |ds| && Values(ds[..m], a) != [] && Values(ds[m..], b) != []
  }

  /** Two keys of a family's template render in the template's order. */
  lemma TemplateOrder(f: Family, p: Plan, a: Key, b: Key)
    requires Rank(f, a) < Rank(f, b) < |Order(f)|
    requires Value(p, a).Some? && Value(p, b).Some?
    ensures Precedes(Render(f, p), a, b)
  {
    FamilyRanked(f);
    RankedOrder(Order(f), k => Rank(f, k), PlanValues(p), p.secondaries, a, b);
  }

  /** Every template line renders before the secondary addresses. */
  lemma SecondaryLast(f: Family, p: Plan, a: Key, b: Key)
    requires Rank(f, a) < |Order(f)| && SecondaryKey(b)
    requires Value(p, a).Some? && NumberedValue(p.secondaries, b).Some?
    ensures Precedes(Render(f, p), a, b)
  {
    FamilyRanked(f);
    RankedLast(Order(f), k => Rank(f, k), PlanValues(p), p.secondaries, a, b);
  }

  lemma RankedOrder(order: seq<Key>, rank: Key -> nat, vals: Key -> Option<string>, s: seq<Secondary>, a: Key, b: Key)
    requires Ranked(order, rank)
    requires rank(a) < rank(b) < |order|
    requires vals(a).Some? && vals(b).Some?
    ensures Precedes(Lines(Slice(order, vals, 0, |order|) + SecondaryFields(s, 1)), a, b)
  {
    var r := rank(b);
    var head, mid, sec := Slice(order, vals, 0, r), Slice(order, vals, r, |order|), SecondaryFields(s, 1);
    SliceSplit(order, vals, 0, r, |order|);
    Regroup(head, mid, sec);
    SliceGather(order, rank, vals, 0, r, a);
    SliceGather(order, rank, vals, r, |order|, b);
    GatherAppend(mid, sec, b);
    SplitAt(head, mid + sec, a, b);
  }

  lemma RankedLast(order: seq<Key>, rank: Key -> nat, vals: Key -> Option<string>, s: seq<Secondary>, a: Key, b: Key)
    requires Ranked(order, rank)
    requires rank(a) < |order| && SecondaryKey(b)
    requires vals(a).Some? && NumberedValue(s, b).Some?
    ensures Precedes(Lines(Slice(order, vals, 0, |order|) + SecondaryFields(s, 1)), a, b)
  {
    SliceGather(order, rank, vals, 0, |order|, a);
    SecondaryGather(s, b);
    SplitAt(Slice(order, vals, 0, |order|), SecondaryFields(s, 1), a, b);
  }

  lemma Regroup(a: seq<Field>, b: seq<Field>, c: seq<Field>)
    ensures (a + b) + c == a + (b + c)
  {
  }

  /** Lines of `head + tail` split where `head` ends: a key given in the
      head precedes a key given in the tail. */
  lemma SplitAt(head: seq<Field>, tail: seq<Field>, a: Key, b: Key)
    requires Gather(head, a) != [] && Gather(tail, b) != []
    ensures Precedes(Lines(head + tail), a, b)
  {
    var ds := Lines(head + tail);
    LinesAppend(head, tail);
    var m := |Lines(head)|;
    assert ds[..m] == Lines(head);
    assert ds[m..] == Lines(tail);
    LinesValues(head, a);
    LinesValues(tail, b);
  }
}
