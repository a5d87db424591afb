# puppet-network in Dafny

A model of the configuration compiler behind the `network::*` defined types
and the `network::service` class of the puppet-network module. Given a device
title, its parameters and the node's facts, the compiler either refuses the
parameters with a message or produces a catalog of artifacts:

- the RHEL network-scripts files `ifcfg-<dev>`, `ifcfg-<dev>-range<n>`,
  `route-<dev>`, `rule-<dev>` and `rule6-<dev>` (path, mode 0644, owner and
  group root, present or absent, the `KEY=VALUE` content, the notify edge);
- the restart mechanism: the `network` service before release 8 and on
  Fedora, the `restart_network` exec (nmcli/systemctl) from release 8 on;
- the per-alias `ifup-<dev>`/`ifdown-<dev>` exec of a bond alias;
- the modprobe.conf `bonding` alias of a bond master on the old releases
  that still use `/etc/modprobe.conf`;
- the `bridge-utils` package of a dynamic bridge.

The only source of the module's behaviour is its RSpec suite under `spec/`;
the manifests and ERB templates it exercises are not part of this model.
The rules the model follows are read off those expectations where they
show them; where they do not, the model makes a choice, and each such
choice is listed under "## Left out".

Modules, one per concern:

- `wrappers.dfy` (Wrappers): `Option`, `Result` with the `:-` failure propagation
- `text.dfy` (Text): decimal numerals, `IndexOf`, `Split`/`Join` and their round trips
- `validators.dfy` (Validators): ensure states, IPv4, IPv6, MAC and boolean validation, with the suite's messages
- `ifcfg.dfy` (Ifcfg): keys, line syntax and per-key quoting, the read-back parser, "what a file says about a key" (`Values`, `Given`, `Assigns`, `Unset`)
- `conventions.dfy` (Conventions): VLAN suffix stripping, the MAC override, numbered secondary addresses
- `template.dfy` (Template): the five templates (Ethernet, bond master, bridge, bond slave, alias range) as key orders; rendering a plan and the views that read each key back
- `resources.dfy` (Resources): file, exec, service and augeas records, the catalog, notifications
- `platform.dfy` (Platform): facts, release major, the restart mechanism, the modprobe alias policy and the `ModprobeConf` class holding the alias list
- `artifacts.dfy` (Artifacts): the shared plan heads and line groups (device head, IPv4, DNS, IPv6)
- `interfaces.dfy` (Interfaces): `network::if`, `::none`, `::promisc`, `::static`, `::dynamic`, `::bridge`, `::alias`
- `aliases.dfy` (Aliases): `network::alias`, `network::alias::range`
- `bonds.dfy` (Bonds): `network::bond::static`, `::dynamic`, `::bridge`, `::slave`, `::alias`
- `bridges.dfy` (Bridges): `network::bridge`, `::static`, `::dynamic`
- `routing.dfy` (Routing): `network::route` (legacy positional lists) and `network::rule`
- `devices.dfy` (Devices): one `Device` sum type over all kinds, `Compile` and the catalog-wide properties
- `scenarios.dfy` (Scenarios): concrete cases taken from the suite

Every per-kind renderer is a function from its parameter record to a list
of directives, and its contract states, key by key, what the file says:
`Given(ds, K, o)` means the lines of `ds` give key `K` exactly the values of
`o` (one line for `Some(v)`, none for `None`). Each validator's contract
states the accepted inputs in both directions and the message of every
refusal. The text form of the lines has a parser that inverts it.

Where the repository's prose and its suite disagree, the model follows the
suite:

- Quoting is per key (`ETHTOOL_OPTS`, `BONDING_OPTS`, `BRIDGING_OPTS`,
  `DOMAIN`, `DHCP_HOSTNAME`, `SCOPE`), not "any value with a space":
  `IPV6ADDR_SECONDARIES` is written bare although its value holds a space
  (spec/defines/network_if_static_spec.rb:136).
- Booleans accept only real booleans; the string `notABool` is refused with
  `"notABool" is not a boolean.`. The prose also admits case-insensitive
  `true`/`false` strings, which the suite never exercises (see Left out).

## Model

| member | source | states |
|---|---|---|
| Validators.ParseEnsure | spec/defines/network_bond_static_spec.rb:7-17 | `up` and `down` are accepted, each to its own state, and nothing else; any other value is refused with `$ensure must be either "up" or "down".`, or with `expects a match for Enum['down', 'up']` for a typed parameter |
| Validators.ParseRangeEnsure | spec/defines/network_alias_range_spec.rb:7-18 | `up`, `down` and `absent` are accepted, each to its own state; anything else is refused with the three-valued message |
| Validators.EnsureRoundTrip | spec/defines/network_alias_range_spec.rb:50-161 | a state's name parses back to the state, and a parsed state names the string it came from |
| Validators.ValidateIPv4 | spec/defines/network_alias_spec.rb:20-31 | accepted exactly when the value is a dotted quad, returned unchanged; refused with `<value> is not an IP address.` |
| Validators.IPv4RoundTrip | spec/defines/network_alias_range_spec.rb:21-47 | four octets up to 255 format to an address that validates and reads back to the same octets |
| Validators.IPv4Canonical | spec/defines/network_alias_range_spec.rb:21-47 | every accepted address is the canonical format of its octets (no leading zeros) |
| Validators.ValidateIPv6 | spec/defines/network_bond_static_spec.rb:33-45 | accepted exactly when the value is an IPv6 address with an optional prefix; refused with `<value> is not an IPv6 address.` |
| Validators.ValidateOptIPv6 | spec/defines/network_bridge_static_spec.rb:33-45 | an absent address is accepted; a given one is validated as above |
| Validators.IPv6FullForm | spec/defines/network_if_static_spec.rb:91-92 | eight hex groups joined by colons validate, with or without a `/prefix` up to 128 |
| Validators.IPv6Prefix | spec/defines/network_if_static_spec.rb:91 | a `/prefix` is accepted exactly when it is at most 128, and a value without one is judged by its address alone |
| Validators.IPv6Uncompressed | spec/defines/network_if_static_spec.rb:91-92 | without `::`, colon-separated hex runs are accepted exactly when there are eight of them, each of at most four digits (seven or nine groups, or a five-digit group, are refused) |
| Validators.IPv6AddressCompressed | spec/defines/network_if_static_spec.rb:20-32 | groups written around one `::` are accepted exactly when there are at most seven of them on both sides together |
| Validators.IPv6CompressedForm | spec/defines/network_if_static_spec.rb:20-32 | the compressed form (`fe80::1`, `::`), with or without a `/prefix` up to 128, is accepted |
| Validators.IPv6SingleCompression | spec/defines/network_if_static_spec.rb:20-32 | a value with two `::` (`:::` included) is refused |
| Validators.IPv4IsNotIPv6 | spec/defines/network_if_static_spec.rb:20-32 | no value is both an IPv4 and an IPv6 address |
| Validators.ValidateMac | spec/defines/network_bond_slave_spec.rb:7-17 | accepted exactly when the value is six two-digit hex octets; refused with `<value> is not a MAC address.` |
| Validators.MacRoundTrip | spec/defines/network_bond_slave_spec.rb:19-47 | six bytes format to a MAC that validates and reads back to the same bytes |
| Validators.ValidateBool | spec/defines/network_bridge_spec.rb:18-28 | a boolean is accepted as itself; a string is refused with `"<s>" is not a boolean.`, or `expects a Boolean` for a typed parameter |
| Validators.ValidateOptBool | spec/defines/network_bridge_static_spec.rb:47-73 | an absent boolean takes its default; a given one is validated |
| Ifcfg.QuotedKeys | spec/defines/network_if_static_spec.rb:125-138 | the keys whose lines are quoted are exactly the six listed quoted keys |
| Ifcfg.NameClean | spec/defines/network_if_static_spec.rb:114-144 | no key name contains `=`, numbered names included |
| Ifcfg.LineRoundTrip | spec/defines/network_if_static_spec.rb:114-144 | parsing a rendered line gives back its key name and unquoted value |
| Ifcfg.ParseLineCanonical | spec/defines/network_if_static_spec.rb:114-144 | a line that parses is exactly the rendering of what it parses to |
| Ifcfg.ContentRoundTrip | spec/defines/network_if_static_spec.rb:114-144 | reading back a file's content gives the settings of all its lines, in order |
| Ifcfg.GivenInContent | spec/defines/network_bond_static_spec.rb:69-81 | a value a file gives a key appears as that key's line in the content |
| Conventions.StripVlanTagged | spec/defines/network_if_dynamic_spec.rb:96-121 | `<dev>.<digits>` strips to `<dev>` |
| Conventions.StripVlanPlain | spec/defines/network_if_dynamic_spec.rb:18-46 | a title without a dot is its own MAC fact name |
| Conventions.MacOverride | spec/defines/network_if_static_spec.rb:80-117 | a MAC parameter wins over the fact; without it the device's own fact is used, and there is no HWADDR exactly when the base device has no MAC fact |
| Conventions.VlanMac | spec/defines/network_if_static_spec.rb:149-181 | a VLAN device takes the MAC fact of its parent |
| Template.SecondaryGather | spec/defines/network_if_static_spec.rb:96-143 | entry `i` of the secondary addresses gives exactly the keys `IPADDRi`/`NETMASKi`/`PREFIXi` it supplies, numbered from 1; no other numbered key has a line |
| Template.RenderGives | spec/defines/network_if_static_spec.rb:113-144 | a rendered file gives every key of its template exactly the plan's value and no line to any other key |
| Template.EthernetFile | spec/defines/network_if_static_spec.rb:113-144 | the Ethernet template shows every plan field under its key, plus the numbered secondary keys |
| Template.BondFile | spec/defines/network_bond_static_spec.rb:128-180 | the bond template shows every plan field under its key |
| Template.BridgeFile | spec/defines/network_bridge_static_spec.rb:110-164 | the bridge template shows every plan field under its key |
| Template.SlaveFile | spec/defines/network_bond_slave_spec.rb:52-85 | the slave template shows every plan field under its key |
| Template.RangeFile | spec/defines/network_alias_range_spec.rb:164-200 | the range template shows every plan field under its key |
| Template.TemplateOrder | spec/defines/network_if_static_spec.rb:114-139 | two keys with values render in the order of their template |
| Template.SecondaryLast | spec/defines/network_if_static_spec.rb:139-143 | every template line renders before the secondary-address lines |
| Artifacts.NmControlled | spec/defines/network_if_spec.rb:20-52 | `NM_CONTROLLED` is `yes` exactly on NetworkManager releases and `no` otherwise |
| Artifacts.DevicePlan | spec/defines/network_alias_spec.rb:33-59 | a `dev:n` title boots with its parent (ONPARENT); any other title uses ONBOOT and HOTPLUG, all from the state |
| Artifacts.UserCtl | spec/defines/network_alias_spec.rb:64-92 | `USERCTL=yes` exactly when users control the device |
| Artifacts.ScriptOf | spec/defines/network_bridge_spec.rb:40-47 | a device file is present, conventional, holds the rendered lines and reads back to their settings |
| Resources.ScriptFile | spec/defines/network_route_spec.rb:15-21 | a written file is present, mode 0644, owned by root:root under the scripts directory, with the given name, content and notify edge |
| Resources.RemovedFile | spec/defines/network_alias_range_spec.rb:146-161 | a removed file is absent, conventional, with no content, and keeps its name and notify edge |
| Resources.Notify | spec/defines/network_if_spec.rb:98-132 | restart on gives the target; restart off gives no notify edge |
| Interfaces.IfLines | spec/defines/network_if_spec.rb:20-94 | head lines with BOOTPROTO=none and the MAC, MTU, ETHTOOL_OPTS, ZONE, no address and no PEERDNS |
| Interfaces.If | spec/defines/network_if_spec.rb:7-18 | refused exactly for a bad state; otherwise the lines above with the fact MAC |
| Interfaces.IfNoneLines | spec/defines/network_if_none_spec.rb:6-80 | BOOTPROTO=none, MAC, boot lines, MTU, ETHTOOL_OPTS, USERCTL, LINKDELAY, no address |
| Interfaces.IfNone | spec/defines/network_if_spec.rb:7-18 | refused exactly for a bad state, with the message of the `network::if` refusal (carried over, see Left out); otherwise the lines above with the MAC taken from the parameter, else from the fact |
| Interfaces.IfPromiscLines | spec/defines/network_if_promisc_spec.rb:7-75 | PROMISC=yes and PEERDNS=no always, no address |
| Interfaces.IfPromisc | spec/defines/network_if_spec.rb:7-18 | refused exactly for a bad state, with the message of the `network::if` refusal (carried over, see Left out); otherwise the lines above with the MAC taken from the parameter, else from the fact |
| Interfaces.IfStaticLines | spec/defines/network_if_static_spec.rb:35-147 | address block, resolver lines, MTU, ETHTOOL_OPTS, USERCTL, LINKDELAY, SCOPE, the IPv6 block, IPV6_AUTOCONF and IPV6ADDR_SECONDARIES only with IPv6 on, numbered alias addresses; a boolean switch that is not given is off (PEERDNS=no, no USERCTL, no IPv6 block) |
| Interfaces.IfStatic | spec/defines/network_if_static_spec.rb:7-32 | bad IPv4 and bad IPv6 are refused with their messages, after a bad state (that refusal carried over, see Left out); success exactly when all are valid |
| Interfaces.IfDynamicLines | spec/defines/network_if_dynamic_spec.rb:18-91 | BOOTPROTO=dhcp when no protocol is given, the given one (`bootp`) otherwise, MTU, DHCP_HOSTNAME, ETHTOOL_OPTS, USERCTL, LINKDELAY, no address, no PEERDNS |
| Interfaces.IfDynamic | spec/defines/network_if_dynamic_spec.rb:7-16 | refused exactly for a bad state; the MAC from the parameter, else the (VLAN-stripped) fact |
| Interfaces.IfBridgeLines | spec/defines/network_if_bridge_spec.rb:19-87 | BRIDGE names the bridge, PEERDNS=no, MTU, ETHTOOL_OPTS, no MAC, no address |
| Interfaces.IfBridge | spec/defines/network_if_bridge_spec.rb:7-17 | refused exactly for a bad state |
| Interfaces.IfAliasLines | spec/defines/network_if_alias_spec.rb:20-88 | head lines without a MAC (ONPARENT for an alias title), address block, PEERDNS, DNS1, DNS2 and DOMAIN |
| Interfaces.IfAlias | spec/defines/network_if_alias_spec.rb:7-18 | bad IPv4 refused with its message, after a bad state (that refusal carried over, see Left out); success exactly when both are valid |
| Aliases.AliasLines | spec/defines/network_alias_spec.rb:33-96 | no MAC, ONPARENT for `dev:n`, address block with GATEWAY, USERCTL |
| Aliases.Alias | spec/defines/network_alias_spec.rb:7-31 | bad state then bad IPv4 refused with their messages |
| Aliases.RangeLines | spec/defines/network_alias_range_spec.rb:50-144 | both ends, CLONENUM_START, NO_ALIASROUTING (`no` unless given), NETMASK, BROADCAST, ARPCHECK, ONPARENT from the state, NM_CONTROLLED |
| Aliases.Range | spec/defines/network_alias_range_spec.rb:7-47 | bad state, bad first and bad last address refused in that order; `absent` removes the file, any other state writes it |
| Bonds.BondStaticLines | spec/defines/network_bond_static_spec.rb:47-180 | BOOTPROTO=none, address block, MTU, ETHTOOL_OPTS, BONDING_OPTS defaulting to `miimon=100`, resolver lines, IPv6 block |
| Bonds.BondStatic | spec/defines/network_bond_static_spec.rb:7-45 | bad state, bad IPv4 and bad IPv6 refused in that order with their messages |
| Bonds.BondDynamicLines | spec/defines/network_bond_dynamic_spec.rb:18-130 | BOOTPROTO=dhcp, default bonding options, no address, no PEERDNS |
| Bonds.BondDynamic | spec/defines/network_bond_dynamic_spec.rb:7-16 | refused exactly for a bad state, an alias-style title included |
| Bonds.BondBridgeLines | spec/defines/network_bond_bridge_spec.rb:19-132 | BOOTPROTO=none, default bonding options, PEERDNS=no, BRIDGE names the bridge |
| Bonds.BondBridge | spec/defines/network_bond_bridge_spec.rb:7-17 | refused exactly for a bad state |
| Bonds.SlaveLines | spec/defines/network_bond_slave_spec.rb:19-85 | DEVICE, HWADDR, MASTER, SLAVE=yes, TYPE=Ethernet, ETHTOOL_OPTS, NM_CONTROLLED |
| Bonds.Slave | spec/defines/network_bond_slave_spec.rb:7-17 | refused exactly for an invalid MAC parameter; a valid one overrides the fact |
| Bonds.BondAliasLines | spec/defines/network_bond_alias_spec.rb:7-76 | ONPARENT for the alias title, address block, PEERDNS=no |
| Bonds.BondAlias | spec/defines/network_alias_spec.rb:7-31 | bad state then bad IPv4 refused with the messages of `network::alias` (carried over, see Left out) |
| Bonds.AliasExec | spec/defines/network_bond_alias_spec.rb:34-80 | up gives refresh-only `ifup-<dev>` running `/sbin/ifdown <dev>; /sbin/ifup <dev>`; down gives `ifdown-<dev>` running `/sbin/ifdown <dev>` |
| Bridges.BridgeLines | spec/defines/network_bridge_spec.rb:30-95 | TYPE=Bridge, BOOTPROTO=none, PEERDNS=no, DELAY defaulting to 30, STP defaulting to no, BRIDGING_OPTS |
| Bridges.Bridge | spec/defines/network_bridge_spec.rb:7-28 | bad state then non-boolean STP refused with their messages |
| Bridges.BridgeStaticLines | spec/defines/network_bridge_static_spec.rb:75-164 | BOOTPROTO=static, address, IPv6 and resolver blocks, DELAY/STP defaults, BRIDGING_OPTS |
| Bridges.BridgeStatic | spec/defines/network_bridge_static_spec.rb:7-73 | bad state, IPv4, IPv6, STP and IPV6INIT refused in that order with their messages |
| Bridges.BridgeDynamicLines | spec/defines/network_bridge_dynamic_spec.rb:30-146 | BOOTPROTO=dhcp when no protocol is given, the given one (`bootp`) otherwise, TYPE=Bridge, PEERDNS=no, DELAY/STP defaults |
| Bridges.BridgeDynamic | spec/defines/network_bridge_dynamic_spec.rb:7-28 | typed refusals: `expects a match for Enum['down', 'up']` and `expects a Boolean` |
| Routing.RouteLines | spec/defines/network_route_spec.rb:7-30 | three lines per address; `ADDRESSj`, `NETMASKj`, `GATEWAYj` hold position `j` of their lists from 0; no index past the list and no other key |
| Routing.RuleRoundTrip | spec/defines/network_rule_spec.rb:33-39 | a rule whose fields hold no spaces renders to a line (`iif X `, `from X `, `table N `, `reject `, each with its trailing space) that parses back to the rule |
| Routing.RuleCanonical | spec/defines/network_rule_spec.rb:33-39 | a line that parses as a rule is exactly that rule's line |
| Routing.RuleLines | spec/defines/network_rule_spec.rb:7-41 | one line per rule, in list order |
| Routing.RulesRoundTrip | spec/defines/network_rule_spec.rb:43-77 | the lines of a list of space-free rules read back to the same list |
| Platform.ReleaseMajorOf | spec/classes/network_service_spec.rb:8-11 | the major of `M` and of `M.minor` is `M` |
| Platform.NetworkService | spec/classes/network_service_spec.rb:7-31 | before release 8 (or with no release) the `network` service running, enabled, with restart and status; from 8 outside Fedora the refresh-only `restart_network` exec as root:root |
| Platform.RestartTarget | spec/classes/network_service_spec.rb:20-30 | the notify target is `Exec[restart_network]` on NetworkManager releases and `Service[network]` otherwise |
| Platform.ServiceByRelease | spec/classes/network_service_spec.rb:7-31 | the mechanism is chosen by the release major: below 8 (and on Fedora, and without a release) the service, from 8 the exec |
| Platform.ModprobeNotNetworkManager | spec/defines/network_bond_static_spec.rb:83-125 | outside Fedora the modprobe alias is registered only on releases of major 5 or less, and no system that needs the alias hands the restart to NetworkManager |
| Platform.BondingAlias | spec/defines/network_bond_static_spec.rb:83-125 | the `modprobe.conf_<dev>` augeas change exactly on the listed OS/release pairs, nothing otherwise |
| Platform.ModprobeAugeasEffect | spec/defines/network_bond_static_spec.rb:96-100 | the record's `onlyif` guard names the device and its `changes` append `alias <dev> bonding`, so applying it to any alias list is the guarded append |
| Platform.BondingAliasCounts | spec/defines/network_bond_static_spec.rb:96-100 | the guarded append leaves exactly one alias for the device, adds it when missing, keeps the old list as a prefix and touches no other name |
| Platform.BondingAliasIdempotent | spec/defines/network_bond_static_spec.rb:96-100 | registering a device twice equals registering it once |
| Platform.BondingAliasesRun | spec/defines/network_bond_dynamic_spec.rb:49-91 | registering several devices keeps the list free of duplicate names, registers each device and keeps every earlier alias |
| Platform.ModprobeConf.Register | spec/defines/network_bond_static_spec.rb:96-100 | the in-place guarded append: reports whether it added, and the new list is the guarded append of the old |
| Platform.ModprobeConf.RegisterAll | spec/defines/network_bond_bridge_spec.rb:53-95 | registers each device in turn; the new list is the guarded append of them all |
| Devices.NotifyOf | spec/defines/network_if_spec.rb:98-132 | restart off gives no notify; otherwise the restart target, a bond alias's own exec, or nothing for routes and rules |
| Devices.Emit | spec/defines/network_alias_range_spec.rb:146-161 | every emitted file is conventional, named as planned, carries the notify, and is absent exactly when its body is gone |
| Devices.Assemble | spec/defines/network_bridge_dynamic_spec.rb:30-69 | the catalog holds the device's files with their notify, the restart mechanism of the release, the device's own execs, augeas changes and packages |
| Devices.Compile | spec/defines/network_bridge_dynamic_spec.rb:30-106 | a compile fails exactly when the device's validation fails, with its message; otherwise it is the assembled catalog |
| Devices.QuietWithoutRestart | spec/defines/network_alias_range_spec.rb:82-112 | `restart => false` succeeds exactly when `restart => true` does, gives the same catalog with every notify removed, and notifies nothing |
| Devices.FilesConventional | spec/defines/network_route_spec.rb:15-21 | every file of every compiled catalog is mode 0644, root:root, under the scripts directory |
| Devices.NotifyTargets | spec/defines/network_if_alias_spec.rb:29-36 | with restart on, every file of a define other than a bond alias, a route or a rule notifies the restart mechanism; a bond alias's file notifies `Exec[ifup-<dev>]` or `Exec[ifdown-<dev>]`; route and rule files notify nothing |
| Devices.OtherResources | spec/defines/network_bridge_dynamic_spec.rb:68-105 | the services are the release's; the execs add a bond alias's own; augeas only for bond masters; `bridge-utils` only for a dynamic bridge, with or without restart |
| Devices.FileNamesOf | spec/defines/network_alias_range_spec.rb:60-67 | the compiled file names are exactly the device's names: `ifcfg-<title>`, `ifcfg-<title>-range<n>`, `route-<title>`, `rule-<title>` and `rule6-<title>` |
| Scenarios.RejectedStates | spec/defines/network_bridge_dynamic_spec.rb:7-16 | `blah` is refused as a state by all three ensure checks |
| Scenarios.RejectedBoolean | spec/defines/network_bridge_spec.rb:18-28 | `notABool` is refused with `"notABool" is not a boolean.` |
| Scenarios.NotAnAddress | spec/defines/network_alias_spec.rb:20-31 | `notAnIP` is not an IPv4 address |
| Scenarios.NotAnIPv6Address | spec/defines/network_bond_static_spec.rb:33-45 | `notAnIP` is not an IPv6 address |
| Scenarios.LinkLocalAddress | spec/defines/network_if_static_spec.rb:20-32 | `fe80::1` is an IPv6 address |
| Scenarios.UnspecifiedAddress | spec/defines/network_if_static_spec.rb:20-32 | `::` is an IPv6 address |
| Scenarios.TwoCompressions | spec/defines/network_if_static_spec.rb:20-32 | `1::2::3` is not an IPv6 address |
| Scenarios.NotAMac | spec/defines/network_bond_slave_spec.rb:7-17 | `123456` is not a MAC address |
| Scenarios.AnAddress | spec/defines/network_bond_static_spec.rb:47-81 | `1.2.3.5` is an IPv4 address |
| Scenarios.QuotedLine | spec/defines/network_bond_static_spec.rb:47-81 | the default bonding options render as `BONDING_OPTS="miimon=100"` |
| Scenarios.BareLine | spec/defines/network_if_static_spec.rb:136 | `IPV6ADDR_SECONDARIES` renders its spaced value without quotes |
| Scenarios.ServiceOnReleases | spec/classes/network_service_spec.rb:7-31 | release 7.0 gives the `network` service, release 8.0 the `restart_network` exec with its exact command |
| Scenarios.ModprobeOnListedReleases | spec/defines/network_bond_static_spec.rb:83-125 | CentOS 5.9 and Fedora 11 register the `bond0` alias; RedHat 6.0 and missing facts do not |
| Scenarios.FedoraKeepsService | spec/defines/network_bond_static_spec.rb:106-124 | Fedora 11 keeps the `network` service and renders `NM_CONTROLLED=no` |
| Scenarios.BondAliasUpExec | spec/defines/network_bond_alias_spec.rb:34-37 | `bond2:1` up gives `ifup-bond2:1` running `/sbin/ifdown bond2:1; /sbin/ifup bond2:1` |
| Scenarios.BondAliasDownExec | spec/defines/network_bond_alias_spec.rb:77-80 | `bond3:2` down gives `ifdown-bond3:2` running `/sbin/ifdown bond3:2` |
| Scenarios.VlanTakesParentMac | spec/defines/network_if_dynamic_spec.rb:96-121 | `eth45.302` takes the MAC of the `macaddress_eth45` fact |
| Scenarios.RouteFile | spec/defines/network_route_spec.rb:7-30 | the two-route example gives ADDRESS0/1, NETMASK0/1, GATEWAY0/1 as listed and no index 2 |
| Scenarios.RuleLineTable | spec/defines/network_rule_spec.rb:11-35 | an `iif`/`table` rule renders as `iif eth0 table 1 ` |
| Scenarios.RuleLineReject | spec/defines/network_rule_spec.rb:19-37 | a `from`/`reject` rule renders as `from 192.168.252.0/24 reject ` |
| Scenarios.RuleFiles | spec/defines/network_rule_spec.rb:26-67 | IPv4 rules go to `rule-eth0`, IPv6 rules to `rule6-eth0` |

## Left out

- The Puppet catalog machinery and applying it: files are not written,
  services not restarted, packages not installed. The model stops at the
  records a catalog would hold.
- The manifests and ERB templates are not part of this model. The key order
  of each template is taken from the order of the suite's expected lines;
  the suite checks membership only, so `TemplateOrder` states an order the
  suite does not check.
- Template.RenderGives: a key the suite lists no line for is not evidence
  that the file lacks it. The model gives such keys no line (for example
  no HWADDR for `network::if::bridge`, `::if::alias`, `network::alias` and
  the bond alias, no USERCTL for bridges, no HOTPLUG for bridges).
- Validators.ValidateBool: the string spellings `true`/`false` (any case)
  that the module's prose admits are refused; the suite only shows the
  refusal of `notABool`.
- Validators.ValidateIPv6: the mixed form with an embedded IPv4 tail
  (`::ffff:1.2.3.4`) is not accepted. The suite shows only the
  uncompressed form and the refusal of `notAnIP`; the rules for `::` (at
  most one, standing for at least one group) follow section 2.2 of
  RFC 4291.
- Validators.ValidateIPv4: octets with a leading zero (`01.2.3.4`) are
  refused, which `IPv4Canonical` states; no expectation shows this either
  way.
- Validators.ValidateMac: each octet must be exactly two hex digits
  (`a:b:c:d:e:f` is refused); the suite shows only the refusal of `123456`.
- Platform.RestartTarget: from release 8 on (outside Fedora), files notify
  `Exec[restart_network]`. The suite shows only that this exec exists on
  release 8 (spec/classes/network_service_spec.rb:20-30); no expectation
  shows a file notifying it, so this target is the model's choice.
- Platform.Facts: the structured `os` fact (`os => {family, name,
  release => {major}}`, as set in
  spec/defines/network_bridge_dynamic_spec.rb:36-43 and
  spec/defines/network_if_none_spec.rb:13-17) and `osfamily` are not
  modelled; the model reads only `operatingsystem`,
  `operatingsystemrelease` and the MAC facts. Those examples set no flat
  release, so the model treats them as releases before 8, which gives the
  outcomes they expect.
- Interfaces.IfNone, Interfaces.IfPromisc, Interfaces.IfStatic,
  Interfaces.IfAlias, Bonds.BondAlias: refuse a state other than `up` or
  `down` with the message of `network::if` (spec/defines/network_if_spec.rb:7-18).
  Bonds.BondAlias also refuses a bad IPv4 address, as `network::alias`
  does (spec/defines/network_alias_spec.rb:7-31). These refusals are
  carried over from the sibling defines; no example of these five shows
  them.
- The order in which the validations of one define run is taken from the
  suite where it shows it and chosen otherwise (state first, then the
  addresses, then booleans).
- Artifacts.NmControlled: `NM_CONTROLLED=yes` on NetworkManager releases
  follows the restart mechanism. Every file content the suite lists shows
  `NM_CONTROLLED=no`; the only release of 8 or later in the suite is the
  `8.0` example of the `network` class
  (spec/classes/network_service_spec.rb:20-30), which renders no file, and
  the Fedora 9 and 11 bond examples assert no file content.
- Platform.UsesNetworkManager: the release-8 threshold applies to the Red
  Hat family only; Fedora keeps the classic service and
  `NM_CONTROLLED=no` at every release. The suite compiles bond files on
  Fedora 9 and 11 (spec/defines/network_bond_static_spec.rb:106-124) and
  treats them as old `/etc/modprobe.conf` systems, but asserts only the
  augeas change there, so the restart mechanism on Fedora is the model's
  choice (`ModprobeNotNetworkManager` states that it agrees with the
  modprobe policy).
- Routing.RouteLines: a netmask or gateway list shorter than the address
  list gives `NETMASKj=` or `GATEWAYj=` with an empty value for the missing
  positions (`At`); the suite shows only lists of equal length.
- Interfaces.If: the file carries `HWADDR` from the `macaddress_<dev>` fact,
  as every Ethernet define does; the `network::if` examples give that fact
  but list no HWADDR line, so neither its presence nor its absence is shown.
- Devices.NotifyTargets: the suite shows no notify edge for route and rule
  files and none for a bond alias's file; the model gives routes and rules
  none and the bond alias file its own exec. A rule's `before` ordering on
  its interface is not modelled.
- Rules: only the `iif`, `from`, `table` and `reject` keywords; structured
  routes (`route-<dev>` from records, `route6-<dev>`) and `force` are not
  modelled, as the suite does not exercise them.
- `bridge-utils` is required only by `network::bridge::dynamic`, the only
  define whose expectations name it.
- Bonds.Slave: the slave's MAC falls back to the fact when no parameter is
  given; the suite only shows the parameter.
- spec/classes/network_init_spec.rb and the `network::global` files are
  not part of this model: they assert no behaviour beyond inclusion.
