/** The ifcfg file format shared by every device kind: a file is a list of
    `KEY=VALUE` lines; a fixed set of keys always has its value in double
    quotes. What a file says about a key is the list of values its lines
    give that key. */
module Ifcfg {
  import opened Wrappers
  import opened Text

  /** The keys the network-scripts files use. The numbered ones carry
      their number: `IPADDRn(2)` is `IPADDR2`. */
  datatype Key =
    | DEVICE | BOOTPROTO | HWADDR | ONBOOT | HOTPLUG | ONPARENT | TYPE
    | MASTER | SLAVE
    | MTU | ETHTOOL_OPTS | USERCTL | LINKDELAY | DHCP_HOSTNAME
    | IPADDR | NETMASK | GATEWAY
    | PEERDNS | DNS1 | DNS2 | DOMAIN
    | IPV6INIT | IPV6_AUTOCONF | IPV6ADDR | IPV6_DEFAULTGW | IPV6_PEERDNS | IPV6ADDR_SECONDARIES
    | SCOPE | ZONE | PROMISC | BRIDGE | BONDING_OPTS
    | DELAY | STP | BRIDGING_OPTS
    | IPADDR_START | IPADDR_END | CLONENUM_START | NO_ALIASROUTING | BROADCAST | ARPCHECK
    | NM_CONTROLLED
    | IPADDRn(n: nat) | NETMASKn(n: nat) | PREFIXn(n: nat) | ADDRESSn(n: nat) | GATEWAYn(n: nat)

  function Name(k: Key): (r: string) {
    match k
    case DEVICE => "DEVICE"
    case BOOTPROTO => "BOOTPROTO"
    case HWADDR => "HWADDR"
    case ONBOOT => "ONBOOT"
    case HOTPLUG => "HOTPLUG"
    case ONPARENT => "ONPARENT"
    case TYPE => "TYPE"
    case MASTER => "MASTER"
    case SLAVE => "SLAVE"
    case MTU => "MTU"
    case ETHTOOL_OPTS => "ETHTOOL_OPTS"
    case USERCTL => "USERCTL"
    case LINKDELAY => "LINKDELAY"
    case DHCP_HOSTNAME => "DHCP_HOSTNAME"
    case IPADDR => "IPADDR"
    case NETMASK => "NETMASK"
    case GATEWAY => "GATEWAY"
    case PEERDNS => "PEERDNS"
    case DNS1 => "DNS1"
    case DNS2 => "DNS2"
    case DOMAIN => "DOMAIN"
    case IPV6INIT => "IPV6INIT"
    case IPV6_AUTOCONF => "IPV6_AUTOCONF"
    case IPV6ADDR => "IPV6ADDR"
    case IPV6_DEFAULTGW => "IPV6_DEFAULTGW"
    case IPV6_PEERDNS => "IPV6_PEERDNS"
    case IPV6ADDR_SECONDARIES => "IPV6ADDR_SECONDARIES"
    case SCOPE => "SCOPE"
    case ZONE => "ZONE"
    case PROMISC => "PROMISC"
    case BRIDGE => "BRIDGE"
    case BONDING_OPTS => "BONDING_OPTS"
    case DELAY => "DELAY"
    case STP => "STP"
    case BRIDGING_OPTS => "BRIDGING_OPTS"
    case IPADDR_START => "IPADDR_START"
    case IPADDR_END => "IPADDR_END"
    case CLONENUM_START => "CLONENUM_START"
    case NO_ALIASROUTING => "NO_ALIASROUTING"
    case BROADCAST => "BROADCAST"
    case ARPCHECK => "ARPCHECK"
    case NM_CONTROLLED => "NM_CONTROLLED"
    case IPADDRn(n) => "IPADDR" + NatToString(n)
    case NETMASKn(n) => "NETMASK" + NatToString(n)
    case PREFIXn(n) => "PREFIX" + NatToString(n)
    case ADDRESSn(n) => "ADDRESS" + NatToString(n)
    case GATEWAYn(n) => "GATEWAY" + NatToString(n)
  }

  /** No key name holds `=`, so every line splits back at its first `=`. */
  lemma {:induction false} NameClean(k: Key)
    ensures '=' !in Name(k)
  {
    match k
    case IPADDRn(n) => NumberedClean(k, "IPADDR", n);
    case NETMASKn(n) => NumberedClean(k, "NETMASK", n);
    case PREFIXn(n) => NumberedClean(k, "PREFIX", n);
    case ADDRESSn(n) => NumberedClean(k, "ADDRESS", n);
    case GATEWAYn(n) => NumberedClean(k, "GATEWAY", n);
    case DEVICE | BOOTPROTO | HWADDR | ONBOOT | HOTPLUG | ONPARENT => FixedNamesClean1(k);
    case TYPE | MASTER | SLAVE | MTU | ETHTOOL_OPTS | USERCTL => FixedNamesClean2(k);
    case LINKDELAY | DHCP_HOSTNAME | IPADDR | NETMASK | GATEWAY => FixedNamesClean3(k);
    case PEERDNS | DNS1 | DNS2 | DOMAIN | IPV6INIT => FixedNamesClean4(k);
    case IPV6_AUTOCONF | IPV6ADDR | IPV6_DEFAULTGW | IPV6_PEERDNS => FixedNamesClean5(k);
    case IPV6ADDR_SECONDARIES | SCOPE | ZONE | PROMISC => FixedNamesClean6(k);
    case BRIDGE | BONDING_OPTS | DELAY => FixedNamesClean7(k);
    case STP | BRIDGING_OPTS | IPADDR_START => FixedNamesClean8(k);
    case IPADDR_END | CLONENUM_START | NO_ALIASROUTING => FixedNamesClean9(k);
    case BROADCAST | ARPCHECK | NM_CONTROLLED => FixedNamesClean10(k);
  }

  // The fixed names, a few at a time.

  lemma FixedNamesClean1(k: Key)
    requires k == DEVICE || k == BOOTPROTO || k == HWADDR || k == ONBOOT || k == HOTPLUG || k == ONPARENT
    ensures '=' !in Name(k)
  {
  }

  lemma FixedNamesClean2(k: Key)
    requires k == TYPE || k == MASTER || k == SLAVE || k == MTU || k == ETHTOOL_OPTS || k == USERCTL
    ensures '=' !in Name(k)
  {
  }

  lemma FixedNamesClean3(k: Key)
    requires k == LINKDELAY || k == DHCP_HOSTNAME || k == IPADDR || k == NETMASK || k == GATEWAY
    ensures '=' !in Name(k)
  {
  }

  lemma FixedNamesClean4(k: Key)
    requires k == PEERDNS || k == DNS1 || k == DNS2 || k == DOMAIN || k == IPV6INIT
    ensures '=' !in Name(k)
  {
  }

  lemma FixedNamesClean5(k: Key)
    requires k == IPV6_AUTOCONF || k == IPV6ADDR || k == IPV6_DEFAULTGW || k == IPV6_PEERDNS
    ensures '=' !in Name(k)
  {
  }

  lemma FixedNamesClean6(k: Key)
    requires k == IPV6ADDR_SECONDARIES || k == SCOPE || k == ZONE || k == PROMISC
    ensures '=' !in Name(k)
  {
  }

  lemma FixedNamesClean7(k: Key)
    requires k == BRIDGE || k == BONDING_OPTS || k == DELAY
    ensures '=' !in Name(k)
  {
  }

  lemma FixedNamesClean8(k: Key)
    requires k == STP || k == BRIDGING_OPTS || k == IPADDR_START
    ensures '=' !in Name(k)
  {
  }

  lemma FixedNamesClean9(k: Key)
    requires k == IPADDR_END || k == CLONENUM_START || k == NO_ALIASROUTING
    ensures '=' !in Name(k)
  {
  }

  lemma FixedNamesClean10(k: Key)
    requires k == BROADCAST || k == ARPCHECK || k == NM_CONTROLLED
    ensures '=' !in Name(k)
  {
  }

  lemma NumberedClean(k: Key, p: string, n: nat)
    requires Name(k) == p + NatToString(n) && '=' !in p
    ensures '=' !in Name(k)
  {
    DigitsAfter(p, n);
  }

  lemma DigitsAfter(p: string, n: nat)
    requires '=' !in p
    ensures '=' !in p + NatToString(n)
  {
    var t := NatToString(n);
    assert '=' !in t by {
      assert forall i :: 0 <= i < |t| ==> IsDigit(t[i]);
    }
  }

  /** One line of a file as text: a name and its (unquoted) value. */
  datatype Setting = Setting(name: string, value: string)

  datatype Directive = Directive(key: Key, value: string)

  function Named(d: Directive): (r: Setting) {
    Setting(Name(d.key), d.value)
  }

  /** Names whose value is always written in double quotes. Every other
      name, IPV6ADDR_SECONDARIES included, is written bare even when its
      value holds a space. */
  const QuotedNames: set<string> :=
    {"ETHTOOL_OPTS", "BONDING_OPTS", "BRIDGING_OPTS", "DOMAIN", "DHCP_HOSTNAME", "SCOPE"}

  function Quote(v: string): (r: string) {
    "\"" + v + "\""
  }

  function SettingLine(s: Setting): (r: string) {
    s.name + "=" + (if s.name in QuotedNames then Quote(s.value) else s.value)
  }

  function Line(d: Directive): (r: string) {
    SettingLine(Named(d))
  }

  /** The keys whose values are quoted. */
  predicate QuotedKey(k: Key) {
    k == ETHTOOL_OPTS || k == BONDING_OPTS || k == BRIDGING_OPTS || k == DOMAIN || k == DHCP_HOSTNAME || k == SCOPE
  }

  /** The quoted keys are exactly these six. */
  lemma {:induction false} QuotedKeys(k: Key)
    ensures Name(k) in QuotedNames <==> QuotedKey(k)
  {
    match k
    case IPADDRn(n) => NumberedUnquoted("IPADDR", n);
    case NETMASKn(n) => NumberedUnquoted("NETMASK", n);
    case PREFIXn(n) => NumberedUnquoted("PREFIX", n);
    case ADDRESSn(n) => NumberedUnquoted("ADDRESS", n);
    case GATEWAYn(n) => NumberedUnquoted("GATEWAY", n);
    case DEVICE | BOOTPROTO | HWADDR | ONBOOT | HOTPLUG | ONPARENT => QuotedFixed1(k);
    case TYPE | MASTER | SLAVE | MTU | ETHTOOL_OPTS | USERCTL => QuotedFixed2(k);
    case LINKDELAY | DHCP_HOSTNAME | IPADDR | NETMASK | GATEWAY => QuotedFixed3(k);
    case PEERDNS | DNS1 | DNS2 | DOMAIN | IPV6INIT => QuotedFixed4(k);
    case IPV6_AUTOCONF | IPV6ADDR | IPV6_DEFAULTGW | IPV6_PEERDNS => QuotedFixed5(k);
    case IPV6ADDR_SECONDARIES | SCOPE | ZONE | PROMISC => QuotedFixed6(k);
    case BRIDGE | BONDING_OPTS | DELAY => QuotedFixed7(k);
    case STP | BRIDGING_OPTS | IPADDR_START => QuotedFixed8(k);
    case IPADDR_END | CLONENUM_START | NO_ALIASROUTING => QuotedFixed9(k);
    case BROADCAST | ARPCHECK | NM_CONTROLLED => QuotedFixed10(k);
  }

  // The fixed names, a few at a time.

  lemma QuotedFixed1(k: Key)
    requires k == DEVICE || k == BOOTPROTO || k == HWADDR || k == ONBOOT || k == HOTPLUG || k == ONPARENT
    ensures Name(k) in QuotedNames <==> QuotedKey(k)
  {
  }

  lemma QuotedFixed2(k: Key)
    requires k == TYPE || k == MASTER || k == SLAVE || k == MTU || k == ETHTOOL_OPTS || k == USERCTL
    ensures Name(k) in QuotedNames <==> QuotedKey(k)
  {
  }

  lemma QuotedFixed3(k: Key)
    requires k == LINKDELAY || k == DHCP_HOSTNAME || k == IPADDR || k == NETMASK || k == GATEWAY
    ensures Name(k) in QuotedNames <==> QuotedKey(k)
  {
  }

  lemma QuotedFixed4(k: Key)
    requires k == PEERDNS || k == DNS1 || k == DNS2 || k == DOMAIN || k == IPV6INIT
    ensures Name(k) in QuotedNames <==> QuotedKey(k)
  {
  }

  lemma QuotedFixed5(k: Key)
    requires k == IPV6_AUTOCONF || k == IPV6ADDR || k == IPV6_DEFAULTGW || k == IPV6_PEERDNS
    ensures Name(k) in QuotedNames <==> QuotedKey(k)
  {
  }

  lemma QuotedFixed6(k: Key)
    requires k == IPV6ADDR_SECONDARIES || k == SCOPE || k == ZONE || k == PROMISC
    ensures Name(k) in QuotedNames <==> QuotedKey(k)
  {
  }

  lemma QuotedFixed7(k: Key)
    requires k == BRIDGE || k == BONDING_OPTS || k == DELAY
    ensures Name(k) in QuotedNames <==> QuotedKey(k)
  {
  }

  lemma QuotedFixed8(k: Key)
    requires k == STP || k == BRIDGING_OPTS || k == IPADDR_START
    ensures Name(k) in QuotedNames <==> QuotedKey(k)
  {
  }

  lemma QuotedFixed9(k: Key)
    requires k == IPADDR_END || k == CLONENUM_START || k == NO_ALIASROUTING
    ensures Name(k) in QuotedNames <==> QuotedKey(k)
  {
  }

  lemma QuotedFixed10(k: Key)
    requires k == BROADCAST || k == ARPCHECK || k == NM_CONTROLLED
    ensures Name(k) in QuotedNames <==> QuotedKey(k)
  {
  }

  /** A quoted name ends in a letter, a numbered one in a digit. */
  lemma NumberedUnquoted(p: string, n: nat)
    ensures p + NatToString(n) !in QuotedNames
  {
    var s := p + NatToString(n);
    var t := NatToString(n);
    assert s[|s| - 1] == t[|t| - 1];
    assert forall q :: q in QuotedNames ==> !IsDigit(q[|q| - 1]);
  }

  /** Reads one line back: the name is everything before the first `=`; a
      quoted name must carry its quotes, which are removed. */
  function ParseLine(l: string): (r: Option<Setting>) {
    var j := IndexOf(l, '=');
    if j == |l| then None
    else
      var name := l[..j];
      var raw := l[j + 1..];
      if name !in QuotedNames then Some(Setting(name, raw))
      else if |raw| >= 2 && raw[0] == '"' && raw[|raw| - 1] == '"' then Some(Setting(name, raw[1..|raw| - 1]))
      else None
  }

  /** Every setting whose name holds no `=` reads back as itself. */
  lemma SettingRoundTrip(s: Setting)
    requires '=' !in s.name
    ensures ParseLine(SettingLine(s)) == Some(s)
  {
    var l := SettingLine(s);
    var rest := if s.name in QuotedNames then Quote(s.value) else s.value;
    assert l == s.name + "=" + rest;
    assert l[..|s.name|] == s.name;
    assert l[|s.name|] == '=';
    assert IndexOf(l, '=') == |s.name|;
    assert l[|s.name| + 1..] == rest;
  }

  lemma LineRoundTrip(d: Directive)
    ensures ParseLine(Line(d)) == Some(Named(d))
  {
    NameClean(d.key);
    SettingRoundTrip(Named(d));
  }

  /** Every line that reads back is the rendering of what it reads as, so
      the rendering is the only spelling of a setting. */
  lemma ParseLineCanonical(l: string)
    requires ParseLine(l).Some?
    ensures '=' !in ParseLine(l).value.name
    ensures SettingLine(ParseLine(l).value) == l
  {
    var j := IndexOf(l, '=');
    var s := ParseLine(l).value;
    assert s.name == l[..j];
    var raw := l[j + 1..];
    if s.name in QuotedNames {
      assert Quote(raw[1..|raw| - 1]) == raw;
    }
    assert l == l[..j] + "=" + raw;
  }

  /** The file content: one line per directive, in order. */
  function Content(ds: seq<Directive>): (ls: seq<string>)
    ensures |ls| == |ds|
    ensures forall i :: 0 <= i < |ds| ==> ls[i] == Line(ds[i])
  {
    if ds == [] then [] else [Line(ds[0])] + Content(ds[1..])
  }

  function Settings(ds: seq<Directive>): (r: seq<Setting>)
    ensures |r| == |ds|
    ensures forall i :: 0 <= i < |ds| ==> r[i] == Named(ds[i])
  {
    if ds == [] then [] else [Named(ds[0])] + Settings(ds[1..])
  }

  function ReadBack(ls: seq<string>): (r: Option<seq<Setting>>) {
    if ls == [] then Some([])
    else
      match ParseLine(ls[0])
      case None => None
      case Some(s) =>
        match ReadBack(ls[1..])
        case None => None
        case Some(rest) => Some([s] + rest)
  }

  /** Reading a rendered file gives back, line by line, the name and value
      of each directive it was rendered from. */
  lemma {:induction false} ContentRoundTrip(ds: seq<Directive>)
    ensures ReadBack(Content(ds)) == Some(Settings(ds))
  {
    if ds != [] {
      LineRoundTrip(ds[0]);
      ContentRoundTrip(ds[1..]);
      assert Content(ds)[1..] == Content(ds[1..]);
    }
  }

  /** A directive of the file is a line of its content. */
  lemma LineInContent(ds: seq<Directive>, d: Directive)
    requires d in ds
    ensures Line(d) in Content(ds)
  {
    var i :| 0 <= i < |ds| && ds[i] == d;
    assert Content(ds)[i] == Line(d);
  }

  // ------------------------------------------------ presence of a key

  /** The values the lines of `ds` give the key `k`, in file order. */
  function Values(ds: seq<Directive>, k: Key): (r: seq<string>) {
    if ds == [] then [] else (if ds[0].key == k then [ds[0].value] else []) + Values(ds[1..], k)
  }

  lemma {:induction false} ValuesAppend(a: seq<Directive>, b: seq<Directive>, k: Key)
    ensures Values(a + b, k) == Values(a, k) + Values(b, k)
  {
    if a == [] {
      assert a + b == b;
    } else {
      assert (a + b)[1..] == a[1..] + b;
      ValuesAppend(a[1..], b, k);
    }
  }

  lemma ValuesOne(d: Directive)
    ensures forall k :: Values([d], k) == if d.key == k then [d.value] else []
  {
    forall k
      ensures Values([d], k) == if d.key == k then [d.value] else []
    {
      assert [d][1..] == [];
    }
  }

  lemma ValuesAppendAll(a: seq<Directive>, b: seq<Directive>)
    ensures forall k :: Values(a + b, k) == Values(a, k) + Values(b, k)
  {
    forall k
      ensures Values(a + b, k) == Values(a, k) + Values(b, k)
    {
      ValuesAppend(a, b, k);
    }
  }

  /** A value is among the values of `k` exactly when a line sets `k` to
      it. */
  lemma {:induction false} ValuesMember(ds: seq<Directive>, k: Key, v: string)
    ensures v in Values(ds, k) <==> Directive(k, v) in ds
  {
    if ds != [] {
      ValuesMember(ds[1..], k, v);
      assert ds == [ds[0]] + ds[1..];
    }
  }

  /** A value the file gives `k` is written as a line of its content. */
  lemma GivenInContent(ds: seq<Directive>, k: Key, v: string)
    requires Given(ds, k, Some(v))
    ensures Line(Directive(k, v)) in Content(ds)
  {
    ValuesMember(ds, k, v);
    LineInContent(ds, Directive(k, v));
  }

  /** Exactly one line of the file sets `k`, and it sets it to `v`. */
  predicate Assigns(ds: seq<Directive>, k: Key, v: string) {
    Values(ds, k) == [v]
  }

  /** No line of the file sets `k`. */
  predicate Unset(ds: seq<Directive>, k: Key) {
    Values(ds, k) == []
  }

  function Listed(o: Option<string>): (r: seq<string>) {
    match o
    case None => []
    case Some(v) => [v]
  }

  /** An optional value is rendered exactly when it is given: one line
      when there is a value, none otherwise. */
  predicate Given(ds: seq<Directive>, k: Key, o: Option<string>) {
    Values(ds, k) == Listed(o)
  }

  /** An assigned key is one line of the rendered file, so a file that
      assigns `k` reads back with the setting of `k`. */
  lemma AssignsLine(ds: seq<Directive>, k: Key, v: string)
    requires Assigns(ds, k, v)
    ensures Directive(k, v) in ds && Line(Directive(k, v)) in Content(ds)
    ensures forall d :: d in ds && d.key == k ==> d.value == v
  {
    ValuesMember(ds, k, v);
    LineInContent(ds, Directive(k, v));
    forall d | d in ds && d.key == k
      ensures d.value == v
    {
      ValuesMember(ds, k, d.value);
    }
  }

  /** An unset key has no line in the file. */
  lemma UnsetNoLine(ds: seq<Directive>, k: Key)
    requires Unset(ds, k)
    ensures forall d :: d in ds ==> d.key != k
  {
    forall d | d in ds
      ensures d.key != k
    {
      ValuesMember(ds, k, d.value);
    }
  }

  /** Appending lines that never set `k` keeps what the file says about it. */
  lemma GivenAppend(a: seq<Directive>, b: seq<Directive>, k: Key, o: Option<string>)
    requires Given(a, k, o) && Unset(b, k)
    ensures Given(a + b, k, o)
  {
    ValuesAppend(a, b, k);
  }

  lemma GivenPrepend(a: seq<Directive>, b: seq<Directive>, k: Key, o: Option<string>)
    requires Unset(a, k) && Given(b, k, o)
    ensures Given(a + b, k, o)
  {
    ValuesAppend(a, b, k);
  }

  function YesNo(b: bool): (r: string) {
    if b then "yes" else "no"
  }

  function OptYesNo(o: Option<bool>): (r: Option<string>)
    ensures r.Some? <==> o.Some?
    ensures o.Some? ==> r.value == YesNo(o.value)
  {
    match o
    case None => None
    case Some(b) => Some(YesNo(b))
  }

  /** The directive for an optional value: one line, or none. */
  function Opt(k: Key, o: Option<string>): (r: seq<Directive>)
    ensures forall j :: Values(r, j) == if j == k then Listed(o) else []
  {
    match o
    case None => []
    case Some(v) => ValuesOne(Directive(k, v)); [Directive(k, v)]
  }

  // ------------------------------------------------------- field tables

  /** One potential line of a file: a key and the value it is rendered
      with, if there is one. A renderer describes a file as a table of
      fields; a field without a value renders no line. */
  datatype Field = Field(key: Key, value: Option<string>)

  function Lines(fs: seq<Field>): (r: seq<Directive>) {
    if fs == [] then [] else Opt(fs[0].key, fs[0].value) + Lines(fs[1..])
  }

  /** The values the table gives the key `k`, in order. */
  function Gather(fs: seq<Field>, k: Key): (r: seq<string>) {
    if fs == [] then [] else (if fs[0].key == k then Listed(fs[0].value) else []) + Gather(fs[1..], k)
  }

  /** The table renders `k` exactly as `o` says: one line with its value,
      or no line. */
  predicate Gives(fs: seq<Field>, k: Key, o: Option<string>) {
    Gather(fs, k) == Listed(o)
  }

  /** What the table gives a key is what the rendered lines give it. */
  lemma {:induction false} LinesValues(fs: seq<Field>, k: Key)
    ensures Values(Lines(fs), k) == Gather(fs, k)
  {
    if fs != [] {
      ValuesAppend(Opt(fs[0].key, fs[0].value), Lines(fs[1..]), k);
      LinesValues(fs[1..], k);
    }
  }

  lemma {:induction false} LinesAppend(a: seq<Field>, b: seq<Field>)
    ensures Lines(a + b) == Lines(a) + Lines(b)
  {
    if a == [] {
      assert a + b == b;
    } else {
      assert (a + b)[1..] == a[1..] + b;
      LinesAppend(a[1..], b);
    }
  }

  lemma GivesGiven(fs: seq<Field>, k: Key, o: Option<string>)
    requires Gives(fs, k, o)
    ensures Given(Lines(fs), k, o)
  {
    LinesValues(fs, k);
  }

  lemma {:induction false} GatherAppend(a: seq<Field>, b: seq<Field>, k: Key)
    ensures Gather(a + b, k) == Gather(a, k) + Gather(b, k)
  {
    if a == [] {
      assert a + b == b;
    } else {
      assert (a + b)[1..] == a[1..] + b;
      GatherAppend(a[1..], b, k);
    }
  }

  /** A table in which no field has key `k` gives it nothing. */
  lemma {:induction false} GatherNone(fs: seq<Field>, k: Key)
    requires forall j :: 0 <= j < |fs| ==> fs[j].key != k
    ensures Gather(fs, k) == []
  {
    if fs != [] {
      assert forall j :: 0 <= j < |fs[1..]| ==> fs[1..][j] == fs[j + 1];
      GatherNone(fs[1..], k);
    }
  }

  /** A table in which only field i has key `k` gives it that field's
      value. */
  lemma {:induction false} GatherOnly(fs: seq<Field>, i: nat, k: Key)
    requires i < |fs| && fs[i].key == k
    requires forall j :: 0 <= j < |fs| && j != i ==> fs[j].key != k
    ensures Gives(fs, k, fs[i].value)
  {
    assert forall j :: 0 <= j < |fs[1..]| ==> fs[1..][j] == fs[j + 1];
    if i == 0 {
      GatherNone(fs[1..], k);
    } else {
      GatherOnly(fs[1..], i - 1, k);
    }
  }
}
