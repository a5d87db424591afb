/** A compile of one define: the device title, its parameters and the
    facts of the host become the catalog the define contributes, together
    with the restart mechanism of network::service. Files of interfaces,
    bonds, bridges and aliases notify the restart mechanism when `restart`
    holds; a bond alias notifies its own exec; route and rule files notify
    nothing. */
module Devices {
  import opened Wrappers
  import opened Ifcfg
  import opened Resources
  import opened Platform
  import opened Artifacts
  import opened Interfaces
  import opened Aliases
  import opened Bonds
  import opened Bridges
  import opened Routing

  /** One define with its parameters. */
  datatype Device =
    | If(p: IfParams)
    | IfNone(none: NoneParams)
    | IfPromisc(promisc: PromiscParams)
    | IfStatic(ifStatic: StaticParams)
    | IfDynamic(ifDynamic: DynamicParams)
    | IfBridge(ifBridge: IfBridgeParams)
    | IfAlias(ifAlias: IfAliasParams)
    | Alias(alias: AliasParams)
    | AliasRange(range: RangeParams)
    | BondStatic(bondStatic: BondStaticParams)
    | BondDynamic(bondDynamic: BondDynamicParams)
    | BondBridge(bondBridge: BondBridgeParams)
    | BondSlave(slave: SlaveParams)
    | BondAlias(bondAlias: BondAliasParams)
    | Bridge(bridge: BridgeParams)
    | BridgeStatic(bridgeStatic: BridgeStaticParams)
    | BridgeDynamic(bridgeDynamic: BridgeDynamicParams)
    | Route(address: seq<string>, netmask: seq<string>, gateway: seq<string>)
    | Rule(ipv4: Option<seq<Routing.Rule>>, ipv6: Option<seq<Routing.Rule>>)

  /** What a file holds: ifcfg lines, plain lines, or nothing because the
      file is removed. */
  datatype Body = Lines(ds: seq<Directive>) | Text(ls: seq<string>) | Gone

  datatype Planned = Planned(name: string, body: Body)

  /** Whom the files of a define notify. */
  datatype Target = Restart | OwnExec(exec: string) | Silent

  /** The part of a compile that depends on the define alone. */
  datatype Output = Output(files: seq<Planned>, target: Target, execs: seq<Exec>, augeas: seq<Augeas>, packages: seq<string>)

  function IfcfgName(title: string): (r: string) {
    "ifcfg-" + title
  }

  /** Whom the files of a define notify when restart holds: the host's
      restart mechanism, the own exec of a bond alias, and nothing for
      routes and rules. */
  function TargetOf(title: string, d: Device): (t: Target)
    ensures d.BondAlias? ==> t == OwnExec(AliasExec(title, d.bondAlias.ensure == "up").name)
    ensures d.Route? || d.Rule? ==> t == Silent
    ensures !(d.BondAlias? || d.Route? || d.Rule?) ==> t == Restart
  {
    match d
    case BondAlias(p) => OwnExec(AliasExec(title, p.ensure == "up").name)
    case Route(_, _, _) => Silent
    case Rule(_, _) => Silent
    case _ => Restart
  }

  predicate BondMaster(d: Device) {
    d.BondStatic? || d.BondDynamic? || d.BondBridge?
  }

  /** The names of the files of a define: ifcfg-<dev> for interfaces,
      bonds, bridges and aliases, the range file of a range, route-<dev>,
      and a rule file per address family given. */
  function Names(title: string, d: Device): (r: seq<string>) {
    match d
    case AliasRange(p) => [RangeName(title, p.clonenumStart)]
    case Route(_, _, _) => [RouteName(title)]
    case Rule(v4, v6) => (if v4.Some? then [RuleName(title, false)] else []) + (if v6.Some? then [RuleName(title, true)] else [])
    case _ => [IfcfgName(title)]
  }

  /** How many files a define writes: one, or one per address family of
      a rule. */
  function FileCount(d: Device): (r: nat) {
    if d.Rule? then (if d.ipv4.Some? then 1 else 0) + (if d.ipv6.Some? then 1 else 0) else 1
  }

  lemma NamesCount(title: string, d: Device)
    ensures |Names(title, d)| == FileCount(d)
  {
  }

  /** Single-file bodies of ifcfg lines. */
  function One(r: Result<seq<Directive>>): (b: Result<seq<Body>>)
    ensures b.Ok? ==> |b.value| == 1
  {
    var ds :- r;
    Ok([Lines(ds)])
  }

  function RangeBody(o: RangeOutcome): (r: Body) {
    match o
    case Write(ds) => Lines(ds)
    case Remove => Gone
  }

  /** What the files of a define hold, in the order of their names, or the
      first validation error of the define. */
  function Contents(title: string, d: Device, f: Facts): (r: Result<seq<Body>>)
    ensures r.Ok? ==> |r.value| == FileCount(d)
  {
    match d
    case If(p) => One(Interfaces.If(title, p, f))
    case IfNone(p) => One(Interfaces.IfNone(title, p, f))
    case IfPromisc(p) => One(Interfaces.IfPromisc(title, p, f))
    case IfStatic(p) => One(Interfaces.IfStatic(title, p, f))
    case IfDynamic(p) => One(Interfaces.IfDynamic(title, p, f))
    case IfBridge(p) => One(Interfaces.IfBridge(title, p, f))
    case IfAlias(p) => One(Interfaces.IfAlias(title, p, f))
    case Alias(p) => One(Aliases.Alias(title, p, f))
    case AliasRange(p) => var o :- Aliases.Range(p, f); Ok([RangeBody(o)])
    case BondStatic(p) => One(Bonds.BondStatic(title, p, f))
    case BondDynamic(p) => One(Bonds.BondDynamic(title, p, f))
    case BondBridge(p) => One(Bonds.BondBridge(title, p, f))
    case BondSlave(p) => One(Bonds.Slave(title, p, f))
    case BondAlias(p) => One(Bonds.BondAlias(title, p, f))
    case Bridge(p) => One(Bridges.Bridge(title, p, f))
    case BridgeStatic(p) => One(Bridges.BridgeStatic(title, p, f))
    case BridgeDynamic(p) => One(Bridges.BridgeDynamic(title, p, f))
    case Route(a, m, g) => Ok([Lines(RouteLines(a, m, g))])
    case Rule(v4, v6) =>
      Ok((if v4.Some? then [Text(RuleLines(v4.value))] else []) + (if v6.Some? then [Text(RuleLines(v6.value))] else []))
  }

  /** The files of a define with their names, its target, and the
      resources beside them: the bond alias's exec, the bonding alias of a
      bond master and the bridge utilities of a dynamic bridge. */
  function Frame(title: string, d: Device, f: Facts, bodies: seq<Body>): (out: Output)
    requires |bodies| == |Names(title, d)|
    ensures |out.files| == |bodies|
    ensures forall i :: 0 <= i < |bodies| ==> out.files[i] == Planned(Names(title, d)[i], bodies[i])
  {
    var names := Names(title, d);
    Output(
      seq(|bodies|, i requires 0 <= i < |bodies| => Planned(names[i], bodies[i])),
      TargetOf(title, d),
      if d.BondAlias? then [AliasExec(title, d.bondAlias.ensure == "up")] else [],
      if BondMaster(d) then BondingAlias(title, f) else [],
      if d.BridgeDynamic? then ["bridge-utils"] else [])
  }

  /** The files and resources of a define, or the first validation error. */
  function Produce(title: string, d: Device, f: Facts): (r: Result<Output>) {
    var bodies :- Contents(title, d, f);
    Ok(Frame(title, d, f, bodies))
  }

  /** The notification of every file of a define. */
  function NotifyOf(t: Target, restart: bool, f: Facts): (n: Option<string>)
    ensures !restart ==> n == None
    ensures restart && t == Restart ==> n == Some(RestartTarget(f))
    ensures restart && t.OwnExec? ==> n == Some(ExecRef(t.exec))
    ensures t == Silent ==> n == None
  {
    match t
    case Restart => Notify(restart, RestartTarget(f))
    case OwnExec(e) => Notify(restart, ExecRef(e))
    case Silent => None
  }

  function Emit(pl: Planned, notify: Option<string>): (file: File)
    ensures Conventional(file) && file.name == pl.name && file.notify == notify
    ensures pl.body.Gone? <==> file.ensure == Removed
  {
    match pl.body
    case Lines(ds) => ScriptOf(pl.name, ds, notify)
    case Text(ls) => ScriptFile(pl.name, ls, notify)
    case Gone => RemovedFile(pl.name, notify)
  }

  /** The catalog of a define: the restart mechanism of the host, then the
      define's files with their notification and its other resources. */
  function Assemble(out: Output, restart: bool, f: Facts): (c: Catalog)
    ensures |c.files| == |out.files|
    ensures forall i :: 0 <= i < |out.files| ==> c.files[i] == Emit(out.files[i], NotifyOf(out.target, restart, f))
    ensures c.services == NetworkService(f).services
    ensures c.execs == NetworkService(f).execs + out.execs
    ensures c.augeas == out.augeas && c.packages == out.packages
  {
    var n := NotifyOf(out.target, restart, f);
    var own := Catalog(seq(|out.files|, i requires 0 <= i < |out.files| => Emit(out.files[i], n)),
                       out.execs, [], out.augeas, out.packages);
    Merge(NetworkService(f), own)
  }

  /** A define compiled with the restart switch. */
  function Compile(title: string, d: Device, restart: bool, f: Facts): (r: Result<Catalog>)
    ensures r.Err? <==> Produce(title, d, f).Err?
    ensures r.Err? ==> r.msg == Produce(title, d, f).msg
    ensures r.Ok? ==> r.value == Assemble(Produce(title, d, f).value, restart, f)
  {
    var out :- Produce(title, d, f);
    Ok(Assemble(out, restart, f))
  }

  // ------------------------------------------------------------- properties

  function PlannedNames(fs: seq<Planned>): (r: seq<string>) {
    seq(|fs|, i requires 0 <= i < |fs| => fs[i].name)
  }

  /** Turning restart off changes only the notifications. */
  lemma AssembleQuiet(out: Output, f: Facts)
    ensures Assemble(out, false, f) == Quiet(Assemble(out, true, f))
    ensures NoneNotify(Assemble(out, false, f))
  {
    var loud, quiet := Assemble(out, true, f), Assemble(out, false, f);
    assert quiet.files == Quiet(loud).files;
  }

  /** The catalog with restart off is the restarting one with every
      notification dropped, and no file in it notifies anything. */
  lemma QuietWithoutRestart(title: string, d: Device, f: Facts)
    ensures Compile(title, d, false, f).Ok? == Compile(title, d, true, f).Ok?
    ensures Compile(title, d, false, f).Ok? ==>
      Compile(title, d, false, f).value == Quiet(Compile(title, d, true, f).value)
      && NoneNotify(Compile(title, d, false, f).value)
  {
    var r := Contents(title, d, f);
    if r.Ok? {
      NamesCount(title, d);
      AssembleQuiet(Frame(title, d, f, r.value), f);
    }
  }

  lemma AssembleConventional(out: Output, restart: bool, f: Facts)
    ensures AllConventional(Assemble(out, restart, f))
  {
  }

  /** Every file of a compile lives in the scripts directory with mode
      0644 and owner root:root. */
  lemma FilesConventional(title: string, d: Device, restart: bool, f: Facts)
    ensures Compile(title, d, restart, f).Ok? ==> AllConventional(Compile(title, d, restart, f).value)
  {
    var r := Contents(title, d, f);
    if r.Ok? {
      NamesCount(title, d);
      AssembleConventional(Frame(title, d, f, r.value), restart, f);
    }
  }

  lemma AssembleNotifies(out: Output, f: Facts)
    ensures out.target == Restart ==> AllNotify(Assemble(out, true, f), RestartTarget(f))
    ensures out.target.OwnExec? ==> AllNotify(Assemble(out, true, f), ExecRef(out.target.exec))
    ensures out.target == Silent ==> NoneNotify(Assemble(out, true, f))
  {
  }

  /** With restart on, every file notifies the target of its define. */
  lemma NotifyTargets(title: string, d: Device, f: Facts)
    ensures var r := Compile(title, d, true, f);
      r.Ok? ==>
        (!(d.BondAlias? || d.Route? || d.Rule?) ==> AllNotify(r.value, RestartTarget(f)))
        && (d.BondAlias? ==> AllNotify(r.value, ExecRef(AliasExec(title, d.bondAlias.ensure == "up").name)))
        && ((d.Route? || d.Rule?) ==> NoneNotify(r.value))
  {
    var r := Contents(title, d, f);
    if r.Ok? {
      NamesCount(title, d);
      AssembleNotifies(Frame(title, d, f, r.value), f);
    }
  }

  /** The resources beside the files: the service or exec of the host and
      the define's own exec, bonding alias and packages. */
  lemma OtherResources(title: string, d: Device, restart: bool, f: Facts)
    ensures var r := Compile(title, d, restart, f);
      r.Ok? ==>
        r.value.services == NetworkService(f).services
        && r.value.execs == NetworkService(f).execs + (if d.BondAlias? then [AliasExec(title, d.bondAlias.ensure == "up")] else [])
        && r.value.augeas == (if BondMaster(d) then BondingAlias(title, f) else [])
        && r.value.packages == (if d.BridgeDynamic? then ["bridge-utils"] else [])
  {
    if Produce(title, d, f).Ok? {
    }
  }

  lemma AssembleNames(out: Output, restart: bool, f: Facts)
    ensures FileNames(Assemble(out, restart, f).files) == PlannedNames(out.files)
  {
  }

  lemma FrameNames(title: string, d: Device, f: Facts, bodies: seq<Body>)
    requires |bodies| == |Names(title, d)|
    ensures PlannedNames(Frame(title, d, f, bodies).files) == Names(title, d)
  {
  }

  /** The files of a compile are named after the define's title. */
  lemma FileNamesOf(title: string, d: Device, restart: bool, f: Facts)
    ensures Compile(title, d, restart, f).Ok? ==> FileNames(Compile(title, d, restart, f).value.files) == Names(title, d)
  {
    var r := Contents(title, d, f);
    if r.Ok? {
      NamesCount(title, d);
      FrameNames(title, d, f, r.value);
      AssembleNames(Frame(title, d, f, r.value), restart, f);
    }
  }
}
