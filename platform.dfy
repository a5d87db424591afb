/** Platform policy: the host facts a compile reads, the restart mechanism
    chosen by the release (a `network` service before release 8, an nmcli
    exec from release 8 on), and the bonding-module alias that older
    releases need in /etc/modprobe.conf. */
module Platform {
  import opened Wrappers
  import opened Text
  import opened Resources

  /** The facts a compile reads. `macs` maps a device name `dev` to the
      value of its `macaddress_<dev>` fact. */
  datatype Facts = Facts(
    operatingsystem: Option<string>,
    operatingsystemrelease: Option<string>,
    macs: map<string, string>)

  // ------------------------------------------------------ release major

  /** The major number of a release string: its leading digits up to the
      first dot, when there are any. */
  function ReleaseMajor(release: string): (r: Option<nat>)
    ensures r.Some? ==> IndexOf(release, '.') >= 1
  {
    var head := release[..IndexOf(release, '.')];
    if |head| >= 1 && AllDigits(head) then Some(ParseNat(head)) else None
  }

  /** `"<m>"` and `"<m>.<minor>"` both have major `m`. */
  lemma ReleaseMajorOf(m: nat, minor: string)
    ensures ReleaseMajor(NatToString(m)) == Some(m)
    ensures ReleaseMajor(NatToString(m) + "." + minor) == Some(m)
  {
    var s := NatToString(m);
    ParseNatToString(m);
    assert '.' !in s by {
      assert forall i :: 0 <= i < |s| ==> IsDigit(s[i]);
    }
    assert IndexOf(s, '.') == |s|;
    assert s[..|s|] == s;
    var t := s + "." + minor;
    assert t[..|s|] == s;
    assert t[|s|] == '.';
    assert IndexOf(t, '.') == |s|;
  }

  function Major(f: Facts): (r: Option<nat>) {
    match f.operatingsystemrelease
    case None => None
    case Some(rel) => ReleaseMajor(rel)
  }

  /** From release 8 of the Red Hat family on, NetworkManager owns the
      restart. Fedora numbers its releases on a scale of its own, so the
      threshold does not apply to it. */
  predicate UsesNetworkManager(f: Facts) {
    f.operatingsystem != Some("Fedora") && Major(f).Some? && Major(f).value >= 8
  }

  const NmcliRestart: string :=
    "/usr/bin/nmcli networking off ; /usr/bin/systemctl restart NetworkManager ; /usr/bin/nmcli networking on"

  const ClassicService: Service := Service("network", "running", true, true, true)

  const RestartExec: Exec := Exec("restart_network", NmcliRestart, true, Some("root"), Some("root"))

  /** The resources of `network::service`: exactly one restart mechanism. */
  function NetworkService(f: Facts): (c: Catalog)
    ensures c.files == [] && c.augeas == [] && c.packages == []
    ensures UsesNetworkManager(f) ==> c.services == [] && c.execs == [RestartExec]
    ensures !UsesNetworkManager(f) ==> c.services == [ClassicService] && c.execs == []
  {
    if UsesNetworkManager(f) then EmptyCatalog.(execs := [RestartExec])
    else EmptyCatalog.(services := [ClassicService])
  }

  /** What a changed file notifies so that the change takes effect. */
  function RestartTarget(f: Facts): (t: string)
    ensures UsesNetworkManager(f) ==> t == ExecRef(RestartExec.name)
    ensures !UsesNetworkManager(f) ==> t == ServiceRef(ClassicService.name)
  {
    if UsesNetworkManager(f) then ExecRef(RestartExec.name) else ServiceRef(ClassicService.name)
  }

  /** Release `<m>.<minor>` uses the classic service below 8 and the nmcli
      exec from 8 on; without a release, and on Fedora, the classic service
      is kept. */
  lemma ServiceByRelease(m: nat, minor: string, os: Option<string>, macs: map<string, string>)
    ensures var f := Facts(os, Some(NatToString(m) + "." + minor), macs);
      ((m < 8 || os == Some("Fedora")) ==> NetworkService(f).services == [ClassicService] && NetworkService(f).execs == [])
      && (m >= 8 && os != Some("Fedora") ==> NetworkService(f).execs == [RestartExec] && NetworkService(f).services == [])
    ensures NetworkService(Facts(os, None, macs)).services == [ClassicService]
  {
    ReleaseMajorOf(m, minor);
  }

  // ------------------------------------------------ modprobe.conf alias

  const ModprobeOsNames: set<string> := {"RedHat", "CentOS", "OEL", "OracleLinux", "SLC", "Scientific"}
  const ModprobeReleases: set<string> := {"4.8", "5.9"}
  const FedoraModprobeReleases: set<string> := {"6", "9", "11"}

  /** The releases that still load the bonding driver through an alias in
      /etc/modprobe.conf. Without both facts no alias is needed. */
  predicate NeedsModprobeAlias(f: Facts) {
    f.operatingsystem.Some? && f.operatingsystemrelease.Some?
    && ((f.operatingsystem.value in ModprobeOsNames && f.operatingsystemrelease.value in ModprobeReleases)
        || (f.operatingsystem.value == "Fedora" && f.operatingsystemrelease.value in FedoraModprobeReleases))
  }

  /** The systems that still need a modprobe.conf alias are old ones:
      outside Fedora their major release is at most 5, and none of them
      hands the restart to NetworkManager. */
  lemma ModprobeNotNetworkManager(f: Facts)
    ensures NeedsModprobeAlias(f) && f.operatingsystem != Some("Fedora") ==> Major(f).Some? && Major(f).value <= 5
    ensures NeedsModprobeAlias(f) ==> !UsesNetworkManager(f)
  {
    if NeedsModprobeAlias(f) && f.operatingsystem != Some("Fedora") {
      if f.operatingsystemrelease.value == "4.8" {
        ReleaseMajorOf(4, "8");
      } else {
        ReleaseMajorOf(5, "9");
      }
    }
  }

  /** The Augeas edit that adds `alias <dev> bonding` unless an alias named
      `dev` exists. */
  function ModprobeAugeas(dev: string): (r: Augeas) {
    Augeas(
      "modprobe.conf_" + dev,
      "/files/etc/modprobe.conf",
      ["set alias[last()+1] " + dev, "set alias[last()]/modulename bonding"],
      "match alias[*][. = '" + dev + "'] size == 0")
  }

  function BondingAlias(dev: string, f: Facts): (r: seq<Augeas>)
    ensures NeedsModprobeAlias(f) ==> r == [ModprobeAugeas(dev)]
    ensures !NeedsModprobeAlias(f) ==> r == []
  {
    if NeedsModprobeAlias(f) then [ModprobeAugeas(dev)] else []
  }

  /** One `alias <name> <driver>` entry of /etc/modprobe.conf. */
  datatype ModAlias = ModAlias(name: string, driver: string)

  function Count(l: seq<ModAlias>, name: string): (r: nat) {
    if l == [] then 0 else (if l[0].name == name then 1 else 0) + Count(l[1..], name)
  }

  predicate HasAlias(l: seq<ModAlias>, name: string) {
    exists j :: 0 <= j < |l| && l[j].name == name
  }

  lemma {:induction false} CountZero(l: seq<ModAlias>, name: string)
    ensures Count(l, name) == 0 <==> !HasAlias(l, name)
  {
    if l != [] {
      CountZero(l[1..], name);
      if HasAlias(l[1..], name) {
        var j :| 0 <= j < |l[1..]| && l[1..][j].name == name;
        assert l[j + 1].name == name;
      }
      if HasAlias(l, name) && l[0].name != name {
        var j :| 0 <= j < |l| && l[j].name == name;
        assert l[1..][j - 1].name == name;
      }
    }
  }

  lemma {:induction false} CountAppend(l: seq<ModAlias>, a: ModAlias, name: string)
    ensures Count(l + [a], name) == Count(l, name) + (if a.name == name then 1 else 0)
  {
    if l != [] {
      assert (l + [a])[1..] == l[1..] + [a];
      CountAppend(l[1..], a, name);
    }
  }

  /** The effect of the guarded edit on the alias list: append
      `alias <dev> bonding` when no alias is named `dev`. */
  function WithBondingAlias(l: seq<ModAlias>, dev: string): (r: seq<ModAlias>) {
    if HasAlias(l, dev) then l else l + [ModAlias(dev, "bonding")]
  }

  /** After the edit exactly one alias names the device if at most one did,
      the device is aliased to the bonding driver when it was not aliased
      before, and every other name keeps its count. */
  lemma BondingAliasCounts(l: seq<ModAlias>, dev: string, other: string)
    requires other != dev
    ensures Count(l, dev) <= 1 ==> Count(WithBondingAlias(l, dev), dev) == 1
    ensures !HasAlias(l, dev) ==> ModAlias(dev, "bonding") in WithBondingAlias(l, dev)
    ensures Count(WithBondingAlias(l, dev), other) == Count(l, other)
    ensures l <= WithBondingAlias(l, dev)
  {
    CountZero(l, dev);
    CountAppend(l, ModAlias(dev, "bonding"), dev);
    CountAppend(l, ModAlias(dev, "bonding"), other);
  }

  /** Applying the edit twice is applying it once. */
  lemma BondingAliasIdempotent(l: seq<ModAlias>, dev: string)
    ensures WithBondingAlias(WithBondingAlias(l, dev), dev) == WithBondingAlias(l, dev)
  {
    if !HasAlias(l, dev) {
      var l' := l + [ModAlias(dev, "bonding")];
      assert l'[|l|].name == dev;
    }
  }

  const GuardHead: string := "match alias[*][. = '"
  const GuardTail: string := "'] size == 0"
  const AppendHead: string := "set alias[last()+1] "
  const DriverHead: string := "set alias[last()]/modulename "

  /** The name an `onlyif` guard requires to be unaliased, when the guard
      has the form `match alias[*][. = '<name>'] size == 0`. */
  function GuardedName(onlyif: string): (r: Option<string>)
    ensures r.Some? ==> onlyif == GuardHead + r.value + GuardTail
  {
    if |onlyif| >= |GuardHead| + |GuardTail| && onlyif[..|GuardHead|] == GuardHead
       && onlyif[|onlyif| - |GuardTail|..] == GuardTail
    then
      var name := onlyif[|GuardHead|..|onlyif| - |GuardTail|];
      assert onlyif == onlyif[..|GuardHead|] + name + onlyif[|onlyif| - |GuardTail|..];
      Some(name)
    else None
  }

  /** The alias that a pair of changes `set alias[last()+1] <name>`,
      `set alias[last()]/modulename <driver>` appends. */
  function AppendedAlias(changes: seq<string>): (r: Option<ModAlias>)
    ensures r.Some? ==> changes == [AppendHead + r.value.name, DriverHead + r.value.driver]
  {
    if |changes| == 2 && |changes[0]| >= |AppendHead| && changes[0][..|AppendHead|] == AppendHead
       && |changes[1]| >= |DriverHead| && changes[1][..|DriverHead|] == DriverHead
    then
      var a := ModAlias(changes[0][|AppendHead|..], changes[1][|DriverHead|..]);
      assert changes[0] == changes[0][..|AppendHead|] + a.name;
      assert changes[1] == changes[1][..|DriverHead|] + a.driver;
      Some(a)
    else None
  }

  /** What an Augeas record of the guarded-append form does to the alias
      list: nothing when an alias already has the guarded name, otherwise
      the append. A record of any other form is not read. */
  function ApplyAugeas(l: seq<ModAlias>, a: Augeas): (r: Option<seq<ModAlias>>)
    ensures r.Some? ==> r.value == l || (|r.value| == |l| + 1 && r.value[..|l|] == l)
  {
    match (GuardedName(a.onlyif), AppendedAlias(a.changes))
    case (Some(g), Some(added)) =>
      if g != added.name then None
      else if HasAlias(l, g) then Some(l) else Some(l + [added])
    case _ => None
  }

  /** The record of a bond master, applied to any alias list, is the
      guarded edit: its guard names the device and its changes append
      `alias <dev> bonding`. */
  lemma ModprobeAugeasEffect(l: seq<ModAlias>, dev: string)
    ensures ModprobeAugeas(dev).context == "/files/etc/modprobe.conf"
    ensures ApplyAugeas(l, ModprobeAugeas(dev)) == Some(WithBondingAlias(l, dev))
  {
    var a := ModprobeAugeas(dev);
    assert a.onlyif == GuardHead + dev + GuardTail;
    assert (GuardHead + dev + GuardTail)[..|GuardHead|] == GuardHead;
    assert (GuardHead + dev + GuardTail)[|GuardHead + dev + GuardTail| - |GuardTail|..] == GuardTail;
    assert (GuardHead + dev + GuardTail)[|GuardHead|..|GuardHead + dev + GuardTail| - |GuardTail|] == dev;
    assert GuardedName(a.onlyif) == Some(dev);
    assert a.changes[0] == AppendHead + dev && a.changes[1] == DriverHead + "bonding";
    assert (AppendHead + dev)[..|AppendHead|] == AppendHead && (AppendHead + dev)[|AppendHead|..] == dev;
    assert (DriverHead + "bonding")[..|DriverHead|] == DriverHead && (DriverHead + "bonding")[|DriverHead|..] == "bonding";
    assert AppendedAlias(a.changes) == Some(ModAlias(dev, "bonding"));
  }

  function WithBondingAliases(l: seq<ModAlias>, devs: seq<string>): (r: seq<ModAlias>)
    decreases |devs|
  {
    if devs == [] then l else WithBondingAliases(WithBondingAlias(l, devs[0]), devs[1..])
  }

  ghost predicate NoDuplicates(l: seq<ModAlias>) {
    forall name :: Count(l, name) <= 1
  }

  /** Registering a run's bonds, in any order and with repetitions, leaves
      every bond aliased and no name aliased twice. */
  lemma {:induction false} BondingAliasesRun(l: seq<ModAlias>, devs: seq<string>)
    requires NoDuplicates(l)
    ensures NoDuplicates(WithBondingAliases(l, devs))
    ensures forall d :: d in devs ==> HasAlias(WithBondingAliases(l, devs), d)
    ensures forall name :: HasAlias(l, name) ==> HasAlias(WithBondingAliases(l, devs), name)
    decreases |devs|
  {
    if devs != [] {
      var l' := WithBondingAlias(l, devs[0]);
      forall name
        ensures Count(l', name) <= 1
      {
        if name == devs[0] {
          CountZero(l, name);
          CountAppend(l, ModAlias(devs[0], "bonding"), name);
        } else {
          BondingAliasCounts(l, devs[0], name);
        }
      }
      assert HasAlias(l', devs[0]) by {
        if !HasAlias(l, devs[0]) {
          assert l'[|l|].name == devs[0];
        }
      }
      forall name | HasAlias(l, name)
        ensures HasAlias(l', name)
      {
        var j :| 0 <= j < |l| && l[j].name == name;
        assert l'[j] == l[j];
      }
      BondingAliasesRun(l', devs[1..]);
    }
  }

  /** The modprobe.conf alias list as the host holds it, changed in place
      by the guarded edit. */
  class ModprobeConf {
    var aliases: seq<ModAlias>

    constructor(initial: seq<ModAlias>)
      ensures aliases == initial
    {
      aliases := initial;
    }

    /** Applies the guarded edit for `dev`; `added` says whether the alias
        list grew. */
    method Register(dev: string) returns (added: bool)
      modifies this
      ensures added <==> !HasAlias(old(aliases), dev)
      ensures aliases == WithBondingAlias(old(aliases), dev)
    {
      var i := 0;
      var found := false;
      while i < |aliases|
        invariant 0 <= i <= |aliases|
        invariant found <==> exists j :: 0 <= j < i && aliases[j].name == dev
      {
        if aliases[i].name == dev {
          found := true;
        }
        i := i + 1;
      }
      added := !found;
      if added {
        aliases := aliases + [ModAlias(dev, "bonding")];
      }
    }

    /** Applies the edit for every bond of a run, in order. */
    method RegisterAll(devs: seq<string>)
      modifies this
      ensures aliases == WithBondingAliases(old(aliases), devs)
    {
      var k := 0;
      while k < |devs|
        invariant 0 <= k <= |devs|
        invariant WithBondingAliases(aliases, devs[k..]) == WithBondingAliases(old(aliases), devs)
      {
        assert devs[k..][1..] == devs[k + 1..];
        var _ := Register(devs[k]);
        k := k + 1;
      }
    }
  }
}
