/** Concrete cases: the parameters and facts of individual examples of the
    module's behaviour, and what the model gives for them. */
module Scenarios {
  import opened Wrappers
  import opened Text
  import opened Ifcfg
  import opened Validators
  import opened Conventions
  import opened Resources
  import opened Platform
  import opened Artifacts
  import opened Bonds
  import opened Routing

  // ------------------------------------------------------------ validators

  lemma RejectedStates()
    ensures ParseEnsure("blah", Stdlib) == Err(UpDownMessage)
    ensures ParseRangeEnsure("blah") == Err(UpDownAbsentMessage)
    ensures ParseEnsure("blah", Typed) == Err(TypedEnsureMessage)
  {
  }

  lemma RejectedBoolean()
    ensures ValidateBool(PStr("notABool"), Stdlib) == Err("\"notABool\" is not a boolean.")
  {
  }

  lemma NotAnAddress()
    ensures !IsIPv4("notAnIP")
  {
    SplitNoSeparator("notAnIP", '.');
  }

  lemma NotAnIPv6Address()
    ensures !IsIPv6("notAnIP")
  {
    SplitNoSeparator("notAnIP", ':');
    assert IndexOf("notAnIP", '/') == 7;
    assert DoubleColon("notAnIP") == 7;
  }

  lemma LinkLocalAddress()
    ensures IsIPv6("fe80::1")
  {
    IPv6CompressedForm(["fe80"], ["1"], 0);
    assert Join(["fe80"], ':') + "::" + Join(["1"], ':') == "fe80::1";
  }

  lemma UnspecifiedAddress()
    ensures IsIPv6("::")
  {
    IPv6CompressedForm([], [], 0);
    assert Join([], ':') + "::" + Join([], ':') == "::";
  }

  lemma TwoCompressions()
    ensures !IsIPv6("1::2::3")
  {
    IPv6SingleCompression("1::2::3", 1, 4);
  }

  lemma NotAMac()
    ensures !IsMac("123456")
  {
    SplitNoSeparator("123456", ':');
  }

  lemma AnAddress()
    ensures IsIPv4("1.2.3.5")
  {
    IPv4RoundTrip([1, 2, 3, 5]);
    assert FormatIPv4([1, 2, 3, 5]) == "1.2.3.5";
  }

  // ------------------------------------------------------------ quoting

  lemma QuotedLine()
    ensures Line(Directive(BONDING_OPTS, "miimon=100")) == "BONDING_OPTS=\"miimon=100\""
  {
  }

  lemma BareLine()
    ensures Line(Directive(IPV6ADDR_SECONDARIES, "a b")) == "IPV6ADDR_SECONDARIES=a b"
  {
  }

  // -------------------------------------------------------- network::service

  lemma ServiceOnReleases(macs: map<string, string>)
    ensures NetworkService(Facts(Some("RedHat"), Some("7.0"), macs)).services == [Service("network", "running", true, true, true)]
    ensures NetworkService(Facts(Some("RedHat"), Some("7.0"), macs)).execs == []
    ensures NetworkService(Facts(Some("RedHat"), Some("8.0"), macs)).services == []
    ensures NetworkService(Facts(Some("RedHat"), Some("8.0"), macs)).execs ==
      [Exec("restart_network",
        "/usr/bin/nmcli networking off ; /usr/bin/systemctl restart NetworkManager ; /usr/bin/nmcli networking on",
        true, Some("root"), Some("root"))]
  {
    assert NatToString(7) == "7" && NatToString(8) == "8";
    ServiceByRelease(7, "0", Some("RedHat"), macs);
    ServiceByRelease(8, "0", Some("RedHat"), macs);
  }

  // -------------------------------------------------------- bonding aliases

  lemma ModprobeOnListedReleases(macs: map<string, string>)
    ensures BondingAlias("bond0", Facts(Some("CentOS"), Some("5.9"), macs)) == [ModprobeAugeas("bond0")]
    ensures BondingAlias("bond0", Facts(Some("Fedora"), Some("11"), macs)) == [ModprobeAugeas("bond0")]
    ensures BondingAlias("bond0", Facts(Some("RedHat"), Some("6.0"), macs)) == []
    ensures BondingAlias("bond0", Facts(None, None, macs)) == []
  {
  }

  lemma FedoraKeepsService(macs: map<string, string>)
    ensures NetworkService(Facts(Some("Fedora"), Some("11"), macs)).services == [ClassicService]
    ensures NmControlled(Facts(Some("Fedora"), Some("11"), macs)) == "no"
  {
    ModprobeNotNetworkManager(Facts(Some("Fedora"), Some("11"), macs));
  }

  lemma BondAliasUpExec()
    ensures var e := AliasExec("bond2:1", true);
      e.name == "ifup-bond2:1" && e.command == "/sbin/ifdown bond2:1; /sbin/ifup bond2:1" && e.refreshonly
  {
    var down, up := "/sbin/ifdown " + "bond2:1", "; /sbin/ifup " + "bond2:1";
    assert down == "/sbin/ifdown bond2:1";
    assert up == "; /sbin/ifup bond2:1";
    assert down + up == "/sbin/ifdown bond2:1; /sbin/ifup bond2:1";
  }

  lemma BondAliasDownExec()
    ensures var e := AliasExec("bond3:2", false);
      e.name == "ifdown-bond3:2" && e.command == "/sbin/ifdown bond3:2" && e.refreshonly
  {
  }

  // -------------------------------------------------------------- MAC facts

  lemma VlanTakesParentMac()
    ensures ResolveMac("eth45.302", None, map["eth45" := "bb:cc:bb:cc:bb:cc"]) == Some("bb:cc:bb:cc:bb:cc")
  {
    assert "eth45" + "." + "302" == "eth45.302";
    VlanMac("eth45", "302", map["eth45" := "bb:cc:bb:cc:bb:cc"]);
  }

  // ------------------------------------------------------- network::route

  lemma RouteFile()
    ensures var ds := RouteLines(["192.168.2.0", "10.0.0.0"], ["255.255.255.0", "255.0.0.0"], ["192.168.1.1", "10.0.0.1"]);
      |ds| == 6
      && Assigns(ds, ADDRESSn(0), "192.168.2.0") && Assigns(ds, ADDRESSn(1), "10.0.0.0")
      && Assigns(ds, NETMASKn(0), "255.255.255.0") && Assigns(ds, NETMASKn(1), "255.0.0.0")
      && Assigns(ds, GATEWAYn(0), "192.168.1.1") && Assigns(ds, GATEWAYn(1), "10.0.0.1")
      && Unset(ds, ADDRESSn(2))
  {
    var a, m, g := ["192.168.2.0", "10.0.0.0"], ["255.255.255.0", "255.0.0.0"], ["192.168.1.1", "10.0.0.1"];
    var ds := RouteLines(a, m, g);
    assert At(m, 0) == "255.255.255.0" && At(m, 1) == "255.0.0.0";
    assert At(g, 0) == "192.168.1.1" && At(g, 1) == "10.0.0.1";
  }

  // -------------------------------------------------------- network::rule

  lemma RuleLineTable()
    ensures RuleLine(Rule(Some("eth0"), None, Some("1"), false)) == "iif eth0 table 1 "
  {
  }

  lemma RuleLineReject()
    ensures RuleLine(Rule(None, Some("192.168.252.0/24"), None, true)) == "from 192.168.252.0/24 reject "
  {
  }

  lemma RuleFiles()
    ensures RuleName("eth0", false) == "rule-eth0" && RuleName("eth0", true) == "rule6-eth0"
  {
  }
}
