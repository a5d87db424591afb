/** Routes and policy rules of a device. network::route writes the legacy
    route-<dev> file: entry i of the address list becomes ADDRESSi, with
    NETMASKi and GATEWAYi taken from the same position of the other two
    lists. network::rule writes one line per rule to rule-<dev> (IPv4) or
    rule6-<dev> (IPv6): each given field as `name value `, then `reject `
    when the rule rejects. */
module Routing {
  import opened Wrappers
  import opened Text
  import opened Ifcfg

  // ----------------------------------------------------------------- routes

  /** Entry `i` of a list, or the empty value past its end. */
  function At(s: seq<string>, i: nat): (r: string) {
    if i < |s| then s[i] else ""
  }

  /** The three lines of route entry `i`. */
  function RouteEntry(address: seq<string>, netmask: seq<string>, gateway: seq<string>, i: nat): (r: seq<Directive>)
    requires i < |address|
  {
    [Directive(ADDRESSn(i), address[i]), Directive(NETMASKn(i), At(netmask, i)), Directive(GATEWAYn(i), At(gateway, i))]
  }

  /** The entries from position `i` on. */
  function RouteFrom(address: seq<string>, netmask: seq<string>, gateway: seq<string>, i: nat): (r: seq<Directive>)
    decreases |address| - i
  {
    if i >= |address| then [] else RouteEntry(address, netmask, gateway, i) + RouteFrom(address, netmask, gateway, i + 1)
  }

  /** What the entries from `i` on give the key `k`: the list value at the
      key's own index when that index is an entry from `i` on. */
  function RouteValue(address: seq<string>, netmask: seq<string>, gateway: seq<string>, i: nat, k: Key): (r: seq<string>) {
    if k.ADDRESSn? && i <= k.n < |address| then [address[k.n]]
    else if k.NETMASKn? && i <= k.n < |address| then [At(netmask, k.n)]
    else if k.GATEWAYn? && i <= k.n < |address| then [At(gateway, k.n)]
    else []
  }

  /** What route entry `i` gives the key `k`. */
  function EntryValue(address: seq<string>, netmask: seq<string>, gateway: seq<string>, i: nat, k: Key): (r: seq<string>)
    requires i < |address|
  {
    if k == ADDRESSn(i) then [address[i]]
    else if k == NETMASKn(i) then [At(netmask, i)]
    else if k == GATEWAYn(i) then [At(gateway, i)]
    else []
  }

  /** What one directive gives the key `k`. */
  function Pick(d: Directive, k: Key): (r: seq<string>) {
    if d.key == k then [d.value] else []
  }

  lemma ValuesThree(d0: Directive, d1: Directive, d2: Directive, k: Key)
    ensures Values([d0, d1, d2], k) == Pick(d0, k) + Pick(d1, k) + Pick(d2, k)
  {
    var e := [d0, d1, d2];
    assert e[1..] == [d1, d2];
    assert e[1..][1..] == [d2];
    assert e[1..][1..][1..] == [];
    assert Values([d2], k) == Pick(d2, k);
  }

  lemma EntryValues(address: seq<string>, netmask: seq<string>, gateway: seq<string>, i: nat, k: Key)
    requires i < |address|
    ensures Values(RouteEntry(address, netmask, gateway, i), k) == EntryValue(address, netmask, gateway, i, k)
  {
    var d0, d1, d2 := Directive(ADDRESSn(i), address[i]), Directive(NETMASKn(i), At(netmask, i)), Directive(GATEWAYn(i), At(gateway, i));
    ValuesThree(d0, d1, d2, k);
    if k == ADDRESSn(i) {
      assert Pick(d1, k) == [] && Pick(d2, k) == [];
    } else if k == NETMASKn(i) {
      assert Pick(d0, k) == [] && Pick(d2, k) == [];
    } else if k == GATEWAYn(i) {
      assert Pick(d0, k) == [] && Pick(d1, k) == [];
    } else {
      assert Pick(d0, k) == [] && Pick(d1, k) == [] && Pick(d2, k) == [];
    }
  }

  lemma RouteValueStep(address: seq<string>, netmask: seq<string>, gateway: seq<string>, i: nat, k: Key)
    requires i < |address|
    ensures RouteValue(address, netmask, gateway, i, k)
      == EntryValue(address, netmask, gateway, i, k) + RouteValue(address, netmask, gateway, i + 1, k)
  {
  }

  lemma {:induction false} RouteFromValues(address: seq<string>, netmask: seq<string>, gateway: seq<string>, i: nat, k: Key)
    ensures Values(RouteFrom(address, netmask, gateway, i), k) == RouteValue(address, netmask, gateway, i, k)
    decreases |address| - i
  {
    if i < |address| {
      var entry, rest := RouteEntry(address, netmask, gateway, i), RouteFrom(address, netmask, gateway, i + 1);
      assert RouteFrom(address, netmask, gateway, i) == entry + rest;
      ValuesAppend(entry, rest, k);
      EntryValues(address, netmask, gateway, i, k);
      RouteFromValues(address, netmask, gateway, i + 1, k);
      RouteValueStep(address, netmask, gateway, i, k);
    }
  }

  lemma {:induction false} RouteFromLength(address: seq<string>, netmask: seq<string>, gateway: seq<string>, i: nat)
    requires i <= |address|
    ensures |RouteFrom(address, netmask, gateway, i)| == 3 * (|address| - i)
    decreases |address| - i
  {
    if i < |address| {
      RouteFromLength(address, netmask, gateway, i + 1);
    }
  }

  lemma RouteAssigns(address: seq<string>, netmask: seq<string>, gateway: seq<string>)
    ensures forall j: nat :: j < |address| ==>
      Assigns(RouteFrom(address, netmask, gateway, 0), ADDRESSn(j), address[j])
      && Assigns(RouteFrom(address, netmask, gateway, 0), NETMASKn(j), At(netmask, j))
      && Assigns(RouteFrom(address, netmask, gateway, 0), GATEWAYn(j), At(gateway, j))
  {
    forall j: nat | j < |address|
      ensures Assigns(RouteFrom(address, netmask, gateway, 0), ADDRESSn(j), address[j])
      ensures Assigns(RouteFrom(address, netmask, gateway, 0), NETMASKn(j), At(netmask, j))
      ensures Assigns(RouteFrom(address, netmask, gateway, 0), GATEWAYn(j), At(gateway, j))
    {
      RouteFromValues(address, netmask, gateway, 0, ADDRESSn(j));
      RouteFromValues(address, netmask, gateway, 0, NETMASKn(j));
      RouteFromValues(address, netmask, gateway, 0, GATEWAYn(j));
    }
  }

  lemma RouteBeyond(address: seq<string>, netmask: seq<string>, gateway: seq<string>)
    ensures forall j: nat :: j >= |address| ==>
      Unset(RouteFrom(address, netmask, gateway, 0), ADDRESSn(j))
      && Unset(RouteFrom(address, netmask, gateway, 0), NETMASKn(j))
      && Unset(RouteFrom(address, netmask, gateway, 0), GATEWAYn(j))
  {
    forall j: nat | j >= |address|
      ensures Unset(RouteFrom(address, netmask, gateway, 0), ADDRESSn(j))
      ensures Unset(RouteFrom(address, netmask, gateway, 0), NETMASKn(j))
      ensures Unset(RouteFrom(address, netmask, gateway, 0), GATEWAYn(j))
    {
      RouteFromValues(address, netmask, gateway, 0, ADDRESSn(j));
      RouteFromValues(address, netmask, gateway, 0, NETMASKn(j));
      RouteFromValues(address, netmask, gateway, 0, GATEWAYn(j));
    }
  }

  lemma RouteOther(address: seq<string>, netmask: seq<string>, gateway: seq<string>)
    ensures forall k: Key :: !(k.ADDRESSn? || k.NETMASKn? || k.GATEWAYn?) ==> Unset(RouteFrom(address, netmask, gateway, 0), k)
  {
    forall k: Key | !(k.ADDRESSn? || k.NETMASKn? || k.GATEWAYn?)
      ensures Unset(RouteFrom(address, netmask, gateway, 0), k)
    {
      RouteFromValues(address, netmask, gateway, 0, k);
    }
  }

  /** The route file: for every position `j` of the address list exactly
      one ADDRESSj, NETMASKj and GATEWAYj line, each with the value at
      position `j` of its list; no line for any other index or key. */
  function RouteLines(address: seq<string>, netmask: seq<string>, gateway: seq<string>): (ds: seq<Directive>)
    ensures |ds| == 3 * |address|
    ensures forall j: nat :: j < |address| ==>
      Assigns(ds, ADDRESSn(j), address[j]) && Assigns(ds, NETMASKn(j), At(netmask, j)) && Assigns(ds, GATEWAYn(j), At(gateway, j))
    ensures forall j: nat :: j >= |address| ==>
      Unset(ds, ADDRESSn(j)) && Unset(ds, NETMASKn(j)) && Unset(ds, GATEWAYn(j))
    ensures forall k: Key :: !(k.ADDRESSn? || k.NETMASKn? || k.GATEWAYn?) ==> Unset(ds, k)
  {
    RouteFromLength(address, netmask, gateway, 0);
    RouteAssigns(address, netmask, gateway);
    RouteBeyond(address, netmask, gateway);
    RouteOther(address, netmask, gateway);
    RouteFrom(address, netmask, gateway, 0)
  }

  function RouteName(title: string): (r: string) {
    "route-" + title
  }

  // ------------------------------------------------------------------ rules

  /** One policy rule: the interface and source it matches, the table it
      selects, and whether it rejects. */
  datatype Rule = Rule(iif: Option<string>, from: Option<string>, table: Option<string>, reject: bool)

  /** One field of a rule line: `name value `, or nothing. */
  function Part(name: string, o: Option<string>): (r: string) {
    if o.Some? then name + " " + o.value + " " else ""
  }

  /** The line of a rule: the interface, the source, the table and the
      action, each followed by a space. */
  function RuleLine(r: Rule): (l: string) {
    Part("iif", r.iif) + Part("from", r.from) + Part("table", r.table) + (if r.reject then "reject " else "")
  }

  /** The words of a rule line, in order. */
  function Pair(name: string, o: Option<string>): (r: seq<string>) {
    if o.Some? then [name, o.value] else []
  }

  function Words(r: Rule): (v: seq<string>) {
    Pair("iif", r.iif) + Pair("from", r.from) + Pair("table", r.table) + (if r.reject then ["reject"] else [])
  }

  /** Each word followed by a space. */
  function Spaced(ws: seq<string>): (r: string) {
    if ws == [] then "" else ws[0] + " " + Spaced(ws[1..])
  }

  lemma {:induction false} SpacedAppend(a: seq<string>, b: seq<string>)
    ensures Spaced(a + b) == Spaced(a) + Spaced(b)
  {
    if a != [] {
      assert (a + b)[1..] == a[1..] + b;
      SpacedAppend(a[1..], b);
    } else {
      assert a + b == b;
    }
  }

  /** Words followed by spaces are the words joined by spaces, with one
      empty word at the end. */
  lemma {:induction false} SpacedJoin(ws: seq<string>)
    ensures Spaced(ws) == Join(ws + [""], ' ')
  {
    if ws != [] {
      assert (ws + [""])[1..] == ws[1..] + [""];
      SpacedJoin(ws[1..]);
    }
  }

  lemma SpacedPair(name: string, o: Option<string>)
    ensures Spaced(Pair(name, o)) == Part(name, o)
  {
    if o.Some? {
      var ws := [name, o.value];
      assert ws[1..] == [o.value];
      assert ws[1..][1..] == [];
      assert Spaced([o.value]) == o.value + " ";
      assert Spaced(ws) == name + " " + (o.value + " ");
    }
  }

  lemma RuleWords(r: Rule)
    ensures RuleLine(r) == Spaced(Words(r))
  {
    var a, b, c := Pair("iif", r.iif), Pair("from", r.from), Pair("table", r.table);
    var d: seq<string> := if r.reject then ["reject"] else [];
    SpacedAppend(a + b + c, d);
    SpacedAppend(a + b, c);
    SpacedAppend(a, b);
    SpacedPair("iif", r.iif);
    SpacedPair("from", r.from);
    SpacedPair("table", r.table);
    if r.reject {
      assert d[1..] == [];
    }
  }

  /** The optional `name value` pair at the head of `ws`. */
  function Take(name: string, ws: seq<string>): (Option<string>, seq<string>) {
    if |ws| >= 2 && ws[0] == name then (Some(ws[1]), ws[2..]) else (None, ws)
  }

  function ParseWords(ws: seq<string>): (r: Option<Rule>) {
    var (iif, r1) := Take("iif", ws);
    var (from, r2) := Take("from", r1);
    var (table, r3) := Take("table", r2);
    if r3 == [] then Some(Rule(iif, from, table, false))
    else if r3 == ["reject"] then Some(Rule(iif, from, table, true))
    else None
  }

  /** Reads a rule line: space-separated words, the last one empty. */
  function ParseRule(l: string): (r: Option<Rule>) {
    var ws := Split(l, ' ');
    if ws[|ws| - 1] != "" then None else ParseWords(ws[..|ws| - 1])
  }

  predicate NoSpaces(r: Rule) {
    (r.iif.Some? ==> ' ' !in r.iif.value) && (r.from.Some? ==> ' ' !in r.from.value)
    && (r.table.Some? ==> ' ' !in r.table.value)
  }

  /** Take undoes a pair. */
  lemma TakePair(name: string, o: Option<string>, rest: seq<string>)
    requires o.None? ==> |rest| < 2 || rest[0] != name
    ensures Take(name, Pair(name, o) + rest) == (o, rest)
  {
    var ws := Pair(name, o) + rest;
    if o.Some? {
      assert ws[0] == name && ws[1] == o.value;
      assert ws[2..] == rest;
    } else {
      assert ws == rest;
    }
  }

  /** Take splits off a pair. */
  lemma TakeSplit(name: string, ws: seq<string>)
    ensures ws == Pair(name, Take(name, ws).0) + Take(name, ws).1
  {
    if |ws| >= 2 && ws[0] == name {
      assert ws == [ws[0], ws[1]] + ws[2..];
    }
  }

  lemma ParseWordsOf(r: Rule)
    ensures ParseWords(Words(r)) == Some(r)
  {
    var a, b, c := Pair("iif", r.iif), Pair("from", r.from), Pair("table", r.table);
    var d: seq<string> := if r.reject then ["reject"] else [];
    assert Words(r) == a + (b + c + d);
    assert b + c + d == b + (c + d);
    assert |c + d| >= 2 ==> (c + d)[0] == "table";
    assert |b + c + d| >= 2 ==> (b + c + d)[0] in {"from", "table"};
    TakePair("iif", r.iif, b + c + d);
    TakePair("from", r.from, c + d);
    TakePair("table", r.table, d);
  }

  /** Words that parse are the words of the rule they parse to. */
  lemma ParseWordsWords(ws: seq<string>)
    ensures ParseWords(ws).Some? ==> Words(ParseWords(ws).value) == ws
  {
    var (iif, r1) := Take("iif", ws);
    var (from, r2) := Take("from", r1);
    var (table, r3) := Take("table", r2);
    TakeSplit("iif", ws);
    TakeSplit("from", r1);
    TakeSplit("table", r2);
    assert ws == Pair("iif", iif) + Pair("from", from) + Pair("table", table) + r3;
  }

  predicate Spaceless(ws: seq<string>) {
    forall i :: 0 <= i < |ws| ==> ' ' !in ws[i]
  }

  lemma PairSpaceless(name: string, o: Option<string>)
    requires ' ' !in name && (o.Some? ==> ' ' !in o.value)
    ensures Spaceless(Pair(name, o))
  {
  }

  lemma WordsSpaceless(r: Rule)
    requires NoSpaces(r)
    ensures Spaceless(Words(r) + [""])
  {
    var a, b, c := Pair("iif", r.iif), Pair("from", r.from), Pair("table", r.table);
    var d: seq<string> := if r.reject then ["reject"] else [];
    PairSpaceless("iif", r.iif);
    PairSpaceless("from", r.from);
    PairSpaceless("table", r.table);
    assert Spaceless(d + [""]);
    assert Words(r) + [""] == a + b + c + (d + [""]);
  }

  /** A rule whose values hold no space reads back from its line. */
  lemma RuleRoundTrip(r: Rule)
    requires NoSpaces(r)
    ensures ParseRule(RuleLine(r)) == Some(r)
  {
    var ws := Words(r) + [""];
    RuleWords(r);
    SpacedJoin(Words(r));
    WordsSpaceless(r);
    SplitJoin(ws, ' ');
    assert Split(RuleLine(r), ' ') == ws;
    assert ws[..|ws| - 1] == Words(r);
    ParseWordsOf(r);
  }

  /** A line that reads as a rule is that rule's line. */
  lemma RuleCanonical(l: string)
    ensures ParseRule(l).Some? ==> RuleLine(ParseRule(l).value) == l
  {
    var ws := Split(l, ' ');
    if ws[|ws| - 1] == "" {
      var body := ws[..|ws| - 1];
      assert ParseRule(l) == ParseWords(body);
      if ParseWords(body).Some? {
        var r := ParseWords(body).value;
        ParseWordsWords(body);
        assert Words(r) == body;
        RuleWords(r);
        SpacedJoin(body);
        assert body + [""] == ws;
        JoinSplit(l, ' ');
        assert RuleLine(r) == Join(ws, ' ');
      }
    }
  }

  /** The content of a rule file: one line per rule, in list order. */
  function RuleLines(rules: seq<Rule>): (ls: seq<string>)
    ensures |ls| == |rules|
    ensures forall i :: 0 <= i < |rules| ==> ls[i] == RuleLine(rules[i])
  {
    if rules == [] then [] else [RuleLine(rules[0])] + RuleLines(rules[1..])
  }

  function ReadRules(ls: seq<string>): (r: Option<seq<Rule>>) {
    if ls == [] then Some([])
    else
      match ParseRule(ls[0])
      case None => None
      case Some(r) =>
        match ReadRules(ls[1..])
        case None => None
        case Some(rest) => Some([r] + rest)
  }

  /** A rule file reads back as its rules. */
  lemma {:induction false} RulesRoundTrip(rules: seq<Rule>)
    requires forall i :: 0 <= i < |rules| ==> NoSpaces(rules[i])
    ensures ReadRules(RuleLines(rules)) == Some(rules)
  {
    if rules != [] {
      RuleRoundTrip(rules[0]);
      RulesRoundTrip(rules[1..]);
      assert RuleLines(rules)[1..] == RuleLines(rules[1..]);
      assert [rules[0]] + rules[1..] == rules;
    }
  }

  /** IPv4 rules go to rule-<dev>, IPv6 rules to rule6-<dev>. */
  function RuleName(title: string, ipv6: bool): (r: string) {
    (if ipv6 then "rule6-" else "rule-") + title
  }
}
