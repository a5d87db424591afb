/** The parameter checks every define runs before rendering: the `ensure`
    enumerations, IPv4 and IPv6 addresses, MAC addresses and booleans. Each
    check passes its value through unchanged or fails with the message that
    the manifests raise. Two message styles exist: the stdlib `validate_*`
    functions (most defines) and Puppet data types (network::bridge::dynamic). */
module Validators {
  import opened Wrappers
  import opened Text

  datatype Style = Stdlib | Typed

  datatype Ensure = Up | Down | Absent

  /** A Puppet value given for a boolean parameter: a real boolean, or a
      string such as "notABool". */
  datatype Param = PBool(b: bool) | PStr(s: string)

  const UpDownMessage: string := "$ensure must be either \"up\" or \"down\"."
  const UpDownAbsentMessage: string := "$ensure must be either \"up\", \"down\", or \"absent\"."
  const TypedEnsureMessage: string := "expects a match for Enum['down', 'up']"
  const TypedBoolMessage: string := "expects a Boolean"

  function EnsureName(e: Ensure): (r: string) {
    match e
    case Up => "up"
    case Down => "down"
    case Absent => "absent"
  }

  /** The up/down check of interfaces, aliases, bonds and bridges. */
  function ParseEnsure(s: string, style: Style): (r: Result<Ensure>)
    ensures r == Ok(Up) <==> s == "up"
    ensures r == Ok(Down) <==> s == "down"
    ensures r.Ok? ==> r.value != Absent
    ensures r.Ok? || r.msg == (if style == Stdlib then UpDownMessage else TypedEnsureMessage)
  {
    if s == "up" then Ok(Up)
    else if s == "down" then Ok(Down)
    else Err(if style == Stdlib then UpDownMessage else TypedEnsureMessage)
  }

  /** The up/down/absent check of network::alias::range. */
  function ParseRangeEnsure(s: string): (r: Result<Ensure>)
    ensures r == Ok(Up) <==> s == "up"
    ensures r == Ok(Down) <==> s == "down"
    ensures r == Ok(Absent) <==> s == "absent"
    ensures r.Ok? || r.msg == UpDownAbsentMessage
  {
    if s == "up" then Ok(Up)
    else if s == "down" then Ok(Down)
    else if s == "absent" then Ok(Absent)
    else Err(UpDownAbsentMessage)
  }

  /** The checks accept exactly the names of the states they return. */
  lemma EnsureRoundTrip(e: Ensure, s: string, style: Style)
    ensures ParseRangeEnsure(EnsureName(e)) == Ok(e)
    ensures e != Absent ==> ParseEnsure(EnsureName(e), style) == Ok(e)
    ensures ParseRangeEnsure(s) == Ok(e) ==> EnsureName(e) == s
    ensures ParseEnsure(s, style) == Ok(e) ==> EnsureName(e) == s && e != Absent
  {
  }

  // ---------------------------------------------------------------- IPv4

  predicate IsOctet(p: string) {
    IsDecimal(p) && ParseNat(p) <= 255
  }

  /** Dotted-quad IPv4: four canonical decimal octets, each at most 255. */
  predicate IsIPv4(s: string) {
    var parts := Split(s, '.');
    |parts| == 4 && forall i :: 0 <= i < 4 ==> IsOctet(parts[i])
  }

  function OctetStrings(o: seq<nat>): (r: seq<string>)
    ensures |r| == |o|
  {
    seq(|o|, i requires 0 <= i < |o| => NatToString(o[i]))
  }

  function FormatIPv4(o: seq<nat>): (r: string) {
    Join(OctetStrings(o), '.')
  }

  function IPv4Octets(s: string): (o: seq<nat>)
    requires IsIPv4(s)
    ensures |o| == 4
  {
    var parts := Split(s, '.');
    [ParseNat(parts[0]), ParseNat(parts[1]), ParseNat(parts[2]), ParseNat(parts[3])]
  }

  /** Any four octets render to an accepted address that parses back to them. */
  lemma IPv4RoundTrip(o: seq<nat>)
    requires |o| == 4 && forall i :: 0 <= i < 4 ==> o[i] <= 255
    ensures IsIPv4(FormatIPv4(o))
    ensures IPv4Octets(FormatIPv4(o)) == o
  {
    var parts := OctetStrings(o);
    forall i | 0 <= i < 4
      ensures IsOctet(parts[i]) && ParseNat(parts[i]) == o[i] && '.' !in parts[i]
    {
      ParseNatToString(o[i]);
    }
    SplitJoin(parts, '.');
  }

  /** Every accepted address is the canonical rendering of its octets, so the
      check passes nothing it would have to reformat. */
  lemma IPv4Canonical(s: string)
    requires IsIPv4(s)
    ensures FormatIPv4(IPv4Octets(s)) == s
  {
    var parts := Split(s, '.');
    var o := IPv4Octets(s);
    forall i | 0 <= i < 4
      ensures NatToString(o[i]) == parts[i]
    {
      NatToStringParse(parts[i]);
    }
    assert OctetStrings(o) == parts;
    JoinSplit(s, '.');
  }

  function ValidateIPv4(s: string): (r: Result<string>)
    ensures r.Ok? <==> IsIPv4(s)
    ensures r.Ok? ==> r.value == s
    ensures r.Err? ==> r.msg == s + " is not an IP address."
  {
    if IsIPv4(s) then Ok(s) else Err(s + " is not an IP address.")
  }

  // ---------------------------------------------------------------- IPv6

  predicate IsHexDigit(c: char) {
    ('0' <= c <= '9') || ('a' <= c <= 'f') || ('A' <= c <= 'F')
  }

  predicate IsGroup(g: string) {
    1 <= |g| <= 4 && forall i :: 0 <= i < |g| ==> IsHexDigit(g[i])
  }

  /** A non-empty run of hex digits of any length. */
  predicate IsHexRun(g: string) {
    1 <= |g| && forall i :: 0 <= i < |g| ==> IsHexDigit(g[i])
  }

  /** Colon-separated hex groups; the empty string is the empty list. */
  predicate IsGroupList(s: string) {
    s == [] || forall i :: 0 <= i < |Split(s, ':')| ==> IsGroup(Split(s, ':')[i])
  }

  function GroupCount(s: string): (r: nat) {
    if s == [] then 0 else |Split(s, ':')|
  }

  predicate NoDoubleColon(s: string) {
    forall k :: 0 <= k < |s| - 1 ==> !(s[k] == ':' && s[k + 1] == ':')
  }

  /** Index of the first "::", or |s|. */
  function DoubleColon(s: string): (r: nat)
    ensures r <= |s|
    ensures r < |s| ==> r + 1 < |s| && s[r] == ':' && s[r + 1] == ':'
    ensures r == |s| <==> NoDoubleColon(s)
    ensures forall k :: 0 <= k < r && k + 1 < |s| ==> !(s[k] == ':' && s[k + 1] == ':')
  {
    if |s| < 2 then |s|
    else if s[0] == ':' && s[1] == ':' then 0
    else
      var k := DoubleColon(s[1..]);
      assert forall j :: 1 <= j < |s| - 1 ==> s[j] == s[1..][j - 1];
      k + 1
  }

  /** Eight groups, or fewer around a single "::". */
  predicate IsIPv6Address(a: string) {
    var i := DoubleColon(a);
    if i < |a| then
      IsGroupList(a[..i]) && IsGroupList(a[i + 2..]) && GroupCount(a[..i]) + GroupCount(a[i + 2..]) <= 7
    else
      IsGroupList(a) && GroupCount(a) == 8
  }

  /** An IPv6 address with an optional "/prefix" of at most 128. */
  predicate IsIPv6(s: string) {
    var j := IndexOf(s, '/');
    if j == |s| then IsIPv6Address(s)
    else IsIPv6Address(s[..j]) && IsDecimal(s[j + 1..]) && ParseNat(s[j + 1..]) <= 128
  }

  function ValidateIPv6(s: string): (r: Result<string>)
    ensures r.Ok? <==> IsIPv6(s)
    ensures r.Ok? ==> r.value == s
    ensures r.Err? ==> r.msg == s + " is not an IPv6 address."
  {
    if IsIPv6(s) then Ok(s) else Err(s + " is not an IPv6 address.")
  }

  /** An optional IPv6 parameter is checked only when it is given. */
  function ValidateOptIPv6(s: Option<string>): (r: Result<Option<string>>)
    ensures r.Ok? <==> (s.Some? ==> IsIPv6(s.value))
    ensures r.Ok? ==> r.value == s
    ensures r.Err? ==> r.msg == s.value + " is not an IPv6 address."
  {
    match s
    case None => Ok(None)
    case Some(v) => if IsIPv6(v) then Ok(s) else Err(v + " is not an IPv6 address.")
  }

  lemma {:induction false} NoDoubleColonInJoin(groups: seq<string>)
    requires |groups| >= 1
    requires forall i :: 0 <= i < |groups| ==> IsHexRun(groups[i])
    ensures NoDoubleColon(Join(groups, ':'))
  {
    if |groups| > 1 {
      var g := groups[0];
      var t := Join(groups[1..], ':');
      NoDoubleColonInJoin(groups[1..]);
      var s := Join(groups, ':');
      assert s == g + [':'] + t;
      assert IsHexRun(g) && IsHexRun(groups[1]);
      assert |t| >= 1 && t[0] == groups[1][0] by {
        if |groups[1..]| > 1 {
          assert t == groups[1] + [':'] + Join(groups[2..], ':');
        }
      }
      assert t[0] != ':' by {
        assert IsHexDigit(groups[1][0]);
      }
      forall k | 0 <= k < |s| - 1
        ensures !(s[k] == ':' && s[k + 1] == ':')
      {
        if k < |g| {
          assert s[k] == g[k];
          assert IsHexDigit(g[k]);
        } else if k > |g| {
          var j := k - |g| - 1;
          assert 0 <= j < |t| - 1;
          assert s[k] == t[j] && s[k + 1] == t[j + 1];
        } else {
          assert s[k + 1] == t[0];
        }
      }
    }
  }

  lemma GroupsHaveNoSeparators(groups: seq<string>)
    requires forall i :: 0 <= i < |groups| ==> IsHexRun(groups[i])
    ensures forall i :: 0 <= i < |groups| ==> ':' !in groups[i] && '/' !in groups[i]
  {
    forall i | 0 <= i < |groups|
      ensures ':' !in groups[i] && '/' !in groups[i]
    {
      assert forall k :: 0 <= k < |groups[i]| ==> IsHexDigit(groups[i][k]);
    }
  }

  lemma IPv6AddressFullForm(groups: seq<string>)
    requires |groups| == 8
    requires forall i :: 0 <= i < 8 ==> IsGroup(groups[i])
    ensures IsIPv6Address(Join(groups, ':'))
    ensures '/' !in Join(groups, ':')
  {
    var a := Join(groups, ':');
    NoDoubleColonInJoin(groups);
    GroupsHaveNoSeparators(groups);
    assert DoubleColon(a) == |a|;
    SplitJoin(groups, ':');
    assert a == groups[0] + [':'] + Join(groups[1..], ':');
    assert a != [];
    CharsOfJoin(groups, ':', '/');
  }

  /** The uncompressed form (eight groups, optionally with a prefix) is
      accepted. */
  lemma IPv6FullForm(groups: seq<string>, prefix: nat)
    requires |groups| == 8
    requires forall i :: 0 <= i < 8 ==> IsGroup(groups[i])
    requires prefix <= 128
    ensures IsIPv6(Join(groups, ':'))
    ensures IsIPv6(Join(groups, ':') + "/" + NatToString(prefix))
  {
    var a := Join(groups, ':');
    IPv6AddressFullForm(groups);
    assert IndexOf(a, '/') == |a|;
    var n := NatToString(prefix);
    var s := a + "/" + n;
    ParseNatToString(prefix);
    assert s[..|a|] == a;
    assert s[|a| + 1..] == n;
    assert s[|a|] == '/';
    assert IndexOf(s, '/') == |a|;
  }

  /** A prefix is accepted exactly when it is at most 128, and a string
      without one is judged by its address alone. */
  lemma IPv6Prefix(a: string, n: nat)
    requires '/' !in a
    ensures IsIPv6(a) <==> IsIPv6Address(a)
    ensures IsIPv6(a + "/" + NatToString(n)) <==> IsIPv6Address(a) && n <= 128
  {
    assert IndexOf(a, '/') == |a|;
    var m := NatToString(n);
    var s := a + "/" + m;
    ParseNatToString(n);
    assert s[..|a|] == a;
    assert s[|a| + 1..] == m;
    assert s[|a|] == '/';
    assert IndexOf(s, '/') == |a|;
  }

  /** Without "::", a colon-separated list of hex runs is accepted exactly
      when it has eight runs of at most four digits: seven or nine groups,
      or a group of five digits, are refused. */
  lemma IPv6Uncompressed(groups: seq<string>)
    requires |groups| >= 1
    requires forall i :: 0 <= i < |groups| ==> IsHexRun(groups[i])
    ensures IsIPv6(Join(groups, ':')) <==> |groups| == 8 && forall i :: 0 <= i < |groups| ==> |groups[i]| <= 4
  {
    var a := Join(groups, ':');
    NoDoubleColonInJoin(groups);
    GroupsHaveNoSeparators(groups);
    CharsOfJoin(groups, ':', '/');
    JoinEnds(groups, ':');
    SplitJoin(groups, ':');
    assert DoubleColon(a) == |a|;
    IPv6Prefix(a, 0);
    assert IsGroupList(a) <==> forall i :: 0 <= i < |groups| ==> IsGroup(groups[i]);
  }

  /** What a join of groups looks like to the address check. */
  lemma JoinedGroups(groups: seq<string>)
    requires forall i :: 0 <= i < |groups| ==> IsGroup(groups[i])
    ensures var s := Join(groups, ':');
      IsGroupList(s) && GroupCount(s) == |groups| && NoDoubleColon(s) && '/' !in s
    ensures var s := Join(groups, ':');
      |groups| >= 1 ==> |s| >= 1 && IsHexDigit(s[0]) && IsHexDigit(s[|s| - 1])
  {
    if |groups| >= 1 {
      var s := Join(groups, ':');
      NoDoubleColonInJoin(groups);
      GroupsHaveNoSeparators(groups);
      CharsOfJoin(groups, ':', '/');
      JoinEnds(groups, ':');
      SplitJoin(groups, ':');
      assert IsGroup(groups[0]) && IsGroup(groups[|groups| - 1]);
    }
  }

  /** Groups on either side of a single "::" are accepted exactly when
      there are at most seven of them, none on either side included. */
  lemma IPv6AddressCompressed(left: seq<string>, right: seq<string>)
    requires forall i :: 0 <= i < |left| ==> IsGroup(left[i])
    requires forall i :: 0 <= i < |right| ==> IsGroup(right[i])
    ensures var a := Join(left, ':') + "::" + Join(right, ':');
      (IsIPv6Address(a) <==> |left| + |right| <= 7) && '/' !in a
  {
    var l, r := Join(left, ':'), Join(right, ':');
    var a := l + "::" + r;
    JoinedGroups(left);
    JoinedGroups(right);
    FirstDoubleColon(l, r);
    assert a[..|l|] == l;
    assert a[|l| + 2..] == r;
  }

  /** The first "::" of `l + "::" + r` is the one written between them
      when `l` holds none and does not end in a colon. */
  lemma FirstDoubleColon(l: string, r: string)
    requires NoDoubleColon(l)
    requires l == [] || l[|l| - 1] != ':'
    ensures DoubleColon(l + "::" + r) == |l|
  {
    var a := l + "::" + r;
    assert a[|l|] == ':' && a[|l| + 1] == ':';
    forall k | 0 <= k < |l|
      ensures !(a[k] == ':' && a[k + 1] == ':')
    {
      if k + 1 < |l| {
        assert a[k] == l[k] && a[k + 1] == l[k + 1];
      } else {
        assert a[k] == l[|l| - 1];
      }
    }
  }

  /** The compressed form, optionally with a prefix, is accepted: for
      example "fe80::1", "::1", "2001:db8::" and "::" itself. */
  lemma IPv6CompressedForm(left: seq<string>, right: seq<string>, prefix: nat)
    requires forall i :: 0 <= i < |left| ==> IsGroup(left[i])
    requires forall i :: 0 <= i < |right| ==> IsGroup(right[i])
    requires |left| + |right| <= 7
    requires prefix <= 128
    ensures IsIPv6(Join(left, ':') + "::" + Join(right, ':'))
    ensures IsIPv6(Join(left, ':') + "::" + Join(right, ':') + "/" + NatToString(prefix))
  {
    var a := Join(left, ':') + "::" + Join(right, ':');
    IPv6AddressCompressed(left, right);
    IPv6Prefix(a, prefix);
  }

  /** A non-empty group list starts with a digit and holds no "::". */
  lemma GroupListShape(s: string)
    ensures IsGroupList(s) && s != [] ==> s[0] != ':' && NoDoubleColon(s)
  {
    if IsGroupList(s) && s != [] {
      var g := Split(s, ':');
      JoinSplit(s, ':');
      assert forall i :: 0 <= i < |g| ==> IsHexRun(g[i]);
      NoDoubleColonInJoin(g);
      JoinEnds(g, ':');
      assert IsGroup(g[0]);
    }
  }

  /** At most one "::": an address with two of them (":::" included) is
      refused. */
  lemma IPv6SingleCompression(a: string, i: nat, j: nat)
    requires i < j && j + 1 < |a|
    requires a[i] == ':' && a[i + 1] == ':' && a[j] == ':' && a[j + 1] == ':'
    ensures !IsIPv6Address(a)
    ensures '/' !in a ==> !IsIPv6(a)
  {
    var d := DoubleColon(a);
    assert d <= i;
    var r := a[d + 2..];
    GroupListShape(r);
    if j == d + 1 {
      assert r[0] == ':';
    } else {
      assert r[j - d - 2] == ':' && r[j - d - 1] == ':';
    }
    assert !IsGroupList(r);
    if '/' !in a {
      IPv6Prefix(a, 0);
    }
  }

  /** A character other than the separator is in a join only if it is in
      one of the pieces; used to show which characters an address holds. */
  lemma {:induction false} CharsOfJoin(parts: seq<string>, c: char, x: char)
    requires x != c
    requires forall i :: 0 <= i < |parts| ==> x !in parts[i]
    ensures x !in Join(parts, c)
  {
    if |parts| > 1 {
      CharsOfJoin(parts[1..], c, x);
    }
  }

  /** The pieces of a split hold every character other than the separator. */
  lemma {:induction false} CharsOfSplit(s: string, c: char, x: char)
    requires x != c
    requires forall i :: 0 <= i < |Split(s, c)| ==> x !in Split(s, c)[i]
    ensures x !in s
  {
    JoinSplit(s, c);
    CharsOfJoin(Split(s, c), c, x);
  }

  /** No string passes both address checks: an IPv4 address holds no colon
      and every IPv6 address does. */
  lemma IPv4IsNotIPv6(s: string)
    ensures IsIPv4(s) ==> ':' !in s
    ensures IsIPv6(s) ==> ':' in s
    ensures !(IsIPv4(s) && IsIPv6(s))
  {
    if IsIPv4(s) {
      var parts := Split(s, '.');
      forall i | 0 <= i < |parts|
        ensures ':' !in parts[i]
      {
        assert AllDigits(parts[i]);
      }
      CharsOfSplit(s, '.', ':');
    }
    if IsIPv6(s) {
      var j := IndexOf(s, '/');
      var a := if j == |s| then s else s[..j];
      assert IsIPv6Address(a);
      var i := DoubleColon(a);
      if i < |a| {
        assert a[i] == ':' && s[i] == a[i];
      } else if ':' !in a {
        SplitNoSeparator(a, ':');
        assert false;
      } else {
        var k :| 0 <= k < |a| && a[k] == ':';
        assert s[k] == ':';
      }
    }
  }

  // ----------------------------------------------------------------- MAC

  predicate IsHexOctet(p: string) {
    |p| == 2 && IsHexDigit(p[0]) && IsHexDigit(p[1])
  }

  /** Six colon-separated two-digit hex octets, in either case. */
  predicate IsMac(s: string) {
    var parts := Split(s, ':');
    |parts| == 6 && forall i :: 0 <= i < 6 ==> IsHexOctet(parts[i])
  }

  function HexValue(c: char): (v: nat)
    requires IsHexDigit(c)
    ensures v < 16
  {
    if '0' <= c <= '9' then c as int - '0' as int
    else if 'a' <= c <= 'f' then c as int - 'a' as int + 10
    else c as int - 'A' as int + 10
  }

  function HexChar(v: nat): (c: char)
    requires v < 16
    ensures IsHexDigit(c) && HexValue(c) == v
  {
    if v < 10 then ('0' as int + v) as char else ('a' as int + v - 10) as char
  }

  function HexOctet(b: nat): (p: string)
    requires b < 256
    ensures IsHexOctet(p)
  {
    [HexChar(b / 16), HexChar(b % 16)]
  }

  function FormatMac(b: seq<nat>): (r: string)
    requires |b| == 6 && forall i :: 0 <= i < 6 ==> b[i] < 256
  {
    Join(seq(6, i requires 0 <= i < 6 => HexOctet(b[i])), ':')
  }

  function MacBytes(s: string): (b: seq<nat>)
    requires IsMac(s)
    ensures |b| == 6 && forall i :: 0 <= i < 6 ==> b[i] < 256
  {
    var p := Split(s, ':');
    seq(6, i requires 0 <= i < 6 => HexValue(p[i][0]) * 16 + HexValue(p[i][1]))
  }

  /** Any six bytes render, lower-case, to an accepted MAC that reads back
      as the same bytes. */
  lemma MacRoundTrip(b: seq<nat>)
    requires |b| == 6 && forall i :: 0 <= i < 6 ==> b[i] < 256
    ensures IsMac(FormatMac(b))
    ensures MacBytes(FormatMac(b)) == b
  {
    var parts := seq(6, i requires 0 <= i < 6 => HexOctet(b[i]));
    forall i | 0 <= i < 6
      ensures ':' !in parts[i]
    {
      assert IsHexDigit(parts[i][0]) && IsHexDigit(parts[i][1]);
    }
    SplitJoin(parts, ':');
  }

  function ValidateMac(s: string): (r: Result<string>)
    ensures r.Ok? <==> IsMac(s)
    ensures r.Ok? ==> r.value == s
    ensures r.Err? ==> r.msg == s + " is not a MAC address."
  {
    if IsMac(s) then Ok(s) else Err(s + " is not a MAC address.")
  }

  // ------------------------------------------------------------- Boolean

  function BoolMessage(p: Param, style: Style): (r: string)
    requires p.PStr?
  {
    if style == Stdlib then "\"" + p.s + "\" is not a boolean." else TypedBoolMessage
  }

  /** Only real booleans pass; any string is refused. */
  function ValidateBool(p: Param, style: Style): (r: Result<bool>)
    ensures r.Ok? <==> p.PBool?
    ensures r.Ok? ==> r.value == p.b
    ensures r.Err? ==> r.msg == BoolMessage(p, style)
  {
    match p
    case PBool(b) => Ok(b)
    case PStr(_) => Err(BoolMessage(p, style))
  }

  /** An optional boolean parameter: absent means its default. */
  function ValidateOptBool(p: Option<Param>, default: bool, style: Style): (r: Result<bool>)
    ensures p.None? ==> r == Ok(default)
    ensures p.Some? ==> r == ValidateBool(p.value, style)
  {
    if p.None? then Ok(default) else ValidateBool(p.value, style)
  }
}
