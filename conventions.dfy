/** Rules every renderer shares: MAC resolution from the facts and the
    numbered keys of secondary addresses. */
module Conventions {
  import opened Wrappers
  import opened Text
  import opened Ifcfg

  // ------------------------------------------------------- MAC resolution

  predicate IsWordChar(c: char) {
    ('a' <= c <= 'z') || ('A' <= c <= 'Z') || ('0' <= c <= '9') || c == '_'
  }

  predicate AllWord(s: string) {
    forall i :: 0 <= i < |s| ==> IsWordChar(s[i])
  }

  /** The base device of a VLAN title `base.tag` (word characters, a dot,
      digits); any other title is its own base. */
  function StripVlan(t: string): (r: string)
    ensures r <= t
  {
    var j := IndexOf(t, '.');
    if 0 < j < |t| - 1 && AllWord(t[..j]) && AllDigits(t[j + 1..]) then t[..j] else t
  }

  lemma StripVlanTagged(base: string, tag: string)
    requires |base| >= 1 && AllWord(base)
    requires |tag| >= 1 && AllDigits(tag)
    ensures StripVlan(base + "." + tag) == base
  {
    var t := base + "." + tag;
    assert '.' !in base by {
      assert forall i :: 0 <= i < |base| ==> IsWordChar(base[i]);
    }
    assert t[..|base|] == base;
    assert t[|base|] == '.';
    assert IndexOf(t, '.') == |base|;
    assert t[|base| + 1..] == tag;
  }

  lemma StripVlanPlain(t: string)
    requires '.' !in t
    ensures StripVlan(t) == t
  {
  }

  /** A MAC parameter wins; otherwise the MAC fact of the base device, when
      the facts have one. */
  function ResolveMac(title: string, param: Option<string>, macs: map<string, string>): (r: Option<string>) {
    if param.Some? then param
    else if StripVlan(title) in macs then Some(macs[StripVlan(title)])
    else None
  }

  lemma MacOverride(title: string, param: Option<string>, macs: map<string, string>)
    ensures param.Some? ==> ResolveMac(title, param, macs) == param
    ensures param.None? && title in macs && '.' !in title ==> ResolveMac(title, param, macs) == Some(macs[title])
    ensures param.None? ==> (ResolveMac(title, param, macs) == None <==> StripVlan(title) !in macs)
  {
  }

  /** A VLAN device takes the MAC of its base device. */
  lemma VlanMac(base: string, tag: string, macs: map<string, string>)
    requires |base| >= 1 && AllWord(base)
    requires |tag| >= 1 && AllDigits(tag)
    requires base in macs
    ensures ResolveMac(base + "." + tag, None, macs) == Some(macs[base])
  {
    StripVlanTagged(base, tag);
  }

  // ---------------------------------------------------- secondary addresses

  /** One entry of a static interface's `aliases` list. */
  datatype Secondary = Secondary(ipaddr: Option<string>, netmask: Option<string>, prefix: Option<string>)

  /** The fields of one entry numbered `n`. */
  function EntryFields(e: Secondary, n: nat): (r: seq<Field>) {
    [Field(IPADDRn(n), e.ipaddr), Field(NETMASKn(n), e.netmask), Field(PREFIXn(n), e.prefix)]
  }

  /** The entries of `s`, numbered from `n`. */
  function SecondaryFields(s: seq<Secondary>, n: nat): (r: seq<Field>) {
    if s == [] then [] else EntryFields(s[0], n) + SecondaryFields(s[1..], n + 1)
  }

  /** A key of one entry: IPADDR, NETMASK or PREFIX with the entry's number. */
  predicate EntryKey(k: Key, i: nat) {
    k == IPADDRn(i) || k == NETMASKn(i) || k == PREFIXn(i)
  }

  /** A key of some entry, whatever its number. */
  predicate SecondaryKey(k: Key) {
    k.IPADDRn? || k.NETMASKn? || k.PREFIXn?
  }

  /** The value an entry supplies for the key `k` of its number, if any. */
  function EntryValue(e: Secondary, k: Key): (r: Option<string>) {
    if k.IPADDRn? then e.ipaddr else if k.NETMASKn? then e.netmask else e.prefix
  }

  /** Every field of the list is a numbered address key whose number lies
      within the list's range: there are no extra indices. */
  lemma {:induction false} SecondaryKeys(s: seq<Secondary>, n: nat)
    ensures forall i :: 0 <= i < |SecondaryFields(s, n)| ==>
      SecondaryKey(SecondaryFields(s, n)[i].key) && n <= SecondaryFields(s, n)[i].key.n < n + |s|
  {
    if s != [] {
      SecondaryKeys(s[1..], n + 1);
      var head, tail := EntryFields(s[0], n), SecondaryFields(s[1..], n + 1);
      var fs := SecondaryFields(s, n);
      assert fs == head + tail;
      forall i | 0 <= i < |fs|
        ensures SecondaryKey(fs[i].key) && n <= fs[i].key.n < n + |s|
      {
        if i >= |head| {
          assert fs[i] == tail[i - |head|];
        }
      }
    }
  }

  /** The fields of one entry give its own three keys as the entry says,
      and nothing else. */
  lemma {:induction false} EntryGather(e: Secondary, n: nat, k: Key)
    ensures Gather(EntryFields(e, n), k) == if EntryKey(k, n) then Listed(EntryValue(e, k)) else []
  {
    var fs := EntryFields(e, n);
    if k == IPADDRn(n) {
      GatherOnly(fs, 0, k);
    } else if k == NETMASKn(n) {
      GatherOnly(fs, 1, k);
    } else if k == PREFIXn(n) {
      GatherOnly(fs, 2, k);
    } else {
      GatherNone(fs, k);
    }
  }

  /** Entry i (0-based) of the list numbered from `n` gives exactly the
      keys `IPADDR<n+i>`, `NETMASK<n+i>` and `PREFIX<n+i>` it supplies. */
  lemma {:induction false} SecondaryEntry(s: seq<Secondary>, n: nat, i: nat, k: Key)
    requires i < |s| && EntryKey(k, n + i)
    ensures Gives(SecondaryFields(s, n), k, EntryValue(s[i], k))
    decreases i
  {
    if i == 0 {
      SecondaryFirst(s, n, k);
    } else {
      var rest := s[1..];
      assert rest[i - 1] == s[i];
      assert EntryKey(k, (n + 1) + (i - 1));
      SecondaryEntry(rest, n + 1, i - 1, k);
      SecondaryLater(s, n, k, n + i);
    }
  }

  /** The first entry gives its own keys. */
  lemma SecondaryFirst(s: seq<Secondary>, n: nat, k: Key)
    requires s != [] && EntryKey(k, n)
    ensures Gives(SecondaryFields(s, n), k, EntryValue(s[0], k))
  {
    var head, tail := Gather(EntryFields(s[0], n), k), Gather(SecondaryFields(s[1..], n + 1), k);
    SecondarySplit(s, n, k);
    EntryGather(s[0], n, k);
    SecondaryOutside(s[1..], n + 1, k, n);
    assert tail == [];
    assert head + tail == head;
  }

  /** A key of a later entry is given by the rest of the list alone. */
  lemma SecondaryLater(s: seq<Secondary>, n: nat, k: Key, m: nat)
    requires s != [] && EntryKey(k, m) && m != n
    ensures Gather(SecondaryFields(s, n), k) == Gather(SecondaryFields(s[1..], n + 1), k)
  {
    var head, tail := Gather(EntryFields(s[0], n), k), Gather(SecondaryFields(s[1..], n + 1), k);
    SecondarySplit(s, n, k);
    SecondaryOutsideEntry(s[0], n, k, m);
    assert head == [];
    assert head + tail == tail;
  }

  /** A non-empty list gives what its first entry and the rest give. */
  lemma SecondarySplit(s: seq<Secondary>, n: nat, k: Key)
    requires s != []
    ensures Gather(SecondaryFields(s, n), k) == Gather(EntryFields(s[0], n), k) + Gather(SecondaryFields(s[1..], n + 1), k)
  {
    assert SecondaryFields(s, n) == EntryFields(s[0], n) + SecondaryFields(s[1..], n + 1);
    GatherAppend(EntryFields(s[0], n), SecondaryFields(s[1..], n + 1), k);
  }

  /** An entry gives nothing for another number. */
  lemma SecondaryOutsideEntry(e: Secondary, n: nat, k: Key, m: nat)
    requires EntryKey(k, m) && m != n
    ensures Gather(EntryFields(e, n), k) == []
  {
    assert !EntryKey(k, n);
    EntryGather(e, n, k);
  }

  /** No number outside the list's range is given. */
  lemma {:induction false} SecondaryOutside(s: seq<Secondary>, n: nat, k: Key, m: nat)
    requires EntryKey(k, m) && (m < n || n + |s| <= m)
    ensures Gather(SecondaryFields(s, n), k) == []
    decreases |s|
  {
    if s != [] {
      var rest := s[1..];
      assert m < n + 1 || (n + 1) + |rest| <= m;
      calc {
        Gather(SecondaryFields(s, n), k);
        == { SecondaryLater(s, n, k, m); }
        Gather(SecondaryFields(rest, n + 1), k);
        == { SecondaryOutside(rest, n + 1, k, m); }
        [];
      }
    }
  }
}
