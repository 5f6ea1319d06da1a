/** The array searches and the wildcard filter that `src/index.js` applies to
    provider results. */
module Lookup {
  import opened Js
  import opened Provider

  /** `zones.find(zone => zone.name === name)`: the first zone with that name. */
  function FindZone(zones: seq<Zone>, name: string): (r: Opt<Zone>)
    ensures r.Undefined? <==> forall k :: 0 <= k < |zones| ==> zones[k].name != name
    ensures r.Defined? ==> exists k :: 0 <= k < |zones| && zones[k] == r.value
                                       && (forall j :: 0 <= j < k ==> zones[j].name != name)
    ensures r.Defined? ==> r.value.name == name
  {
    if |zones| == 0 then Undefined
    else if zones[0].name == name then Defined(zones[0])
    else
      var r := FindZone(zones[1..], name);
      assert r.Defined? ==> exists k :: 0 <= k < |zones[1..]| && zones[1..][k] == r.value
                                         && (forall j :: 0 <= j < k ==> zones[1..][j].name != name);
      if r.Defined? then
        var k :| 0 <= k < |zones[1..]| && zones[1..][k] == r.value && (forall j :: 0 <= j < k ==> zones[1..][j].name != name);
        assert zones[k + 1] == r.value;
        assert forall j :: 0 <= j < k + 1 ==> zones[j].name != name by {
          forall j | 0 <= j < k + 1 ensures zones[j].name != name {
            if j > 0 { assert zones[j] == zones[1..][j - 1]; }
          }
        }
        r
      else r
  }

  /** `records.find(r => r.id === id)`, where an undefined `id` matches no record. */
  function FindRecord(records: seq<DnsRecord>, id: Opt<string>): (r: Opt<DnsRecord>)
    ensures r.Undefined? <==> id.Undefined? || forall k :: 0 <= k < |records| ==> records[k].id != id.value
    ensures r.Defined? ==> exists k :: 0 <= k < |records| && records[k] == r.value
                                       && (forall j :: 0 <= j < k ==> records[j].id != id.value)
    ensures r.Defined? ==> r.value in records && id == Defined(r.value.id)
  {
    if id.Undefined? || |records| == 0 then Undefined
    else if records[0].id == id.value then Defined(records[0])
    else
      var r := FindRecord(records[1..], id);
      assert r.Undefined? ==> forall k :: 1 <= k < |records| ==> records[k].id != id.value by {
        if r.Undefined? {
          forall k | 1 <= k < |records| ensures records[k].id != id.value {
            assert records[k] == records[1..][k - 1];
          }
        }
      }
      if r.Defined? then
        var k :| 0 <= k < |records[1..]| && records[1..][k] == r.value
                 && (forall j :: 0 <= j < k ==> records[1..][j].id != id.value);
        assert records[k + 1] == r.value;
        assert forall j :: 0 <= j < k + 1 ==> records[j].id != id.value by {
          forall j | 0 <= j < k + 1 ensures records[j].id != id.value {
            if j > 0 { assert records[j] == records[1..][j - 1]; }
          }
        }
        r
      else r
  }

  /** `name.startsWith('*.')`. */
  predicate IsWildcardName(name: string)
  {
    |name| >= 2 && name[0] == '*' && name[1] == '.'
  }

  /** `records.filter(record => record.name.startsWith('*.'))`. */
  function WildcardOnly(records: seq<DnsRecord>): (w: seq<DnsRecord>)
    ensures forall r :: r in w ==> IsWildcardName(r.name)
    ensures |w| <= |records|
  {
    if |records| == 0 then []
    else
      var rest := WildcardOnly(records[1..]);
      if IsWildcardName(records[0].name) then [records[0]] + rest else rest
  }

  /** The filter keeps the wildcard records, each as often as the input holds
      it, and nothing else. */
  lemma {:induction false} WildcardOnlyCounts(records: seq<DnsRecord>)
    ensures forall r :: multiset(WildcardOnly(records))[r] == if IsWildcardName(r.name) then multiset(records)[r] else 0
    decreases |records|
  {
    if |records| > 0 {
      var rest := WildcardOnly(records[1..]);
      WildcardOnlyCounts(records[1..]);
      assert records == [records[0]] + records[1..];
      assert multiset(records) == multiset{records[0]} + multiset(records[1..]);
      if IsWildcardName(records[0].name) {
        assert multiset([records[0]] + rest) == multiset{records[0]} + multiset(rest);
      }
    }
  }

  /** The filter keeps the order of the records it keeps: filtering a
      concatenation concatenates the filtered halves. */
  lemma {:induction false} WildcardOnlyAppend(a: seq<DnsRecord>, b: seq<DnsRecord>)
    ensures WildcardOnly(a + b) == WildcardOnly(a) + WildcardOnly(b)
    decreases |a|
  {
    if |a| == 0 {
      assert a + b == b;
    } else {
      WildcardOnlyAppend(a[1..], b);
      WildcardOnlyAppendStep(a, b);
    }
  }

  /** The inductive step of `WildcardOnlyAppend`. */
  lemma WildcardOnlyAppendStep(a: seq<DnsRecord>, b: seq<DnsRecord>)
    requires |a| > 0
    requires WildcardOnly(a[1..] + b) == WildcardOnly(a[1..]) + WildcardOnly(b)
    ensures WildcardOnly(a + b) == WildcardOnly(a) + WildcardOnly(b)
  {
    var head := if IsWildcardName(a[0].name) then [a[0]] else [];
    var t := a[1..];
    assert WildcardOnly(a) == head + WildcardOnly(t);
    assert WildcardOnly(a + b) == head + WildcardOnly(t + b) by {
      assert (a + b)[0] == a[0];
      assert (a + b)[1..] == t + b;
    }
    PrependAppend(head, WildcardOnly(t), WildcardOnly(b), WildcardOnly(t + b));
  }

  /** Prepending `x` to a concatenation `y + z`. */
  lemma PrependAppend<T>(x: seq<T>, y: seq<T>, z: seq<T>, yz: seq<T>)
    requires yz == y + z
    ensures x + yz == (x + y) + z
  {
  }

  /** A single record is kept iff its name starts with `*.`. */
  lemma WildcardOnlySingle(r: DnsRecord)
    ensures WildcardOnly([r]) == if IsWildcardName(r.name) then [r] else []
  {
    assert [r][1..] == [];
  }

  /** A record survives the filter exactly when it is in the input and its name starts with `*.`. */
  lemma WildcardOnlyMembership(records: seq<DnsRecord>, r: DnsRecord)
    ensures r in WildcardOnly(records) <==> r in records && IsWildcardName(r.name)
  {
    var w := WildcardOnly(records);
    WildcardOnlyCounts(records);
    assert r in w <==> multiset(w)[r] > 0;
    assert r in records <==> multiset(records)[r] > 0;
  }

  /** `WildcardOnly` keeps exactly the wildcard records. */
  lemma WildcardOnlyMembers(records: seq<DnsRecord>)
    ensures forall r :: r in WildcardOnly(records) <==> r in records && IsWildcardName(r.name)
  {
    forall r ensures r in WildcardOnly(records) <==> r in records && IsWildcardName(r.name) {
      WildcardOnlyMembership(records, r);
    }
  }
}
