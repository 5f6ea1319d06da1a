/** The pure string helpers of `src/utils.js`: the IPv4 and domain-name
    recognisers (regular expressions in the source, written out here as
    predicates) and the two label-dropping helpers. */
module Utils {
  import opened Strings

  // ---------------------------------------------------------------- IPv4

  /** One octet of the IPv4 expression, `25[0-5] | 2[0-4][0-9] | [01]?[0-9][0-9]?`,
      alternative by alternative (the last one unfolded into its three lengths). */
  predicate OctetPattern(t: string)
  {
    || (|t| == 3 && t[0] == '2' && t[1] == '5' && '0' <= t[2] <= '5')
    || (|t| == 3 && t[0] == '2' && '0' <= t[1] <= '4' && IsDigit(t[2]))
    || (|t| == 1 && IsDigit(t[0]))
    || (|t| == 2 && IsDigit(t[0]) && IsDigit(t[1]))
    || (|t| == 3 && (t[0] == '0' || t[0] == '1') && IsDigit(t[1]) && IsDigit(t[2]))
  }

  /** `Utils.isValidIPv4`: four octets separated by dots and nothing else.
      Octets contain no dot, so the four pieces the expression matches are
      exactly the pieces of `split('.')`. */
  predicate IsValidIPv4(s: string)
  {
    OctetParts(Split(s, '.'))
  }

  /** Exactly four pieces, each matching the octet pattern. */
  predicate OctetParts(parts: seq<string>)
  {
    |parts| == 4 && forall k :: 0 <= k < 4 ==> OctetPattern(parts[k])
  }

  predicate AllDigits(t: string)
  {
    forall k :: 0 <= k < |t| ==> IsDigit(t[k])
  }

  /** The decimal value of a run of ASCII digits. */
  function DecimalValue(t: string): (v: nat)
    requires AllDigits(t)
  {
    if |t| == 0 then 0
    else 10 * DecimalValue(t[..|t| - 1]) + (t[|t| - 1] as int - '0' as int)
  }

  /** The reference notion of an octet: one to three ASCII digits whose value
      is at most 255, leading zeros allowed. */
  predicate IsOctet(t: string)
  {
    1 <= |t| <= 3 && AllDigits(t) && DecimalValue(t) <= 255
  }

  /** The value of a three-digit run, digit by digit. */
  lemma DecimalValueOfThree(t: string)
    requires |t| == 3 && AllDigits(t)
    ensures DecimalValue(t) == 100 * (t[0] as int - 48) + 10 * (t[1] as int - 48) + (t[2] as int - 48)
  {
    var t1, t2 := t[..1], t[..2];
    assert t1[..0] == [] && t1[0] == t[0];
    assert DecimalValue(t1) == t[0] as int - 48;
    assert t2[..1] == t1 && t2[1] == t[1];
    assert DecimalValue(t2) == 10 * DecimalValue(t1) + (t[1] as int - 48);
    assert t[..|t| - 1] == t2;
  }

  /** The expression's octet alternatives accept exactly the reference octets. */
  lemma OctetPatternIsOctet(t: string)
    ensures OctetPattern(t) <==> IsOctet(t)
  {
    if |t| == 3 && AllDigits(t) {
      DecimalValueOfThree(t);
    } else if |t| == 2 && AllDigits(t) {
      assert t[..1][..0] == [];
      assert DecimalValue(t[..1]) == t[0] as int - 48;
      assert DecimalValue(t) <= 99;
    } else if |t| == 1 && AllDigits(t) {
      assert t[..0] == [];
    }
  }

  /** Reference definition: `s` is four reference octets joined by dots. */
  ghost predicate IsDottedQuad(s: string)
  {
    exists octets: seq<string> ::
      |octets| == 4 && (forall k :: 0 <= k < 4 ==> IsOctet(octets[k])) && s == Join(octets, '.')
  }

  /** `isValidIPv4` accepts exactly the strings made of four octets of one to
      three digits with value at most 255, separated by single dots. */
  lemma IPv4Characterisation(s: string)
    ensures IsValidIPv4(s) <==> IsDottedQuad(s)
  {
    var parts := Split(s, '.');
    if IsValidIPv4(s) {
      SplitJoinsBack(s, '.');
      forall k | 0 <= k < 4 ensures IsOctet(parts[k]) {
        OctetPatternIsOctet(parts[k]);
      }
      assert |parts| == 4 && s == Join(parts, '.');
    }
    if IsDottedQuad(s) {
      var octets: seq<string> :| |octets| == 4 && (forall k :: 0 <= k < 4 ==> IsOctet(octets[k])) && s == Join(octets, '.');
      forall k | 0 <= k < 4 ensures '.' !in octets[k] && OctetPattern(octets[k]) {
        OctetPatternIsOctet(octets[k]);
        assert forall m :: 0 <= m < |octets[k]| ==> IsDigit(octets[k][m]);
      }
      SplitJoin(octets, '.');
    }
  }

  /** An accepted address consists of digits and exactly three dots. */
  lemma IPv4Shape(s: string)
    requires IsValidIPv4(s)
    ensures forall k :: 0 <= k < |s| ==> IsDigit(s[k]) || s[k] == '.'
    ensures multiset(s)['.'] == 3
  {
    var parts := Split(s, '.');
    SplitCount(s, '.');
    SplitJoinsBack(s, '.');
    forall j | 0 <= j < |parts| ensures AllDigits(parts[j]) {
      OctetPatternIsOctet(parts[j]);
    }
    forall k | 0 <= k < |s| ensures IsDigit(s[k]) || s[k] == '.' {
      JoinChars(parts, '.', k);
    }
  }

  // ------------------------------------------------------------- domains

  /** One label of the domain expression, `[a-zA-Z0-9]([a-zA-Z0-9\-]{0,61}[a-zA-Z0-9])?`:
      a single letter or digit, or 2 to 63 characters with letters or digits
      at both ends and letters, digits or hyphens in between. */
  predicate LabelPattern(l: string)
  {
    || (|l| == 1 && IsAlnum(l[0]))
    || (2 <= |l| <= 63 && IsAlnum(l[0]) && IsAlnum(l[|l| - 1])
        && forall k :: 1 <= k < |l| - 1 ==> IsAlnum(l[k]) || l[k] == '-')
  }

  /** The final part of the domain expression, `[a-zA-Z]{2,6}`. */
  predicate TldPattern(t: string)
  {
    2 <= |t| <= 6 && forall k :: 0 <= k < |t| ==> IsLetter(t[k])
  }

  /** `([label]\.)+[tld]`: at least one label, each followed by a dot, then the
      final letters. No part contains a dot, so the parts are those of `split('.')`. */
  predicate DomainBody(b: string)
  {
    DomainParts(Split(b, '.'))
  }

  /** At least two pieces: labels, then the final letters. */
  predicate DomainParts(parts: seq<string>)
  {
    && |parts| >= 2
    && (forall k :: 0 <= k < |parts| - 1 ==> LabelPattern(parts[k]))
    && TldPattern(parts[|parts| - 1])
  }

  /** `Utils.isValidDomain`: the body, optionally preceded by `*.`. */
  predicate IsValidDomain(s: string)
  {
    DomainBody(s) || (StartsWith(s, "*.") && DomainBody(s[2..]))
  }

  /** Reference notion of a label: 1 to 63 letters, digits or hyphens, not
      starting or ending with a hyphen. */
  predicate IsLabel(l: string)
  {
    && 1 <= |l| <= 63
    && (forall k :: 0 <= k < |l| ==> IsAlnum(l[k]) || l[k] == '-')
    && l[0] != '-' && l[|l| - 1] != '-'
  }

  lemma LabelPatternIsLabel(l: string)
    ensures LabelPattern(l) <==> IsLabel(l)
  {
  }

  /** Labels and a final part, joined by dots, as the expression reads them. */
  ghost predicate IsLabelsAndTld(labels: seq<string>, tld: string)
  {
    && |labels| >= 1
    && (forall k :: 0 <= k < |labels| ==> IsLabel(labels[k]))
    && TldPattern(tld)
  }

  /** Reference definition of an unprefixed domain name: some labels and a
      final 2 to 6 letter part, joined by dots. */
  ghost predicate IsPlainDomainName(b: string)
  {
    exists labels: seq<string>, tld: string :: IsLabelsAndTld(labels, tld) && b == Join(labels + [tld], '.')
  }

  /** Reference definition: a plain domain name, optionally preceded by `*.`. */
  ghost predicate IsDomainName(s: string)
  {
    IsPlainDomainName(s) || (StartsWith(s, "*.") && IsPlainDomainName(s[2..]))
  }

  lemma DomainBodyHasLabels(b: string)
    requires DomainBody(b)
    ensures IsPlainDomainName(b)
  {
    var parts := Split(b, '.');
    assert DomainParts(parts);
    var labels, tld := parts[..|parts| - 1], parts[|parts| - 1];
    LabelsOfParts(parts);
    assert labels + [tld] == parts;
    SplitJoinsBack(b, '.');
    assert IsLabelsAndTld(labels, tld) && b == Join(labels + [tld], '.');
  }

  lemma LabelsOfParts(parts: seq<string>)
    requires DomainParts(parts)
    ensures IsLabelsAndTld(parts[..|parts| - 1], parts[|parts| - 1])
  {
    var labels := parts[..|parts| - 1];
    forall k | 0 <= k < |labels| ensures IsLabel(labels[k]) {
      assert LabelPattern(parts[k]);
      LabelPatternIsLabel(labels[k]);
    }
  }

  lemma LabelsMakeDomainBody(labels: seq<string>, tld: string)
    requires IsLabelsAndTld(labels, tld)
    ensures DomainBody(Join(labels + [tld], '.'))
  {
    var ps := labels + [tld];
    forall k | 0 <= k < |ps| ensures '.' !in ps[k] {
      if k < |labels| {
        assert IsLabel(labels[k]);
        assert forall m :: 0 <= m < |labels[k]| ==> labels[k][m] != '.';
      } else {
        assert ps[k] == tld;
      }
    }
    SplitJoin(ps, '.');
    forall k | 0 <= k < |ps| - 1 ensures LabelPattern(ps[k]) {
      assert ps[k] == labels[k];
      LabelPatternIsLabel(labels[k]);
    }
  }

  lemma DomainBodyCharacterisation(b: string)
    ensures DomainBody(b) <==> IsPlainDomainName(b)
  {
    if DomainBody(b) {
      DomainBodyHasLabels(b);
    }
    if IsPlainDomainName(b) {
      var labels: seq<string>, tld: string :| IsLabelsAndTld(labels, tld) && b == Join(labels + [tld], '.');
      LabelsMakeDomainBody(labels, tld);
    }
  }

  /** `isValidDomain` accepts exactly the optional `*.` followed by one or more
      labels, each followed by a dot, and a 2 to 6 letter final part. */
  lemma DomainCharacterisation(s: string)
    ensures IsValidDomain(s) <==> IsDomainName(s)
  {
    DomainBodyCharacterisation(s);
    if StartsWith(s, "*.") {
      DomainBodyCharacterisation(s[2..]);
    }
  }

  /** An accepted domain contains a dot and none of its dot-separated parts is empty. */
  lemma DomainShape(s: string)
    requires IsValidDomain(s)
    ensures '.' in s
    ensures forall k :: 0 <= k < |Split(s, '.')| ==> Split(s, '.')[k] != []
  {
    if DomainBody(s) {
      BodyShape(s);
    } else {
      StarredShape(s);
    }
  }

  lemma StarredShape(s: string)
    requires StartsWith(s, "*.") && DomainBody(s[2..])
    ensures '.' in s
    ensures forall k :: 0 <= k < |Split(s, '.')| ==> Split(s, '.')[k] != []
  {
    var b := s[2..];
    BodyShape(b);
    StarPrefix(s);
    StarredSplit(b);
    NonEmptyCons("*", Split(b, '.'));
  }

  lemma StarPrefix(s: string)
    requires StartsWith(s, "*.")
    ensures s == "*." + s[2..] && s[1] == '.'
  {
    assert s[..2] == "*.";
  }

  lemma NonEmptyCons(x: string, ps: seq<string>)
    requires x != [] && forall k :: 0 <= k < |ps| ==> ps[k] != []
    ensures forall k :: 0 <= k < |[x] + ps| ==> ([x] + ps)[k] != []
  {
    forall k | 0 <= k < |[x] + ps| ensures ([x] + ps)[k] != [] {
      if k > 0 {
        assert ([x] + ps)[k] == ps[k - 1];
      }
    }
  }

  lemma StarredSplit(b: string)
    ensures Split("*." + b, '.') == ["*"] + Split(b, '.')
  {
    var star: string := "*";
    assert "*." + b == star + ['.'] + b;
    SplitCons(star, '.', b);
  }

  lemma BodyShape(b: string)
    requires DomainBody(b)
    ensures '.' in b
    ensures forall k :: 0 <= k < |Split(b, '.')| ==> Split(b, '.')[k] != []
  {
    assert DomainParts(Split(b, '.'));
    DomainPartsNonEmpty(Split(b, '.'));
    DotBetweenParts(b);
  }

  lemma DomainPartsNonEmpty(parts: seq<string>)
    requires DomainParts(parts)
    ensures forall k :: 0 <= k < |parts| ==> parts[k] != []
  {
    forall k | 0 <= k < |parts| ensures parts[k] != [] {
      if k < |parts| - 1 {
        assert LabelPattern(parts[k]);
      } else {
        assert TldPattern(parts[k]);
      }
    }
  }

  lemma DotBetweenParts(b: string)
    requires |Split(b, '.')| >= 2
    ensures '.' in b
  {
    SplitCount(b, '.');
    assert multiset(b)['.'] > 0;
  }

  // ---------------------------------------------------- label helpers

  /** `Utils.getParentDomain`: drops the leftmost label when there are more
      than two dot-separated parts, and otherwise returns its input. */
  function GetParentDomain(s: string): (p: string)
  {
    var parts := Split(s, '.');
    if |parts| > 2 then Join(parts[1..], '.') else s
  }

  /** The parent domain is a suffix of its input: the text after the first
      dot, whose parts are the input's without the first, when there are more
      than two parts, and the input itself otherwise. */
  lemma ParentDomainSpec(s: string)
    ensures var r := GetParentDomain(s);
      && |r| <= |s| && r == s[|s| - |r|..]
      && (|Split(s, '.')| > 2 ==> '.' in s && r == s[IndexOf(s, '.') + 1..])
      && (|Split(s, '.')| > 2 ==> Split(r, '.') == Split(s, '.')[1..])
      && (|Split(s, '.')| <= 2 ==> r == s)
  {
    if |Split(s, '.')| > 2 {
      ParentOfLong(s);
    }
  }

  lemma ParentOfLong(s: string)
    requires |Split(s, '.')| > 2
    ensures '.' in s
    ensures GetParentDomain(s) == s[IndexOf(s, '.') + 1..]
    ensures Split(GetParentDomain(s), '.') == Split(s, '.')[1..]
  {
    SplitCount(s, '.');
    assert '.' in s;
    var tail := s[IndexOf(s, '.') + 1..];
    SplitTail(s, '.');
    SplitJoinsBack(tail, '.');
    assert GetParentDomain(s) == Join(Split(tail, '.'), '.');
  }

  /** After dropping a label there are still at least two parts, one fewer than before. */
  lemma ParentDomainParts(s: string)
    requires |Split(s, '.')| > 2
    ensures |Split(GetParentDomain(s), '.')| == |Split(s, '.')| - 1 >= 2
  {
    ParentDomainSpec(s);
  }

  /** `Utils.extractWildcardSubdomain`: for `*.<label>.<rest>` the leading
      `*.<label>`, and otherwise the input. */
  function ExtractWildcardSubdomain(s: string): (r: string)
    ensures StartsWith(s, r)
    ensures r != s <==> |Split(s, '.')| > 2 && Split(s, '.')[0] == "*"
    ensures r != s ==> StartsWith(r, "*.") && '.' !in r[2..]
  {
    var parts := Split(s, '.');
    if |parts| > 2 && parts[0] == "*" then
      StarredPrefix(s);
      "*." + parts[1]
    else s
  }

  /** With more than two parts and a leading `*`, the input starts with `*.`
      and the separator-free second part. */
  lemma StarredPrefix(s: string)
    requires |Split(s, '.')| > 2 && Split(s, '.')[0] == "*"
    ensures var r := "*." + Split(s, '.')[1];
      StartsWith(s, r) && r != s && '.' !in r[2..]
  {
    var parts := Split(s, '.');
    var r, g := "*." + parts[1], Join(parts[2..], '.');
    StarredDecomposition(s);
    ConcatStartsWith(r, "." + g);
    assert r[2..] == parts[1];
  }

  lemma StarredDecomposition(s: string)
    requires |Split(s, '.')| > 2 && Split(s, '.')[0] == "*"
    ensures var parts := Split(s, '.');
      && s == ("*." + parts[1]) + ("." + Join(parts[2..], '.'))
      && '.' !in parts[1]
  {
    var parts := Split(s, '.');
    SplitJoinsBack(s, '.');
    JoinFirstTwo(parts, '.');
    SplitSeparatorFree(s, '.');
    assert '.' !in parts[1];
    StarConcat(parts[1], Join(parts[2..], '.'));
  }

  lemma ConcatStartsWith(a: string, b: string)
    ensures StartsWith(a + b, a)
  {
    assert (a + b)[..|a|] == a;
  }

  /** With at least four parts and a leading `*`, the extracted wildcard
      fragment followed by a dot and the grandparent domain rebuilds the input. */
  lemma {:induction false} WildcardReassembly(s: string)
    requires |Split(s, '.')| > 3 && Split(s, '.')[0] == "*"
    ensures ExtractWildcardSubdomain(s) + "." + GetParentDomain(GetParentDomain(s)) == s
  {
    var parts := Split(s, '.');
    var g := Grandparent(s);
    var e := ExtractWildcardSubdomain(s);
    assert e == "*." + parts[1];
    SplitJoinsBack(s, '.');
    JoinFirstTwo(parts, '.');
    assert s == "*" + ['.'] + parts[1] + ['.'] + g;
    StarConcat(parts[1], g);
  }

  lemma StarConcat(b: string, g: string)
    ensures ("*." + b) + "." + g == "*" + ['.'] + b + ['.'] + g
  {
  }

  /** On a name with at least three parts and a leading `*`, the extracted
      fragment is the name up to, not including, its second dot. */
  lemma ExtractValue(s: string)
    requires |Split(s, '.')| > 2 && Split(s, '.')[0] == "*"
    ensures |s| >= 2 && '.' in s[2..]
    ensures ExtractWildcardSubdomain(s) == s[..2 + IndexOf(s[2..], '.')]
  {
    var parts := Split(s, '.');
    StarredDecomposition(s);
    var g := Join(parts[2..], '.');
    assert s[2..] == parts[1] + ("." + g);
    assert s[2..][|parts[1]|] == '.';
    assert s[2..][..|parts[1]|] == parts[1];
    IndexOfIsFirst(s[2..], '.', |parts[1]|);
    assert s[..2 + |parts[1]|] == "*." + parts[1];
  }

  /** The grandparent of a domain with at least four parts is the join of its parts from the third on. */
  lemma {:induction false} Grandparent(s: string) returns (g: string)
    requires |Split(s, '.')| > 3
    ensures g == GetParentDomain(GetParentDomain(s)) == Join(Split(s, '.')[2..], '.')
  {
    var parts := Split(s, '.');
    var p := GetParentDomain(s);
    ParentDomainSpec(s);
    assert Split(p, '.') == parts[1..];
    g := GetParentDomain(p);
    assert Split(g, '.') == parts[1..][1..];
    assert parts[1..][1..] == parts[2..];
  }
}
