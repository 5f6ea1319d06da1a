/** Concrete inputs of the two recognisers and of `getParentDomain`. Each
    literal is first written as the join of its dot-separated parts, so the
    verdict follows from the part-wise lemmas below rather than from
    unfolding the split of the literal. */
module ValidatorCases {
  import opened Strings
  import opened Utils

  predicate DotFree(o: seq<string>)
  {
    forall k :: 0 <= k < |o| ==> '.' !in o[k]
  }

  /** An IPv4 literal given by its parts is accepted iff there are four and
      each matches the octet pattern. */
  lemma IPv4OfParts(o: seq<string>)
    requires |o| >= 1 && DotFree(o)
    ensures IsValidIPv4(Join(o, '.')) <==> OctetParts(o)
  {
    SplitJoin(o, '.');
  }

  /** A domain body given by its parts is accepted iff there are at least two,
      all but the last match the label pattern and the last is 2 to 6 letters. */
  lemma BodyOfParts(o: seq<string>)
    requires |o| >= 1 && DotFree(o)
    ensures DomainBody(Join(o, '.')) <==> DomainParts(o)
  {
    SplitJoin(o, '.');
  }

  /** A name behind `*.` is accepted iff the part after the star and dot is a
      domain body: the star is never a label, so the whole name never is one. */
  lemma StarredDomain(b: string)
    ensures IsValidDomain("*." + b) <==> DomainBody(b)
  {
    assert StartsWith("*." + b, "*.");
    assert ("*." + b)[2..] == b;
    StarredSplit(b);
    assert Split("*." + b, '.')[0] == "*";
    assert !LabelPattern("*");
  }

  /** A name not starting with `*.` is accepted iff it is a domain body. */
  lemma UnstarredDomain(s: string)
    requires |s| >= 1 && s[0] != '*'
    ensures IsValidDomain(s) <==> DomainBody(s)
  {
    assert !StartsWith(s, "*.");
  }

  // ---------------------------------------------------------------- IPv4

  lemma JoinPrivate()
    ensures Join(["192", "168", "1", "1"], '.') == "192.168.1.1"
  {
  }

  lemma PrivateOctets()
    ensures OctetParts(["192", "168", "1", "1"]) && DotFree(["192", "168", "1", "1"])
  {
    var o := ["192", "168", "1", "1"];
    assert OctetPattern(o[0]) && OctetPattern(o[1]) && OctetPattern(o[2]) && OctetPattern(o[3]);
  }

  lemma PrivateParts()
    ensures IsValidIPv4(Join(["192", "168", "1", "1"], '.'))
  {
    PrivateOctets();
    IPv4OfParts(["192", "168", "1", "1"]);
  }

  /** "192.168.1.1" is accepted. */
  lemma IPv4AcceptsPrivateAddress()
    ensures IsValidIPv4("192.168.1.1")
  {
    PrivateParts();
    JoinPrivate();
  }

  lemma JoinLeadingZeros()
    ensures Join(["010", "0", "0", "1"], '.') == "010.0.0.1"
  {
  }

  lemma LeadingZerosOctets()
    ensures OctetParts(["010", "0", "0", "1"]) && DotFree(["010", "0", "0", "1"])
  {
    var o := ["010", "0", "0", "1"];
    assert OctetPattern(o[0]) && OctetPattern(o[1]) && OctetPattern(o[2]) && OctetPattern(o[3]);
  }

  lemma LeadingZerosParts()
    ensures IsValidIPv4(Join(["010", "0", "0", "1"], '.'))
  {
    LeadingZerosOctets();
    IPv4OfParts(["010", "0", "0", "1"]);
  }

  /** "010.0.0.1" is accepted: leading zeros are allowed. */
  lemma IPv4AcceptsLeadingZeros()
    ensures IsValidIPv4("010.0.0.1")
  {
    LeadingZerosParts();
    JoinLeadingZeros();
  }

  lemma JoinLargeOctet()
    ensures Join(["256", "1", "1", "1"], '.') == "256.1.1.1"
  {
  }

  /** "256.1.1.1" is rejected: 256 is above the largest octet. */
  lemma IPv4RejectsLargeOctet()
    ensures !IsValidIPv4("256.1.1.1")
  {
    var o := ["256", "1", "1", "1"];
    assert !OctetPattern(o[0]);
    IPv4OfParts(o);
    JoinLargeOctet();
  }

  lemma JoinThreeOctets()
    ensures Join(["1", "2", "3"], '.') == "1.2.3"
  {
  }

  /** "1.2.3" is rejected: three octets. */
  lemma IPv4RejectsThreeOctets()
    ensures !IsValidIPv4("1.2.3")
  {
    IPv4OfParts(["1", "2", "3"]);
    JoinThreeOctets();
  }

  lemma JoinFiveOctets()
    ensures Join(["1", "2", "3", "4", "5"], '.') == "1.2.3.4.5"
  {
  }

  /** "1.2.3.4.5" is rejected: five octets. */
  lemma IPv4RejectsFiveOctets()
    ensures !IsValidIPv4("1.2.3.4.5")
  {
    IPv4OfParts(["1", "2", "3", "4", "5"]);
    JoinFiveOctets();
  }

  // ------------------------------------------------------------- domains

  lemma JoinWildcardName()
    ensures "*." + Join(["example", "com"], '.') == "*.example.com"
  {
  }

  /** "*.example.com" is accepted. */
  lemma DomainAcceptsWildcard()
    ensures IsValidDomain("*.example.com")
  {
    var o := ["example", "com"];
    assert LabelPattern(o[0]) && TldPattern(o[1]);
    BodyOfParts(o);
    StarredDomain(Join(o, '.'));
    JoinWildcardName();
  }

  lemma JoinSingleLabel()
    ensures Join(["example"], '.') == "example"
  {
  }

  /** "example" is rejected: no dot. */
  lemma DomainRejectsSingleLabel()
    ensures !IsValidDomain("example")
  {
    BodyOfParts(["example"]);
    JoinSingleLabel();
    UnstarredDomain("example");
  }

  lemma JoinEmptyLabel()
    ensures "*." + Join(["", "com"], '.') == "*..com"
  {
  }

  /** "*..com" is rejected: an empty label after the wildcard. */
  lemma DomainRejectsEmptyLabel()
    ensures !IsValidDomain("*..com")
  {
    assert !LabelPattern("");
    BodyOfParts(["", "com"]);
    StarredDomain(Join(["", "com"], '.'));
    JoinEmptyLabel();
  }

  lemma JoinBareWildcard()
    ensures "*." + Join(["com"], '.') == "*.com"
  {
  }

  /** "*.com" is rejected: the wildcard needs a label before the final part. */
  lemma DomainRejectsBareWildcard()
    ensures !IsValidDomain("*.com")
  {
    BodyOfParts(["com"]);
    StarredDomain(Join(["com"], '.'));
    JoinBareWildcard();
  }

  lemma JoinLeadingHyphen()
    ensures Join(["-bad", "com"], '.') == "-bad.com"
  {
  }

  /** "-bad.com" is rejected: a label may not start with a hyphen. */
  lemma DomainRejectsLeadingHyphen()
    ensures !IsValidDomain("-bad.com")
  {
    assert !LabelPattern("-bad");
    BodyOfParts(["-bad", "com"]);
    JoinLeadingHyphen();
    UnstarredDomain("-bad.com");
  }

  // ------------------------------------------------------ parent domain

  lemma JoinFourLabels()
    ensures Join(["a", "b", "example", "com"], '.') == "a.b.example.com"
    ensures Join(["b", "example", "com"], '.') == "b.example.com"
  {
  }

  /** "a.b.example.com" has parent "b.example.com". */
  lemma ParentDropsFirstLabel()
    ensures GetParentDomain("a.b.example.com") == "b.example.com"
  {
    var o := ["a", "b", "example", "com"];
    SplitJoin(o, '.');
    assert o[1..] == ["b", "example", "com"];
    JoinFourLabels();
  }

  lemma JoinTwoLabels()
    ensures Join(["example", "com"], '.') == "example.com"
  {
  }

  /** "example.com" is its own parent. */
  lemma ParentKeepsTwoLabels()
    ensures GetParentDomain("example.com") == "example.com"
  {
    SplitJoin(["example", "com"], '.');
    JoinTwoLabels();
  }
}
