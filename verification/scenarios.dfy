/** Conversations: the add flow end to end for any inputs that pass its
    checks, and the crash a type button pressed too early causes. */
module Scenarios {
  import opened Js
  import opened Strings
  import opened Utils
  import opened Provider
  import opened Lookup
  import opened Conversation
  import opened Runs

  /** The add flow as a user clicks and types it, choosing an A record with the proxy on. */
  function AddFlow(u: UserId, domain: string, sub: string, address: string, rp: Replies): (inputs: seq<Input>)
  {
    [Input(u, Button("add_wildcard_record"), rp)]
    + ([Input(u, Text(domain), rp)]
    + ([Input(u, Text(sub), rp)]
    + ([Input(u, Button("add_type_A"), rp)]
    + ([Input(u, Text(address), rp)]
    + [Input(u, Button("add_proxy_yes"), rp)]))))
  }

  /** What the add flow has collected once the type is chosen. */
  function Collected(domain: string, sub: string): (d: SessionData)
  {
    NoData.(domain := Defined(domain), wildcardSubdomain := Defined(sub), recordType := Defined("A"))
  }

  /** The provider answers the add flow expects: the domain's zone is found,
      no record of the name exists yet, and the write succeeds. */
  predicate Cooperative(rp: Replies, domain: string, zone: string)
  {
    GetZoneId(rp.zones, Defined(domain)) == ZoneFound(zone) && zone != "" && rp.records == Ok([]) && rp.writeOk
  }

  lemma MenuStep(s: Store, u: UserId, rp: Replies)
    ensures HandleUpdate([], s, u, Button("add_wildcard_record"), rp)
         == Outcome(s[u := Session(WaitingForZoneForAdd, Undefined)], [], Handled(Prompt))
  {
  }

  lemma DomainStep(s: Store, u: UserId, domain: string, rp: Replies)
    requires u in s && s[u] == Session(WaitingForZoneForAdd, Undefined)
    ensures HandleUpdate([], s, u, Text(domain), rp)
         == Outcome(s[u := Session(WaitingForWildcardSubdomain, Defined(NoData.(domain := Defined(Trim(domain)))))], [], Handled(Prompt))
  {
    assert HandleUpdate([], s, u, Text(domain), rp) == HandleText(s, u, domain, rp);
  }

  lemma SubdomainStep(s: Store, u: UserId, domain: string, sub: string, rp: Replies)
    requires u in s && s[u] == Session(WaitingForWildcardSubdomain, Defined(NoData.(domain := Defined(domain))))
    ensures HandleUpdate([], s, u, Text(sub), rp)
         == Outcome(s[u := Session(WaitingForRecordType, Defined(Collected(domain, Trim(sub)).(recordType := Undefined)))], [], Handled(Prompt))
  {
    assert HandleUpdate([], s, u, Text(sub), rp) == HandleText(s, u, sub, rp);
  }

  lemma TypeStep(s: Store, u: UserId, domain: string, sub: string, rp: Replies)
    requires u in s && s[u] == Session(WaitingForRecordType, Defined(Collected(domain, sub).(recordType := Undefined)))
    ensures HandleUpdate([], s, u, Button("add_type_A"), rp)
         == Outcome(s[u := Session(WaitingForContentA, Defined(Collected(domain, sub)))], [], Handled(Prompt))
  {
  }

  lemma TextInContentA(s: Store, u: UserId, message: string, rp: Replies)
    requires u in s && s[u].step == WaitingForContentA
    ensures HandleUpdate([], s, u, Text(message), rp) == AddRecordA(s, u, Trim(message), rp)
  {
    assert HandleUpdate([], s, u, Text(message), rp) == HandleText(s, u, message, rp);
  }

  lemma ValidAddress(s: Store, u: UserId, d: SessionData, address: string, rp: Replies)
    requires u in s && s[u].data == Defined(d) && IsValidIPv4(address)
    ensures AddRecordA(s, u, address, rp) == StageContent(s, u, d, GetZoneId(rp.zones, d.domain), address, rp)
  {
  }

  /** With a valid address, the content handler reaches the shared staging step. */
  lemma AddressAccepted(s: Store, u: UserId, domain: string, sub: string, address: string, rp: Replies)
    requires u in s && s[u] == Session(WaitingForContentA, Defined(Collected(domain, sub)))
    requires IsValidIPv4(Trim(address))
    ensures HandleUpdate([], s, u, Text(address), rp) == StageContent(s, u, Collected(domain, sub), GetZoneId(rp.zones, Defined(domain)), Trim(address), rp)
  {
    TextInContentA(s, u, address, rp);
    ValidAddress(s, u, Collected(domain, sub), Trim(address), rp);
  }

  lemma AddressStaged(s: Store, u: UserId, domain: string, sub: string, content: string, zone: string, rp: Replies)
    requires u in s && s[u] == Session(WaitingForContentA, Defined(Collected(domain, sub)))
    requires Cooperative(rp, domain, zone)
    ensures StageContent(s, u, Collected(domain, sub), ZoneFound(zone), content, rp)
         == Outcome(s[u := Session(WaitingForContentA, Defined(Collected(domain, sub).(content := Defined(content))))],
                    [GetZones, GetRecords(zone, OnlyType("A"), FullWildcardName(Defined(sub), domain))], Handled(Prompt))
  {
  }

  lemma AddressStep(s: Store, u: UserId, domain: string, sub: string, address: string, zone: string, rp: Replies)
    requires u in s && s[u] == Session(WaitingForContentA, Defined(Collected(domain, sub)))
    requires IsValidIPv4(Trim(address)) && Cooperative(rp, domain, zone)
    ensures HandleUpdate([], s, u, Text(address), rp)
         == Outcome(s[u := Session(WaitingForContentA, Defined(Collected(domain, sub).(content := Defined(Trim(address)))))],
                    [GetZones, GetRecords(zone, OnlyType("A"), FullWildcardName(Defined(sub), domain))], Handled(Prompt))
  {
    AddressAccepted(s, u, domain, sub, address, rp);
    AddressStaged(s, u, domain, sub, Trim(address), zone, rp);
  }

  lemma ProxyYesDispatch(s: Store, u: UserId, callbackData: string, rp: Replies)
    requires ParseAction(callbackData) == Defined(AddProxyYes)
    ensures HandleButton(s, u, callbackData, rp) == FinalizeAddRecord(s, u, true, rp)
  {
  }

  lemma ProxyStep(s: Store, u: UserId, domain: string, sub: string, address: string, zone: string, rp: Replies)
    requires u in s && s[u] == Session(WaitingForContentA, Defined(Collected(domain, sub).(content := Defined(address))))
    requires Cooperative(rp, domain, zone)
    ensures HandleUpdate([], s, u, Button("add_proxy_yes"), rp)
         == Outcome(s - {u}, [GetZones, CreateRecord(zone, Body(Defined("A"), FullWildcardName(Defined(sub), domain), Defined(address), true, DefaultTtl))], Handled(Succeeded))
  {
    assert HandleUpdate([], s, u, Button("add_proxy_yes"), rp) == HandleButton(s, u, "add_proxy_yes", rp);
    assert Tag(AddProxyYes) == "add_proxy_yes";
    ProxyYesDispatch(s, u, "add_proxy_yes", rp);
  }

  lemma PairsConcat(a: Effect, b: Effect, c: Effect, d: Effect)
    ensures [a, b] + [c, d] == [a, b, c, d]
  {
  }

  /** Overwriting the caller's entry and then deleting it deletes it. */
  lemma PutThenDelete(s: Store, u: UserId, v: Session)
    ensures s[u := v] - {u} == s - {u}
  {
  }

  lemma PutTwice(s: Store, u: UserId, v: Session, w: Session)
    ensures s[u := v][u := w] == s[u := w]
  {
  }

  /** The add flow from the type choice on: the type, the address, the proxy choice. */
  lemma AddFlowTail(s3: Store, u: UserId, d: string, b: string, address: string, zone: string, rp: Replies)
    requires u in s3 && s3[u] == Session(WaitingForRecordType, Defined(Collected(d, b).(recordType := Undefined)))
    requires IsValidIPv4(Trim(address)) && Cooperative(rp, d, zone)
    ensures var name := FullWildcardName(Defined(b), d);
      var create := CreateRecord(zone, Body(Defined("A"), name, Defined(Trim(address)), true, DefaultTtl));
      Run([], s3, [Input(u, Button("add_type_A"), rp)] + ([Input(u, Text(address), rp)] + [Input(u, Button("add_proxy_yes"), rp)]))
        == Trace(s3 - {u}, [GetZones, GetRecords(zone, OnlyType("A"), name), GetZones, create], false)
  {
    var a := Trim(address);
    var name := FullWildcardName(Defined(b), d);
    var create := CreateRecord(zone, Body(Defined("A"), name, Defined(a), true, DefaultTtl));
    var lookup := GetRecords(zone, OnlyType("A"), name);
    var i3, i4, i5 := Input(u, Button("add_type_A"), rp), Input(u, Text(address), rp), Input(u, Button("add_proxy_yes"), rp);
    var s4 := s3[u := Session(WaitingForContentA, Defined(Collected(d, b)))];
    var s5 := s4[u := Session(WaitingForContentA, Defined(Collected(d, b).(content := Defined(a))))];
    assert s5 - {u} == s3 - {u} by {
      PutThenDelete(s4, u, s5[u]);
      PutThenDelete(s3, u, s4[u]);
    }
    assert Run([], s5, [i5]) == Trace(s3 - {u}, [GetZones, create], false) by {
      ProxyStep(s5, u, d, b, a, zone, rp);
      RunLast([], s5, i5);
    }
    assert Run([], s4, [i4] + [i5]) == Trace(s3 - {u}, [GetZones, lookup, GetZones, create], false) by {
      AddressStep(s4, u, d, b, address, zone, rp);
      RunStep([], s4, i4, [i5]);
      PairsConcat(GetZones, lookup, GetZones, create);
    }
    TypeStep(s3, u, d, b, rp);
    RunStep([], s3, i3, [i4] + [i5]);
  }

  /** The first three steps of the add flow only move the caller's session
      to the type choice, with the trimmed domain and subdomain collected. */
  lemma AddFlowHead(s0: Store, u: UserId, domain: string, sub: string, tail: seq<Input>, rp: Replies)
    ensures var s3 := s0[u := Session(WaitingForRecordType, Defined(Collected(Trim(domain), Trim(sub)).(recordType := Undefined)))];
      Run([], s0, [Input(u, Button("add_wildcard_record"), rp)] + ([Input(u, Text(domain), rp)] + ([Input(u, Text(sub), rp)] + tail)))
        == Run([], s3, tail)
  {
    var d, b := Trim(domain), Trim(sub);
    var i0, i1, i2 := Input(u, Button("add_wildcard_record"), rp), Input(u, Text(domain), rp), Input(u, Text(sub), rp);
    var s1 := s0[u := Session(WaitingForZoneForAdd, Undefined)];
    var s2 := s1[u := Session(WaitingForWildcardSubdomain, Defined(NoData.(domain := Defined(d))))];
    var s3 := s2[u := Session(WaitingForRecordType, Defined(Collected(d, b).(recordType := Undefined)))];
    assert s3 == s0[u := s3[u]] by {
      PutTwice(s1, u, s2[u], s3[u]);
      PutTwice(s0, u, s1[u], s3[u]);
    }
    assert Run([], s2, [i2] + tail) == Run([], s3, tail) by {
      SubdomainStep(s2, u, d, sub, rp);
      RunStep([], s2, i2, tail);
    }
    assert Run([], s1, [i1] + ([i2] + tail)) == Run([], s2, [i2] + tail) by {
      DomainStep(s1, u, domain, rp);
      RunStep([], s1, i1, [i2] + tail);
    }
    MenuStep(s0, u, rp);
    RunStep([], s0, i0, [i1] + ([i2] + tail));
  }

  /** Collecting the domain, the subdomain, the type and the address, then
      choosing the proxy, creates one proxied A record named after the
      subdomain and the parent of the domain as typed (trimmed), with the
      default ttl, and ends the session; every other user's session is as it
      was. The only other calls are the two zone listings and the duplicate
      lookup. */
  lemma {:induction false} AddFlowCreatesOneRecord(s0: Store, u: UserId, domain: string, sub: string, address: string, zone: string, rp: Replies)
    requires IsValidIPv4(Trim(address)) && Cooperative(rp, Trim(domain), zone)
    ensures var t := Run([], s0, AddFlow(u, domain, sub, address, rp));
      var name := FullWildcardName(Defined(Trim(sub)), Trim(domain));
      && !t.crashed
      && t.store == s0 - {u}
      && t.effects == [
           GetZones, GetRecords(zone, OnlyType("A"), name),
           GetZones, CreateRecord(zone, Body(Defined("A"), name, Defined(Trim(address)), true, DefaultTtl))]
  {
    var d, b := Trim(domain), Trim(sub);
    var tail := [Input(u, Button("add_type_A"), rp)] + ([Input(u, Text(address), rp)] + [Input(u, Button("add_proxy_yes"), rp)]);
    var s3 := s0[u := Session(WaitingForRecordType, Defined(Collected(d, b).(recordType := Undefined)))];
    PutThenDelete(s0, u, s3[u]);
    AddFlowHead(s0, u, domain, sub, tail, rp);
    AddFlowTail(s3, u, d, b, address, zone, rp);
  }

  /** Pressing a type button before the domain is typed sets the step and
      then throws on the missing session data: the run stops with the session
      left at the address step and without data, and no provider call made. */
  lemma {:induction false} EarlyTypeChoiceCrashes(s: Store, u: UserId, rp: Replies)
    ensures var t := Run([], s, [Input(u, Button("add_wildcard_record"), rp)] + [Input(u, Button("add_type_A"), rp)]);
      t == Trace(s[u := Session(WaitingForContentA, Undefined)], [], true)
  {
    var i0, i1 := Input(u, Button("add_wildcard_record"), rp), Input(u, Button("add_type_A"), rp);
    var s1 := s[u := Session(WaitingForZoneForAdd, Undefined)];
    assert s1[u := Session(WaitingForContentA, Undefined)] == s[u := Session(WaitingForContentA, Undefined)] by {
      PutTwice(s, u, s1[u], Session(WaitingForContentA, Undefined));
    }
    assert Run([], s1, [i1]) == Trace(s[u := Session(WaitingForContentA, Undefined)], [], true) by {
      assert HandleUpdate([], s1, u, Button("add_type_A"), rp) == ChooseRecordType(s1, u, "A", WaitingForContentA);
    }
    MenuStep(s, u, rp);
    RunStep([], s, i0, [i1]);
  }

  /** A session left at the address step without data crashes on every text
      the user sends, so the user is stuck until the session is replaced. */
  lemma StuckSessionCrashesOnText(s: Store, u: UserId, message: string, rp: Replies)
    requires u in s && s[u] == Session(WaitingForContentA, Undefined)
    ensures HandleUpdate([], s, u, Text(message), rp) == Outcome(s, [], Crashed)
  {
    TextInContentA(s, u, message, rp);
  }
}
