/** The per-user conversation state machine of `src/index.js`: the session
    store, the events that drive it, every handler, and the transition
    `HandleUpdate` that maps one event to the new store, the provider calls
    it issues and how it ended. Provider answers are inputs; reply texts and
    keyboards are reduced to a `Reply` tag. */
module Conversation {
  import opened Js
  import opened Strings
  import opened Utils
  import opened Provider
  import opened Lookup

  /** `ctx.from.id`. */
  type UserId = int

  /** The step tags the handlers write. */
  datatype Step =
    | WaitingForZoneForList
    | WaitingForZoneForAdd
    | WaitingForWildcardSubdomain
    | WaitingForRecordType
    | WaitingForContentA
    | WaitingForContentCNAME
    | WaitingForZoneForDelete
    | WaitingForRecordIdToDelete
    | WaitingForZoneForUpdate
    | WaitingForRecordIdToUpdate
    | WaitingForUpdateAction
    | WaitingForNewContentA
    | WaitingForNewContentCNAME

  /** The `data` object of a session; every field may be absent. */
  datatype SessionData = SessionData(
    domain: Opt<string>,
    wildcardSubdomain: Opt<string>,
    recordType: Opt<string>,
    content: Opt<string>,
    zoneId: Opt<string>,
    records: Opt<seq<DnsRecord>>,
    recordId: Opt<string>,
    recordToUpdate: Opt<DnsRecord>)

  const NoData: SessionData :=
    SessionData(Undefined, Undefined, Undefined, Undefined, Undefined, Undefined, Undefined, Undefined)

  /** `{ ...data }`: spreading an undefined `data` gives an empty object. */
  function Spread(data: Opt<SessionData>): (d: SessionData)
  {
    match data
    case Undefined => NoData
    case Defined(d) => d
  }

  /** One entry of `userState`. The menu actions create it without `data`. */
  datatype Session = Session(step: Step, data: Opt<SessionData>)

  /** `userState`: at most one session per user. */
  type Store = map<UserId, Session>

  /** What the chat transport delivers: the two commands, a button press
      carrying its callback data, or any other text message. */
  datatype Event = StartCommand | MenuCommand | Button(callbackData: string) | Text(message: string)

  /** The callback data the bot registers a handler for. */
  datatype Action =
    | ListZones | ListWildcardRecords | AddWildcardRecord | DeleteWildcardRecord | UpdateWildcardRecord
    | AddTypeA | AddTypeCname | AddProxyYes | AddProxyNo | UpdateContent | ToggleProxy

  function Tag(a: Action): (t: string)
  {
    match a
    case ListZones => "list_zones"
    case ListWildcardRecords => "list_wildcard_records"
    case AddWildcardRecord => "add_wildcard_record"
    case DeleteWildcardRecord => "delete_wildcard_record"
    case UpdateWildcardRecord => "update_wildcard_record"
    case AddTypeA => "add_type_A"
    case AddTypeCname => "add_type_CNAME"
    case AddProxyYes => "add_proxy_yes"
    case AddProxyNo => "add_proxy_no"
    case UpdateContent => "update_content"
    case ToggleProxy => "toggle_proxy"
  }

  /** The handler `bot.action` selects for some callback data, by exact match;
      `Undefined` when none is registered. */
  function ParseAction(callbackData: string): (r: Opt<Action>)
    ensures r.Defined? ==> Tag(r.value) == callbackData
    ensures forall a :: Tag(a) == callbackData ==> r == Defined(a)
  {
    if callbackData == "list_zones" then Defined(ListZones)
    else if callbackData == "list_wildcard_records" then Defined(ListWildcardRecords)
    else if callbackData == "add_wildcard_record" then Defined(AddWildcardRecord)
    else if callbackData == "delete_wildcard_record" then Defined(DeleteWildcardRecord)
    else if callbackData == "update_wildcard_record" then Defined(UpdateWildcardRecord)
    else if callbackData == "add_type_A" then Defined(AddTypeA)
    else if callbackData == "add_type_CNAME" then Defined(AddTypeCname)
    else if callbackData == "add_proxy_yes" then Defined(AddProxyYes)
    else if callbackData == "add_proxy_no" then Defined(AddProxyNo)
    else if callbackData == "update_content" then Defined(UpdateContent)
    else if callbackData == "toggle_proxy" then Defined(ToggleProxy)
    else Undefined
  }

  /** The delete listing builds per-record `delete_record_id_*` buttons but
      never attaches them to its reply; such callback data would reach no
      handler anyway. */
  lemma DeleteRecordButtonsUnhandled(id: string)
    ensures ParseAction("delete_record_id_" + id) == Undefined
  {
    var d := "delete_record_id_" + id;
    assert d[..17] == "delete_record_id_";
    assert d[0] == 'd' && d[7] == 'r';
    forall a: Action ensures Tag(a) != d {
      match a
      case ListWildcardRecords => assert Tag(a)[0] != d[0];
      case AddWildcardRecord => assert Tag(a)[0] != d[0];
      case UpdateWildcardRecord => assert Tag(a)[0] != d[0];
      case DeleteWildcardRecord => assert Tag(a)[7] != d[7];
      case _ => assert |Tag(a)| < |d|;
    }
  }

  /** The kind of message the bot sends back (texts and keyboards are not modelled). */
  datatype Reply =
    | NoReply
    | NotAuthorized
    | Welcome
    | MenuShown
    | UseMenu
    | NotRecognized
    | Prompt
    | Invalid
    | ZoneNotFound
    | NoZones
    | ZoneListing(zones: seq<Zone>)
    | NoWildcardRecords
    | RecordListing(records: seq<DnsRecord>)
    | AlreadyExists
    | RecordNotFound
    | Unsupported
    | Succeeded
    | ErrorReported

  /** How handling ended: normally with a reply, or by an exception that no
      handler catches (a property read on `undefined`). */
  datatype Status = Handled(reply: Reply) | Crashed

  /** The store after the event, the provider calls in the order issued, and
      how handling ended. After a crash the store is what the handler had
      written before the exception. */
  datatype Outcome = Outcome(store: Store, effects: seq<Effect>, status: Status)

  /** Every entry but the caller's is left as it was. */
  predicate OnlyCallerTouched(store: Store, store': Store, u: UserId)
  {
    store' - {u} == store - {u}
  }

  // ------------------------------------------------------------ zones

  datatype ZoneLookup = LookupFailed | ZoneMissing | ZoneFound(id: string)

  /** `getZoneId`: the id of the first zone named `domain`. A failing zone
      listing throws to the caller. Deleting the session when the zone is
      missing is left to the callers, which all delete it on that path. */
  function GetZoneId(zones: Answer<seq<Zone>>, domain: Opt<string>): (r: ZoneLookup)
    ensures r.LookupFailed? <==> zones.Failed?
    ensures r.ZoneMissing? <==> zones.Ok? && (domain.Undefined? || forall k :: 0 <= k < |zones.value| ==> zones.value[k].name != domain.value)
    ensures r.ZoneFound? ==> domain.Defined? && exists z :: z in zones.value && z.name == domain.value && z.id == r.id
  {
    match zones
    case Failed => LookupFailed
    case Ok(zs) =>
      match domain
      case Undefined => ZoneMissing
      case Defined(name) =>
        match FindZone(zs, name)
        case Undefined => ZoneMissing
        case Defined(z) => ZoneFound(z.id)
  }

  /** `zones.find` stops at the first match: a found id is that of the first
      listed zone named `domain`, even when the listing repeats the name. */
  lemma GetZoneIdFirst(zones: Answer<seq<Zone>>, domain: Opt<string>)
    requires GetZoneId(zones, domain).ZoneFound?
    ensures exists k :: 0 <= k < |zones.value| && zones.value[k].name == domain.value
                        && zones.value[k].id == GetZoneId(zones, domain).id
                        && (forall j :: 0 <= j < k ==> zones.value[j].name != domain.value)
  {
  }

  /** `if (!zoneId) return;`: an empty id is falsy, so the caller stops. */
  predicate Usable(z: ZoneLookup)
  {
    z.ZoneFound? && z.id != ""
  }

  /** The record name pattern the listings ask for: `*.` and the parent domain. */
  function WildcardPattern(domainName: string): (p: string)
  {
    "*." + GetParentDomain(domainName)
  }

  datatype FetchResult =
    | FetchFailed
    | FetchNoZone
    | FetchFalsyZone
    | Fetched(zoneId: string, wildcards: seq<DnsRecord>)

  datatype Fetch = Fetch(result: FetchResult, effects: seq<Effect>)

  /** The common start of the list, delete and update flows, once the zone
      `z` of `domainName` is resolved: list the zone's records under the
      wildcard pattern for every type, and keep the ones whose name starts
      with `*.`. */
  function FetchWildcards(z: ZoneLookup, domainName: string, records: Answer<seq<DnsRecord>>): (f: Fetch)
    ensures 1 <= |f.effects| <= 2 && f.effects[0] == GetZones && NoWrites(f.effects)
    ensures f.result.FetchNoZone? <==> z.ZoneMissing?
    ensures f.result.FetchFalsyZone? <==> z.ZoneFound? && z.id == ""
    ensures f.result.FetchFailed? <==> z.LookupFailed? || (Usable(z) && records.Failed?)
    ensures |f.effects| == 2 <==> Usable(z)
    ensures Usable(z) ==> f.effects[1] == GetRecords(z.id, AllTypes, WildcardPattern(domainName))
    ensures f.result.Fetched? ==> records.Ok? && f.result.zoneId == z.id && f.result.wildcards == WildcardOnly(records.value)
  {
    match z
    case LookupFailed => Fetch(FetchFailed, [GetZones])
    case ZoneMissing => Fetch(FetchNoZone, [GetZones])
    case ZoneFound(id) =>
      if id == "" then Fetch(FetchFalsyZone, [GetZones])
      else
        var effects := [GetZones, GetRecords(id, AllTypes, WildcardPattern(domainName))];
        match records
        case Failed => Fetch(FetchFailed, effects)
        case Ok(rs) => Fetch(Fetched(id, WildcardOnly(rs)), effects)
  }

  /** `FetchWildcards` for the zone the provider's listing gives `domainName`. */
  function FetchFor(domainName: string, rp: Replies): (f: Fetch)
  {
    FetchWildcards(GetZoneId(rp.zones, Defined(domainName)), domainName, rp.records)
  }

  // ---------------------------------------------------------- list flow

  /** `handleListWildcardRecords`: list the wildcard records of a domain. The
      session is deleted however the listing ends. */
  function ListRecords(store: Store, u: UserId, domainName: string, rp: Replies): (o: Outcome)
    ensures o.store == store - {u}
    ensures o.effects == FetchFor(domainName, rp).effects
    ensures o.status.Handled?
    ensures o.status.reply.RecordListing? <==> FetchFor(domainName, rp).result.Fetched? && FetchFor(domainName, rp).result.wildcards != []
    ensures o.status.reply.RecordListing? ==>
      && o.status.reply.records != []
      && (forall r :: r in o.status.reply.records <==> r in rp.records.value && IsWildcardName(r.name))
  {
    var f := FetchFor(domainName, rp);
    var reply :=
      match f.result
      case FetchFailed => ErrorReported
      case FetchNoZone => ZoneNotFound
      case FetchFalsyZone => NoReply
      case Fetched(_, w) => if |w| == 0 then NoWildcardRecords else RecordListing(w);
    WildcardOnlyMembers(if rp.records.Ok? then rp.records.value else []);
    Outcome(store - {u}, f.effects, Handled(reply))
  }

  // ----------------------------------------------------------- add flow

  /** The record name the add flow creates: `${wildcardSubdomain}.${parent}`. */
  function FullWildcardName(wildcardSubdomain: Opt<string>, domain: string): (name: string)
  {
    Show(wildcardSubdomain) + "." + GetParentDomain(domain)
  }

  /** The `type` argument of the duplicate lookup: `getDNSRecords` defaults an
      undefined type to "A". */
  function LookupFilter(recordType: Opt<string>): (f: TypeFilter)
  {
    match recordType
    case Undefined => OnlyType("A")
    case Defined(t) => OnlyType(t)
  }

  /** The add-content check for CNAME targets, as written:
      `!isValidDomain(c) && !c.includes('.')` rejects. */
  predicate CnameTargetAccepted(content: string)
  {
    !(!IsValidDomain(content) && '.' !in content)
  }

  /** Every valid domain contains a dot, so the CNAME check comes down to the dot alone. */
  lemma CnameTargetNeedsOnlyADot(content: string)
    ensures CnameTargetAccepted(content) <==> '.' in content
  {
    if IsValidDomain(content) {
      DomainShape(content);
    }
  }

  /** What `handleAddRecordA` and `handleAddRecordCNAME` do once the content
      passed validation and `getZoneId` answered `z` for the stored domain:
      look for a record with the same name and type, and either stop
      (deleting the session) or store the content. The step is not advanced:
      there is no proxy-choice step. */
  function StageContent(store: Store, u: UserId, d: SessionData, z: ZoneLookup, content: string, rp: Replies): (o: Outcome)
    requires u in store && store[u].data == Defined(d)
    requires z.ZoneFound? ==> d.domain.Defined?
    ensures OnlyCallerTouched(store, o.store, u)
    ensures o.status.Handled? && NoWrites(o.effects)
    ensures |o.effects| >= 1 && o.effects[0] == GetZones
    ensures Usable(z) ==> o.effects == [GetZones, GetRecords(z.id, LookupFilter(d.recordType), FullWildcardName(d.wildcardSubdomain, d.domain.value))]
    ensures Usable(z) && rp.records.Ok? && rp.records.value != [] ==> u !in o.store && o.status.reply == AlreadyExists
    ensures Usable(z) && rp.records.Ok? && rp.records.value == [] ==>
      o.store == store[u := Session(store[u].step, Defined(d.(content := Defined(content))))]
    ensures !z.ZoneFound? || (Usable(z) && rp.records.Failed?) ==> u !in o.store
    ensures z.ZoneFound? && z.id == "" ==> o.store == store && o.effects == [GetZones]
  {
    match z
    case LookupFailed => Outcome(store - {u}, [GetZones], Handled(ErrorReported))
    case ZoneMissing => Outcome(store - {u}, [GetZones], Handled(ZoneNotFound))
    case ZoneFound(id) =>
      if id == "" then Outcome(store, [GetZones], Handled(NoReply))
      else
        var name := FullWildcardName(d.wildcardSubdomain, d.domain.value);
        var effects := [GetZones, GetRecords(id, LookupFilter(d.recordType), name)];
        match rp.records
        case Failed => Outcome(store - {u}, effects, Handled(ErrorReported))
        case Ok(existing) =>
          if |existing| > 0 then Outcome(store - {u}, effects, Handled(AlreadyExists))
          else
            var s := Session(store[u].step, Defined(d.(content := Defined(content))));
            Outcome(store[u := s], effects, Handled(Prompt))
  }

  /** `handleAddRecordA`: the content must be an IPv4 literal. */
  function AddRecordA(store: Store, u: UserId, content: string, rp: Replies): (o: Outcome)
    requires u in store
    ensures OnlyCallerTouched(store, o.store, u) && NoWrites(o.effects)
    ensures o.status.Crashed? <==> store[u].data.Undefined?
    ensures o.status.Crashed? ==> o.store == store && o.effects == []
    ensures store[u].data.Defined? ==>
      (!IsValidIPv4(content) <==> o.store == store && o.effects == [] && o.status == Handled(Invalid))
    ensures u in o.store ==> o.store[u].step == store[u].step
  {
    match store[u].data
    case Undefined => Outcome(store, [], Crashed)
    case Defined(d) =>
      if !IsValidIPv4(content) then Outcome(store, [], Handled(Invalid))
      else StageContent(store, u, d, GetZoneId(rp.zones, d.domain), content, rp)
  }

  /** `handleAddRecordCNAME`: the content is rejected only when it has no dot. */
  function AddRecordCname(store: Store, u: UserId, content: string, rp: Replies): (o: Outcome)
    requires u in store
    ensures OnlyCallerTouched(store, o.store, u) && NoWrites(o.effects)
    ensures o.status.Crashed? <==> store[u].data.Undefined?
    ensures o.status.Crashed? ==> o.store == store && o.effects == []
    ensures store[u].data.Defined? ==>
      ('.' !in content <==> o.store == store && o.effects == [] && o.status == Handled(Invalid))
    ensures u in o.store ==> o.store[u].step == store[u].step
  {
    CnameTargetNeedsOnlyADot(content);
    match store[u].data
    case Undefined => Outcome(store, [], Crashed)
    case Defined(d) =>
      if !CnameTargetAccepted(content) then Outcome(store, [], Handled(Invalid))
      else StageContent(store, u, d, GetZoneId(rp.zones, d.domain), content, rp)
  }

  /** The `add_type_A` / `add_type_CNAME` buttons: whatever the current step,
      set the step, then the record type. Without a session the first write
      throws; without `data` the second one does, after the step was set. */
  function ChooseRecordType(store: Store, u: UserId, recordType: string, next: Step): (o: Outcome)
    ensures o.effects == [] && OnlyCallerTouched(store, o.store, u)
    ensures o.status.Crashed? <==> u !in store || store[u].data.Undefined?
    ensures u !in store ==> o.store == store
    ensures u in store ==> u in o.store && o.store[u].step == next
    ensures u in store && store[u].data.Defined? ==>
      o.store[u].data == Defined(store[u].data.value.(recordType := Defined(recordType)))
    ensures u in store && store[u].data.Undefined? ==> o.store[u].data.Undefined?
  {
    if u !in store then Outcome(store, [], Crashed)
    else
      var s := store[u];
      match s.data
      case Undefined => Outcome(store[u := s.(step := next)], [], Crashed)
      case Defined(d) => Outcome(store[u := Session(next, Defined(d.(recordType := Defined(recordType))))], [], Handled(Prompt))
  }

  /** `finalizeAddRecord` (the `add_proxy_yes` / `add_proxy_no` buttons):
      create the record from the stored fields with the chosen proxy flag and
      the default ttl, then delete the session whatever happened. */
  function FinalizeAddRecord(store: Store, u: UserId, proxied: bool, rp: Replies): (o: Outcome)
    ensures OnlyCallerTouched(store, o.store, u)
    ensures o.status.Crashed? <==> u !in store || store[u].data.Undefined?
    ensures o.status.Crashed? ==> o.store == store && o.effects == []
    ensures o.status.Handled? ==> u !in o.store && |o.effects| >= 1 && o.effects[0] == GetZones
    ensures o.status.Handled? ==>
      var d := store[u].data.value;
      var z := GetZoneId(rp.zones, d.domain);
      && (Usable(z) ==>
            && o.effects == [GetZones, CreateRecord(z.id, Body(d.recordType, FullWildcardName(d.wildcardSubdomain, d.domain.value), d.content, proxied, DefaultTtl))]
            && (o.status.reply == Succeeded <==> rp.writeOk))
      && (!Usable(z) ==> o.effects == [GetZones] && o.status.reply != Succeeded)
  {
    if u !in store then Outcome(store, [], Crashed)
    else
      match store[u].data
      case Undefined => Outcome(store, [], Crashed)
      case Defined(d) =>
        match GetZoneId(rp.zones, d.domain)
        case LookupFailed => Outcome(store - {u}, [GetZones], Handled(ErrorReported))
        case ZoneMissing => Outcome(store - {u}, [GetZones], Handled(ZoneNotFound))
        case ZoneFound(id) =>
          if id == "" then Outcome(store - {u}, [GetZones], Handled(NoReply))
          else
            var name := FullWildcardName(d.wildcardSubdomain, d.domain.value);
            var create := CreateRecord(id, Body(d.recordType, name, d.content, proxied, DefaultTtl));
            Outcome(store - {u}, [GetZones, create], Handled(if rp.writeOk then Succeeded else ErrorReported))
  }

  // ---------------------------------------------- delete and update flows

  /** The session a non-empty listing leaves behind: the domain, the zone id
      and the wildcard records as listed. */
  function Snapshot(domainName: string, zoneId: string, records: seq<DnsRecord>): (d: SessionData)
  {
    NoData.(domain := Defined(domainName), zoneId := Defined(zoneId), records := Defined(records))
  }

  /** `handleDeleteWildcardRecords` and `handleUpdateWildcardRecords`, given
      what the listing `f` fetched: keep the wildcard records as the session's
      snapshot and move on to the record-id step. An empty listing or any
      failure ends the flow; a falsy zone id leaves the session as it was. */
  function SnapshotRecords(store: Store, u: UserId, domainName: string, f: Fetch, next: Step): (o: Outcome)
    requires next == WaitingForRecordIdToDelete || next == WaitingForRecordIdToUpdate
    ensures OnlyCallerTouched(store, o.store, u)
    ensures o.status.Handled? && o.effects == f.effects
    ensures f.result.Fetched? && f.result.wildcards != [] ==>
      && o.store == store[u := Session(next, Defined(Snapshot(domainName, f.result.zoneId, f.result.wildcards)))]
      && o.status.reply == RecordListing(f.result.wildcards)
    ensures f.result.FetchFalsyZone? ==> o.store == store
    ensures !f.result.FetchFalsyZone? && !(f.result.Fetched? && f.result.wildcards != []) ==> u !in o.store
  {
    match f.result
    case FetchFailed => Outcome(store - {u}, f.effects, Handled(ErrorReported))
    case FetchNoZone => Outcome(store - {u}, f.effects, Handled(ZoneNotFound))
    case FetchFalsyZone => Outcome(store, f.effects, Handled(NoReply))
    case Fetched(id, w) =>
      if |w| == 0 then Outcome(store - {u}, f.effects, Handled(NoWildcardRecords))
      else Outcome(store[u := Session(next, Defined(Snapshot(domainName, id, w)))], f.effects, Handled(RecordListing(w)))
  }

  /** `handleDeleteConfirmation`: the typed id is looked up in the snapshot,
      not at the provider. An unknown id keeps the session for another try; a
      known one is deleted in the stored zone and the session ends. */
  function DeleteConfirmation(store: Store, u: UserId, recordId: string, rp: Replies): (o: Outcome)
    requires u in store
    ensures OnlyCallerTouched(store, o.store, u)
    ensures o.status.Crashed? <==> store[u].data.Undefined? || store[u].data.value.records.Undefined?
    ensures o.status.Crashed? ==> o.store == store && o.effects == []
    ensures o.status.Handled? ==>
      var d := store[u].data.value;
      && (recordId !in RecordIds(d.records.value) ==> o.store == store && o.effects == [] && o.status.reply == Invalid)
      && (recordId in RecordIds(d.records.value) ==>
            && o.effects == [DeleteRecord(Show(d.zoneId), recordId)]
            && u !in o.store
            && (o.status.reply == Succeeded <==> rp.writeOk))
  {
    match store[u].data
    case Undefined => Outcome(store, [], Crashed)
    case Defined(d) =>
      match d.records
      case Undefined => Outcome(store, [], Crashed)
      case Defined(records) =>
        FindRecordIds(records, recordId);
        match FindRecord(records, Defined(recordId))
        case Undefined => Outcome(store, [], Handled(Invalid))
        case Defined(_) =>
          Outcome(store - {u}, [DeleteRecord(Show(d.zoneId), recordId)], Handled(if rp.writeOk then Succeeded else ErrorReported))
  }

  /** The ids of a snapshot. */
  function RecordIds(records: seq<DnsRecord>): (ids: set<string>)
  {
    set r | r in records :: r.id
  }

  lemma FindRecordIds(records: seq<DnsRecord>, id: string)
    ensures FindRecord(records, Defined(id)).Defined? <==> id in RecordIds(records)
  {
    if id in RecordIds(records) {
      var r :| r in records && r.id == id;
    }
  }

  /** The text in `waitingForRecordIdToUpdate`: the id is stored unchecked and
      the update-action buttons are offered. */
  function ChooseRecordToUpdate(store: Store, u: UserId, recordId: string): (o: Outcome)
    requires u in store
    ensures OnlyCallerTouched(store, o.store, u) && o.effects == [] && o.status == Handled(Prompt)
    ensures u in o.store && o.store[u].step == WaitingForUpdateAction
    ensures o.store[u].data == Defined(Spread(store[u].data).(recordId := Defined(recordId)))
  {
    var d := Spread(store[u].data);
    Outcome(store[u := Session(WaitingForUpdateAction, Defined(d.(recordId := Defined(recordId))))], [], Handled(Prompt))
  }

  /** The `update_content` button, whatever the step: find the stored id in the
      snapshot; an unknown id ends the flow; an A or CNAME record moves to the
      matching new-content step; any other type ends the flow. */
  function ChooseContentUpdate(store: Store, u: UserId): (o: Outcome)
    ensures OnlyCallerTouched(store, o.store, u) && o.effects == []
    ensures o.status.Crashed? <==> u !in store || store[u].data.Undefined? || store[u].data.value.records.Undefined?
    ensures o.status.Crashed? ==> o.store == store
    ensures o.status.Handled? ==>
      var d := store[u].data.value;
      var found := FindRecord(d.records.value, d.recordId);
      && (found.Undefined? ==> u !in o.store && o.status.reply == RecordNotFound)
      && (found.Defined? && found.value.recordType == "A" ==>
            o.store == store[u := Session(WaitingForNewContentA, Defined(d.(recordToUpdate := found)))])
      && (found.Defined? && found.value.recordType == "CNAME" ==>
            o.store == store[u := Session(WaitingForNewContentCNAME, Defined(d.(recordToUpdate := found)))])
      && (found.Defined? && found.value.recordType != "A" && found.value.recordType != "CNAME" ==>
            u !in o.store && o.status.reply == Unsupported)
  {
    if u !in store then Outcome(store, [], Crashed)
    else
      match store[u].data
      case Undefined => Outcome(store, [], Crashed)
      case Defined(d) =>
        match d.records
        case Undefined => Outcome(store, [], Crashed)
        case Defined(records) =>
          match FindRecord(records, d.recordId)
          case Undefined => Outcome(store - {u}, [], Handled(RecordNotFound))
          case Defined(r) =>
            var d' := d.(recordToUpdate := Defined(r));
            if r.recordType == "A" then
              Outcome(store[u := Session(WaitingForNewContentA, Defined(d'))], [], Handled(Prompt))
            else if r.recordType == "CNAME" then
              Outcome(store[u := Session(WaitingForNewContentCNAME, Defined(d'))], [], Handled(Prompt))
            else Outcome(store - {u}, [], Handled(Unsupported))
  }

  /** The `toggle_proxy` button, whatever the step: write the snapshot record
      back with its proxy flag negated and every other field as listed, then
      end the flow. */
  function ToggleRecordProxy(store: Store, u: UserId, rp: Replies): (o: Outcome)
    ensures OnlyCallerTouched(store, o.store, u)
    ensures o.status.Crashed? <==> u !in store || store[u].data.Undefined? || store[u].data.value.records.Undefined?
    ensures o.status.Crashed? ==> o.store == store && o.effects == []
    ensures o.status.Handled? ==>
      var d := store[u].data.value;
      var found := FindRecord(d.records.value, d.recordId);
      && u !in o.store
      && (found.Undefined? ==> o.effects == [] && o.status.reply == RecordNotFound)
      && (found.Defined? ==>
            && o.effects == [UpdateRecord(Show(d.zoneId), found.value.id, BodyOf(found.value).(proxied := !found.value.proxied))]
            && (o.status.reply == Succeeded <==> rp.writeOk))
  {
    if u !in store then Outcome(store, [], Crashed)
    else
      match store[u].data
      case Undefined => Outcome(store, [], Crashed)
      case Defined(d) =>
        match d.records
        case Undefined => Outcome(store, [], Crashed)
        case Defined(records) =>
          match FindRecord(records, d.recordId)
          case Undefined => Outcome(store - {u}, [], Handled(RecordNotFound))
          case Defined(r) =>
            var body := Body(Defined(r.recordType), r.name, Defined(r.content), !r.proxied, r.ttl);
            Outcome(store - {u}, [UpdateRecord(Show(d.zoneId), r.id, body)], Handled(if rp.writeOk then Succeeded else ErrorReported))
  }

  /** The write shared by `handleUpdateRecordA` and `handleUpdateRecordCNAME`
      once the new content is accepted. A missing `recordToUpdate` throws
      inside the `try`, so it is reported rather than fatal. */
  function WriteNewContent(store: Store, u: UserId, d: SessionData, newContent: string, rp: Replies): (o: Outcome)
    ensures o.store == store - {u} && o.status.Handled?
    ensures d.recordToUpdate.Undefined? ==> o.effects == [] && o.status.reply == ErrorReported
    ensures d.recordToUpdate.Defined? ==>
      var r := d.recordToUpdate.value;
      && o.effects == [UpdateRecord(Show(d.zoneId), r.id, BodyOf(r).(content := Defined(newContent)))]
      && (o.status.reply == Succeeded <==> rp.writeOk)
  {
    match d.recordToUpdate
    case Undefined => Outcome(store - {u}, [], Handled(ErrorReported))
    case Defined(r) =>
      var body := Body(Defined(r.recordType), r.name, Defined(newContent), r.proxied, r.ttl);
      Outcome(store - {u}, [UpdateRecord(Show(d.zoneId), r.id, body)], Handled(if rp.writeOk then Succeeded else ErrorReported))
  }

  /** `handleUpdateRecordA`: the new content must be an IPv4 literal. */
  function UpdateRecordA(store: Store, u: UserId, newContent: string, rp: Replies): (o: Outcome)
    requires u in store
    ensures OnlyCallerTouched(store, o.store, u)
    ensures |o.effects| <= 1 && (o.effects != [] ==> o.effects[0].UpdateRecord?)
    ensures o.status.Crashed? <==> store[u].data.Undefined?
    ensures o.status.Crashed? ==> o.store == store && o.effects == []
    ensures store[u].data.Defined? ==>
      (!IsValidIPv4(newContent) <==> o.store == store && o.effects == [] && o.status == Handled(Invalid))
    ensures store[u].data.Defined? && IsValidIPv4(newContent) ==>
      o == WriteNewContent(store, u, store[u].data.value, newContent, rp)
  {
    match store[u].data
    case Undefined => Outcome(store, [], Crashed)
    case Defined(d) =>
      if !IsValidIPv4(newContent) then Outcome(store, [], Handled(Invalid))
      else WriteNewContent(store, u, d, newContent, rp)
  }

  /** `handleUpdateRecordCNAME`: the new content is rejected only when it has no dot. */
  function UpdateRecordCname(store: Store, u: UserId, newContent: string, rp: Replies): (o: Outcome)
    requires u in store
    ensures OnlyCallerTouched(store, o.store, u)
    ensures |o.effects| <= 1 && (o.effects != [] ==> o.effects[0].UpdateRecord?)
    ensures o.status.Crashed? <==> store[u].data.Undefined?
    ensures o.status.Crashed? ==> o.store == store && o.effects == []
    ensures store[u].data.Defined? ==>
      ('.' !in newContent <==> o.store == store && o.effects == [] && o.status == Handled(Invalid))
    ensures store[u].data.Defined? && '.' in newContent ==>
      o == WriteNewContent(store, u, store[u].data.value, newContent, rp)
  {
    CnameTargetNeedsOnlyADot(newContent);
    match store[u].data
    case Undefined => Outcome(store, [], Crashed)
    case Defined(d) =>
      if !CnameTargetAccepted(newContent) then Outcome(store, [], Handled(Invalid))
      else WriteNewContent(store, u, d, newContent, rp)
  }

  // ---------------------------------------------------------- dispatch

  /** The `bot.on('text')` dispatcher: trim the text, then dispatch on the
      caller's step. Without a session, or in a step no case names, nothing
      changes. */
  function HandleText(store: Store, u: UserId, message: string, rp: Replies): (o: Outcome)
    ensures OnlyCallerTouched(store, o.store, u)
    ensures u !in store ==> o == Outcome(store, [], Handled(UseMenu))
    ensures u in store && store[u].step in {WaitingForRecordType, WaitingForUpdateAction} ==>
      o == Outcome(store, [], Handled(NotRecognized))
  {
    var text := Trim(message);
    if u !in store then Outcome(store, [], Handled(UseMenu))
    else
      var s := store[u];
      match s.step
      case WaitingForZoneForList => ListRecords(store, u, text, rp)
      case WaitingForZoneForAdd =>
        Outcome(store[u := Session(WaitingForWildcardSubdomain, Defined(NoData.(domain := Defined(text))))], [], Handled(Prompt))
      case WaitingForWildcardSubdomain =>
        Outcome(store[u := Session(WaitingForRecordType, Defined(Spread(s.data).(wildcardSubdomain := Defined(text))))], [], Handled(Prompt))
      case WaitingForContentA => AddRecordA(store, u, text, rp)
      case WaitingForContentCNAME => AddRecordCname(store, u, text, rp)
      case WaitingForZoneForDelete => SnapshotRecords(store, u, text, FetchFor(text, rp), WaitingForRecordIdToDelete)
      case WaitingForRecordIdToDelete => DeleteConfirmation(store, u, text, rp)
      case WaitingForZoneForUpdate => SnapshotRecords(store, u, text, FetchFor(text, rp), WaitingForRecordIdToUpdate)
      case WaitingForRecordIdToUpdate => ChooseRecordToUpdate(store, u, text)
      case WaitingForNewContentA => UpdateRecordA(store, u, text, rp)
      case WaitingForNewContentCNAME => UpdateRecordCname(store, u, text, rp)
      case WaitingForRecordType => Outcome(store, [], Handled(NotRecognized))
      case WaitingForUpdateAction => Outcome(store, [], Handled(NotRecognized))
  }

  /** The step a flow's menu action starts in; `Undefined` for the other actions. */
  function FlowStart(a: Action): (s: Opt<Step>)
  {
    match a
    case ListWildcardRecords => Defined(WaitingForZoneForList)
    case AddWildcardRecord => Defined(WaitingForZoneForAdd)
    case DeleteWildcardRecord => Defined(WaitingForZoneForDelete)
    case UpdateWildcardRecord => Defined(WaitingForZoneForUpdate)
    case _ => Undefined
  }

  /** The `list_zones` action: list the account's zones; no session is involved. */
  function ListAccountZones(store: Store, rp: Replies): (o: Outcome)
    ensures o.store == store && o.effects == [GetZones] && o.status.Handled?
    ensures o.status.reply.ZoneListing? <==> rp.zones.Ok? && rp.zones.value != []
    ensures o.status.reply.ZoneListing? ==> o.status.reply.zones == rp.zones.value
  {
    match rp.zones
    case Failed => Outcome(store, [GetZones], Handled(ErrorReported))
    case Ok(zs) => Outcome(store, [GetZones], Handled(if |zs| == 0 then NoZones else ZoneListing(zs)))
  }

  /** The `bot.action` handlers. Callback data without a handler is ignored. */
  function HandleButton(store: Store, u: UserId, callbackData: string, rp: Replies): (o: Outcome)
    ensures OnlyCallerTouched(store, o.store, u)
    ensures ParseAction(callbackData).Undefined? ==> o == Outcome(store, [], Handled(NoReply))
    ensures ParseAction(callbackData) == Defined(ListZones) ==> o.store == store && o.effects == [GetZones]
    ensures ParseAction(callbackData).Defined? && FlowStart(ParseAction(callbackData).value).Defined? ==>
      o == Outcome(store[u := Session(FlowStart(ParseAction(callbackData).value).value, Undefined)], [], Handled(Prompt))
  {
    match ParseAction(callbackData)
    case Undefined => Outcome(store, [], Handled(NoReply))
    case Defined(a) =>
      match a
      case ListZones => ListAccountZones(store, rp)
      case ListWildcardRecords => Outcome(store[u := Session(WaitingForZoneForList, Undefined)], [], Handled(Prompt))
      case AddWildcardRecord => Outcome(store[u := Session(WaitingForZoneForAdd, Undefined)], [], Handled(Prompt))
      case DeleteWildcardRecord => Outcome(store[u := Session(WaitingForZoneForDelete, Undefined)], [], Handled(Prompt))
      case UpdateWildcardRecord => Outcome(store[u := Session(WaitingForZoneForUpdate, Undefined)], [], Handled(Prompt))
      case AddTypeA => ChooseRecordType(store, u, "A", WaitingForContentA)
      case AddTypeCname => ChooseRecordType(store, u, "CNAME", WaitingForContentCNAME)
      case AddProxyYes => FinalizeAddRecord(store, u, true, rp)
      case AddProxyNo => FinalizeAddRecord(store, u, false, rp)
      case UpdateContent => ChooseContentUpdate(store, u)
      case ToggleProxy => ToggleRecordProxy(store, u, rp)
  }

  /** The authorisation middleware: with a non-empty allow-list, only listed users get through. */
  predicate Authorised(allowed: seq<UserId>, u: UserId)
  {
    |allowed| == 0 || u in allowed
  }

  /** One update from the transport, from caller `u`, with the provider's
      answers to whatever calls its handler makes. */
  function HandleUpdate(allowed: seq<UserId>, store: Store, u: UserId, event: Event, rp: Replies): (o: Outcome)
    ensures OnlyCallerTouched(store, o.store, u)
    ensures !Authorised(allowed, u) ==> o == Outcome(store, [], Handled(NotAuthorized))
    ensures event.StartCommand? || event.MenuCommand? ==> o.store == store && o.effects == []
  {
    if !Authorised(allowed, u) then Outcome(store, [], Handled(NotAuthorized))
    else
      match event
      case StartCommand => Outcome(store, [], Handled(Welcome))
      case MenuCommand => Outcome(store, [], Handled(MenuShown))
      case Button(callbackData) => HandleButton(store, u, callbackData, rp)
      case Text(message) => HandleText(store, u, message, rp)
  }

  /** Two stores hold the same session, or none, for `u`. */
  predicate SameEntry(s1: Store, s2: Store, u: UserId)
  {
    (u in s1 <==> u in s2) && (u in s1 ==> s1[u] == s2[u])
  }

  /** Two outcomes look the same to caller `u`: the same calls, the same
      status and the same session left for `u`. */
  predicate SameForCaller(o1: Outcome, o2: Outcome, u: UserId)
  {
    o1.effects == o2.effects && o1.status == o2.status && SameEntry(o1.store, o2.store, u)
  }

  /** The steps of the add flow. */
  predicate AddStep(step: Step)
  {
    step in {WaitingForZoneForAdd, WaitingForWildcardSubdomain, WaitingForRecordType, WaitingForContentA, WaitingForContentCNAME}
  }

  /** The steps of the update flow. */
  predicate UpdateStep(step: Step)
  {
    step in {WaitingForZoneForUpdate, WaitingForRecordIdToUpdate, WaitingForUpdateAction, WaitingForNewContentA, WaitingForNewContentCNAME}
  }

  /** `TextReadsOnlyCaller` for the steps of the add flow. */
  lemma AddTextReadsOnlyCaller(s1: Store, s2: Store, u: UserId, message: string, rp: Replies)
    requires SameEntry(s1, s2, u) && u in s1 && AddStep(s1[u].step)
    ensures SameForCaller(HandleText(s1, u, message, rp), HandleText(s2, u, message, rp), u)
  {
    var text := Trim(message);
    match s1[u].step
    case WaitingForZoneForAdd =>
    case WaitingForWildcardSubdomain =>
    case WaitingForRecordType =>
    case WaitingForContentA =>
    case WaitingForContentCNAME =>
  }

  /** `TextReadsOnlyCaller` for the steps of the update flow. */
  lemma UpdateTextReadsOnlyCaller(s1: Store, s2: Store, u: UserId, message: string, rp: Replies)
    requires SameEntry(s1, s2, u) && u in s1 && UpdateStep(s1[u].step)
    ensures SameForCaller(HandleText(s1, u, message, rp), HandleText(s2, u, message, rp), u)
  {
    var text := Trim(message);
    match s1[u].step
    case WaitingForZoneForUpdate =>
    case WaitingForRecordIdToUpdate =>
    case WaitingForUpdateAction =>
    case WaitingForNewContentA =>
    case WaitingForNewContentCNAME =>
  }

  /** A text message reads no session but the sender's. */
  lemma TextReadsOnlyCaller(s1: Store, s2: Store, u: UserId, message: string, rp: Replies)
    requires SameEntry(s1, s2, u)
    ensures SameForCaller(HandleText(s1, u, message, rp), HandleText(s2, u, message, rp), u)
  {
    var text := Trim(message);
    if u in s1 {
      var step := s1[u].step;
      if AddStep(step) {
        AddTextReadsOnlyCaller(s1, s2, u, message, rp);
      } else if UpdateStep(step) {
        UpdateTextReadsOnlyCaller(s1, s2, u, message, rp);
      } else {
        match step
        case WaitingForZoneForList =>
        case WaitingForZoneForDelete =>
        case WaitingForRecordIdToDelete =>
      }
    }
  }

  /** A button press reads no session but the presser's. */
  lemma ButtonReadsOnlyCaller(s1: Store, s2: Store, u: UserId, callbackData: string, rp: Replies)
    requires SameEntry(s1, s2, u)
    ensures SameForCaller(HandleButton(s1, u, callbackData, rp), HandleButton(s2, u, callbackData, rp), u)
  {
    match ParseAction(callbackData)
    case Undefined =>
    case Defined(a) =>
      match a
      case ListZones =>
      case ListWildcardRecords =>
      case AddWildcardRecord =>
      case DeleteWildcardRecord =>
      case UpdateWildcardRecord =>
      case AddTypeA =>
      case AddTypeCname =>
      case AddProxyYes =>
      case AddProxyNo =>
      case UpdateContent =>
      case ToggleProxy =>
  }

  /** Together with the `OnlyCallerTouched` clause of `HandleUpdate`: an
      update reads and writes the caller's session and no other, so what it
      does depends on the rest of the store not at all. */
  lemma UpdateReadsOnlyCaller(allowed: seq<UserId>, s1: Store, s2: Store, u: UserId, event: Event, rp: Replies)
    requires SameEntry(s1, s2, u)
    ensures SameForCaller(HandleUpdate(allowed, s1, u, event, rp), HandleUpdate(allowed, s2, u, event, rp), u)
  {
    match event
    case StartCommand =>
    case MenuCommand =>
    case Button(c) => ButtonReadsOnlyCaller(s1, s2, u, c, rp);
    case Text(m) => TextReadsOnlyCaller(s1, s2, u, m, rp);
  }
}
