/** What holds of every session the bot can build without crashing, and the
    guarantees the handlers give about the provider writes they issue. */
module Invariants {
  import opened Js
  import opened Strings
  import opened Utils
  import opened Provider
  import opened Lookup
  import opened Conversation

  /** A snapshot holds only wildcard records, and the record chosen for an
      update is one of them. */
  predicate DataInvariant(d: SessionData)
  {
    && (d.records.Defined? ==> forall r :: r in d.records.value ==> IsWildcardName(r.name))
    && (d.recordToUpdate.Defined? ==> d.records.Defined? && d.recordToUpdate.value in d.records.value)
  }

  /** The steps whose text handler reads `data` without a guard. */
  predicate NeedsData(step: Step)
  {
    step in {WaitingForContentA, WaitingForContentCNAME, WaitingForRecordIdToDelete, WaitingForNewContentA, WaitingForNewContentCNAME}
  }

  predicate SessionInvariant(s: Session)
  {
    && (NeedsData(s.step) ==> s.data.Defined?)
    && (s.step == WaitingForRecordIdToDelete ==> s.data.Defined? && s.data.value.records.Defined?)
    && (s.data.Defined? ==> DataInvariant(s.data.value))
  }

  predicate StoreInvariant(store: Store)
  {
    forall u :: u in store ==> SessionInvariant(store[u])
  }

  /** Provider writes come last, and there is at most one per update. */
  predicate WritesLast(effects: seq<Effect>)
  {
    forall i :: 0 <= i < |effects| && IsWrite(effects[i]) ==> i == |effects| - 1
  }

  /** A store whose caller entry keeps the invariant and whose other entries are untouched keeps it. */
  lemma FramedInvariant(store: Store, store': Store, u: UserId)
    requires StoreInvariant(store) && OnlyCallerTouched(store, store', u)
    requires u in store' ==> SessionInvariant(store'[u])
    ensures StoreInvariant(store')
  {
    forall v | v in store' ensures SessionInvariant(store'[v]) {
      if v != u {
        assert v in store' - {u};
        assert (store' - {u})[v] == store'[v];
        assert (store - {u})[v] == store[v];
      }
    }
  }

  /** The caller's entry after a button that did not crash. */
  lemma ButtonKeepsSession(store: Store, u: UserId, callbackData: string, rp: Replies)
    requires StoreInvariant(store)
    ensures var o := HandleButton(store, u, callbackData, rp);
      o.status.Handled? && u in o.store ==> SessionInvariant(o.store[u])
  {
    var o := HandleButton(store, u, callbackData, rp);
    if o.status.Handled? && u in o.store && u in store && ParseAction(callbackData) == Defined(UpdateContent) {
      var d := store[u].data.value;
      assert SessionInvariant(store[u]);
      var found := FindRecord(d.records.value, d.recordId);
      assert found.Defined? && found.value in d.records.value;
    }
  }

  /** The caller's entry after a text message that did not crash. */
  lemma TextKeepsSession(store: Store, u: UserId, message: string, rp: Replies)
    requires StoreInvariant(store)
    ensures var o := HandleText(store, u, message, rp);
      o.status.Handled? && u in o.store ==> SessionInvariant(o.store[u])
  {
    var o := HandleText(store, u, message, rp);
    var text := Trim(message);
    if o.status.Handled? && u in o.store {
      assert SessionInvariant(store[u]);
      if rp.records.Ok? {
        WildcardOnlyMembers(rp.records.value);
      }
      match store[u].step
      case WaitingForZoneForList =>
      case WaitingForZoneForAdd =>
      case WaitingForWildcardSubdomain =>
      case WaitingForRecordType =>
      case WaitingForContentA =>
      case WaitingForContentCNAME =>
      case WaitingForZoneForDelete =>
      case WaitingForRecordIdToDelete =>
      case WaitingForZoneForUpdate =>
      case WaitingForRecordIdToUpdate =>
      case WaitingForUpdateAction =>
      case WaitingForNewContentA =>
      case WaitingForNewContentCNAME =>
    }
  }

  /** Every update that does not crash keeps the invariant of the whole store. */
  lemma HandledPreservesInvariant(allowed: seq<UserId>, store: Store, u: UserId, event: Event, rp: Replies)
    requires StoreInvariant(store)
    ensures var o := HandleUpdate(allowed, store, u, event, rp);
      o.status.Handled? ==> StoreInvariant(o.store)
  {
    var o := HandleUpdate(allowed, store, u, event, rp);
    if o.status.Handled? {
      if Authorised(allowed, u) {
        match event
        case Button(c) =>
          assert o == HandleButton(store, u, c, rp);
          ButtonKeepsSession(store, u, c, rp);
        case Text(m) =>
          assert o == HandleText(store, u, m, rp);
          TextKeepsSession(store, u, m, rp);
        case _ =>
      }
      FramedInvariant(store, o.store, u);
    }
  }

  /** Under the invariant no text message crashes the bot: only the buttons,
      which never check the step, can. */
  lemma TextNeverCrashes(allowed: seq<UserId>, store: Store, u: UserId, message: string, rp: Replies)
    requires StoreInvariant(store)
    ensures HandleUpdate(allowed, store, u, Text(message), rp).status.Handled?
  {
    if Authorised(allowed, u) && u in store {
      assert SessionInvariant(store[u]);
    }
  }

  lemma TextWritesLast(store: Store, u: UserId, message: string, rp: Replies)
    ensures WritesLast(HandleText(store, u, message, rp).effects)
  {
    if u in store {
      match store[u].step
      case WaitingForZoneForList =>
      case WaitingForZoneForAdd =>
      case WaitingForWildcardSubdomain =>
      case WaitingForRecordType =>
      case WaitingForContentA =>
      case WaitingForContentCNAME =>
      case WaitingForZoneForDelete =>
      case WaitingForRecordIdToDelete =>
      case WaitingForZoneForUpdate =>
      case WaitingForRecordIdToUpdate =>
      case WaitingForUpdateAction =>
      case WaitingForNewContentA =>
      case WaitingForNewContentCNAME =>
    }
  }

  lemma ButtonWritesLast(store: Store, u: UserId, callbackData: string, rp: Replies)
    ensures WritesLast(HandleButton(store, u, callbackData, rp).effects)
  {
    match ParseAction(callbackData)
    case Undefined =>
    case Defined(a) =>
  }

  /** Reads come first; a write, if any, is the one last call of the update. */
  lemma AtMostOneWriteLast(allowed: seq<UserId>, store: Store, u: UserId, event: Event, rp: Replies)
    ensures WritesLast(HandleUpdate(allowed, store, u, event, rp).effects)
  {
    match event
    case Button(c) => ButtonWritesLast(store, u, c, rp);
    case Text(m) => TextWritesLast(store, u, m, rp);
    case _ =>
  }

  /** The record a snapshot-based write targets: listed, wildcard, and
      written back with name, type and ttl as listed, changing the proxy flag
      or the content but not both. */
  predicate ListedTarget(d: SessionData, recordId: string, body: Body)
    requires d.records.Defined?
  {
    exists r :: r in d.records.value && r.id == recordId && IsWildcardName(r.name)
      && body == BodyOf(r).(proxied := body.proxied, content := body.content)
      && (body.proxied == r.proxied || body.content == Defined(r.content))
  }

  lemma ButtonNeverDeletes(store: Store, u: UserId, callbackData: string, rp: Replies, zoneId: string, recordId: string)
    ensures DeleteRecord(zoneId, recordId) !in HandleButton(store, u, callbackData, rp).effects
  {
    match ParseAction(callbackData)
    case Undefined =>
    case Defined(a) =>
  }

  /** Outside the record-id-to-delete and new-content steps a text message
      only reads from the provider. */
  lemma TextReadsOnly(store: Store, u: UserId, message: string, rp: Replies)
    requires u in store ==> store[u].step !in {WaitingForRecordIdToDelete, WaitingForNewContentA, WaitingForNewContentCNAME}
    ensures NoWrites(HandleText(store, u, message, rp).effects)
  {
    if u in store {
      match store[u].step
      case WaitingForZoneForList =>
      case WaitingForZoneForAdd =>
      case WaitingForWildcardSubdomain =>
      case WaitingForRecordType =>
      case WaitingForContentA =>
      case WaitingForContentCNAME =>
      case WaitingForZoneForDelete =>
      case WaitingForZoneForUpdate =>
      case WaitingForRecordIdToUpdate =>
      case WaitingForUpdateAction =>
    }
  }

  lemma TextDeletes(store: Store, u: UserId, message: string, rp: Replies, zoneId: string, recordId: string)
    requires StoreInvariant(store)
    requires DeleteRecord(zoneId, recordId) in HandleText(store, u, message, rp).effects
    ensures recordId == Trim(message)
    ensures u in store && store[u].step == WaitingForRecordIdToDelete
    ensures var d := store[u].data.value;
      && zoneId == Show(d.zoneId)
      && exists r :: r in d.records.value && r.id == recordId && IsWildcardName(r.name)
  {
    if u !in store {
      assert false;
    }
    if store[u].step == WaitingForRecordIdToDelete {
      assert SessionInvariant(store[u]);
    } else {
      DeletesOnlyInDeleteStep(store, u, message, rp, zoneId, recordId);
      assert false;
    }
  }

  lemma DeletesOnlyInDeleteStep(store: Store, u: UserId, message: string, rp: Replies, zoneId: string, recordId: string)
    requires u in store && store[u].step != WaitingForRecordIdToDelete
    ensures DeleteRecord(zoneId, recordId) !in HandleText(store, u, message, rp).effects
  {
    match store[u].step
    case WaitingForZoneForList =>
    case WaitingForZoneForAdd =>
    case WaitingForWildcardSubdomain =>
    case WaitingForRecordType =>
    case WaitingForContentA =>
    case WaitingForContentCNAME =>
    case WaitingForZoneForDelete =>
    case WaitingForZoneForUpdate =>
    case WaitingForRecordIdToUpdate =>
    case WaitingForUpdateAction =>
    case WaitingForNewContentA =>
    case WaitingForNewContentCNAME =>
  }

  /** A delete goes only to a record the caller was shown in the delete
      listing, named by the id they typed, in the zone stored with it. */
  lemma DeletesOnlyListedRecords(allowed: seq<UserId>, store: Store, u: UserId, event: Event, rp: Replies, zoneId: string, recordId: string)
    requires StoreInvariant(store)
    requires DeleteRecord(zoneId, recordId) in HandleUpdate(allowed, store, u, event, rp).effects
    ensures event.Text? && recordId == Trim(event.message)
    ensures u in store && store[u].step == WaitingForRecordIdToDelete
    ensures var d := store[u].data.value;
      && zoneId == Show(d.zoneId)
      && exists r :: r in d.records.value && r.id == recordId && IsWildcardName(r.name)
  {
    match event
    case Button(c) => ButtonNeverDeletes(store, u, c, rp, zoneId, recordId);
    case Text(m) => TextDeletes(store, u, m, rp, zoneId, recordId);
    case _ =>
  }

  lemma ButtonUpdates(store: Store, u: UserId, callbackData: string, rp: Replies, zoneId: string, recordId: string, body: Body)
    requires StoreInvariant(store)
    requires UpdateRecord(zoneId, recordId, body) in HandleButton(store, u, callbackData, rp).effects
    ensures ParseAction(callbackData) == Defined(ToggleProxy)
    ensures u in store && store[u].data.Defined? && store[u].data.value.records.Defined?
    ensures zoneId == Show(store[u].data.value.zoneId)
    ensures ListedTarget(store[u].data.value, recordId, body)
  {
    match ParseAction(callbackData)
    case Undefined =>
    case Defined(a) =>
      assert a == ToggleProxy;
      var d := store[u].data.value;
      assert SessionInvariant(store[u]);
      var r := FindRecord(d.records.value, d.recordId).value;
      assert r in d.records.value && r.id == recordId;
  }

  /** The update a new-content write issues targets the record chosen for it. */
  lemma NewContentTarget(store: Store, u: UserId, d: SessionData, newContent: string, rp: Replies, zoneId: string, recordId: string, body: Body)
    requires DataInvariant(d)
    requires UpdateRecord(zoneId, recordId, body) in WriteNewContent(store, u, d, newContent, rp).effects
    ensures d.records.Defined? && zoneId == Show(d.zoneId)
    ensures body.content == Defined(newContent)
    ensures ListedTarget(d, recordId, body)
  {
    var r := d.recordToUpdate.value;
    assert r in d.records.value;
  }

  lemma TextUpdates(store: Store, u: UserId, message: string, rp: Replies, zoneId: string, recordId: string, body: Body)
    requires StoreInvariant(store)
    requires UpdateRecord(zoneId, recordId, body) in HandleText(store, u, message, rp).effects
    ensures u in store && store[u].step in {WaitingForNewContentA, WaitingForNewContentCNAME}
    ensures store[u].data.Defined? && store[u].data.value.records.Defined?
    ensures zoneId == Show(store[u].data.value.zoneId)
    ensures body.content == Defined(Trim(message))
    ensures ListedTarget(store[u].data.value, recordId, body)
  {
    if u !in store {
      assert false;
    }
    match store[u].step
    case WaitingForRecordIdToDelete =>
      DeleteStepNeverUpdates(store, u, message, rp, zoneId, recordId, body);
      assert false;
    case WaitingForNewContentA =>
      NewContentAUpdates(store, u, message, rp, zoneId, recordId, body);
    case WaitingForNewContentCNAME =>
      NewContentCnameUpdates(store, u, message, rp, zoneId, recordId, body);
    case _ =>
      TextReadsOnly(store, u, message, rp);
      assert false;
  }

  lemma DeleteStepNeverUpdates(store: Store, u: UserId, message: string, rp: Replies, zoneId: string, recordId: string, body: Body)
    requires u in store && store[u].step == WaitingForRecordIdToDelete
    ensures UpdateRecord(zoneId, recordId, body) !in HandleText(store, u, message, rp).effects
  {
  }

  lemma NewContentAUpdates(store: Store, u: UserId, message: string, rp: Replies, zoneId: string, recordId: string, body: Body)
    requires StoreInvariant(store) && u in store && store[u].step == WaitingForNewContentA
    requires UpdateRecord(zoneId, recordId, body) in HandleText(store, u, message, rp).effects
    ensures store[u].data.Defined? && store[u].data.value.records.Defined?
    ensures zoneId == Show(store[u].data.value.zoneId)
    ensures body.content == Defined(Trim(message))
    ensures ListedTarget(store[u].data.value, recordId, body)
  {
    assert SessionInvariant(store[u]);
    var text := Trim(message);
    if IsValidIPv4(text) {
      NewContentTarget(store, u, store[u].data.value, text, rp, zoneId, recordId, body);
    } else {
      assert false;
    }
  }

  lemma NewContentCnameUpdates(store: Store, u: UserId, message: string, rp: Replies, zoneId: string, recordId: string, body: Body)
    requires StoreInvariant(store) && u in store && store[u].step == WaitingForNewContentCNAME
    requires UpdateRecord(zoneId, recordId, body) in HandleText(store, u, message, rp).effects
    ensures store[u].data.Defined? && store[u].data.value.records.Defined?
    ensures zoneId == Show(store[u].data.value.zoneId)
    ensures body.content == Defined(Trim(message))
    ensures ListedTarget(store[u].data.value, recordId, body)
  {
    assert SessionInvariant(store[u]);
    var text := Trim(message);
    if '.' in text {
      NewContentTarget(store, u, store[u].data.value, text, rp, zoneId, recordId, body);
    } else {
      assert false;
    }
  }

  /** An update goes only to a record of the caller's snapshot, in the zone
      stored with it: the toggle button flips the proxy flag, a text message
      in a new-content step writes the trimmed text as content. */
  lemma UpdatesOnlyListedRecords(allowed: seq<UserId>, store: Store, u: UserId, event: Event, rp: Replies, zoneId: string, recordId: string, body: Body)
    requires StoreInvariant(store)
    requires UpdateRecord(zoneId, recordId, body) in HandleUpdate(allowed, store, u, event, rp).effects
    ensures u in store && store[u].data.Defined? && store[u].data.value.records.Defined?
    ensures zoneId == Show(store[u].data.value.zoneId)
    ensures ListedTarget(store[u].data.value, recordId, body)
    ensures event.Button? ==> event.callbackData == "toggle_proxy"
    ensures event.Text? ==> body.content == Defined(Trim(event.message))
  {
    match event
    case Button(c) => ButtonUpdates(store, u, c, rp, zoneId, recordId, body);
    case Text(m) => TextUpdates(store, u, m, rp, zoneId, recordId, body);
    case _ =>
  }

  lemma TextNeverCreates(store: Store, u: UserId, message: string, rp: Replies, zoneId: string, body: Body)
    ensures CreateRecord(zoneId, body) !in HandleText(store, u, message, rp).effects
  {
    if u in store {
      match store[u].step
      case WaitingForZoneForList =>
      case WaitingForZoneForAdd =>
      case WaitingForWildcardSubdomain =>
      case WaitingForRecordType =>
      case WaitingForContentA =>
      case WaitingForContentCNAME =>
      case WaitingForZoneForDelete =>
      case WaitingForRecordIdToDelete =>
      case WaitingForZoneForUpdate =>
      case WaitingForRecordIdToUpdate =>
      case WaitingForUpdateAction =>
      case WaitingForNewContentA =>
      case WaitingForNewContentCNAME =>
    }
  }

  /** A record is created only by the proxy-choice buttons, from the fields
      the add flow collected, with the chosen flag and the default ttl. */
  lemma CreatesOnlyOnProxyChoice(allowed: seq<UserId>, store: Store, u: UserId, event: Event, rp: Replies, zoneId: string, body: Body)
    requires CreateRecord(zoneId, body) in HandleUpdate(allowed, store, u, event, rp).effects
    ensures event == Button("add_proxy_yes") || event == Button("add_proxy_no")
    ensures body.proxied <==> event == Button("add_proxy_yes")
    ensures body.ttl == DefaultTtl
    ensures u in store && store[u].data.Defined? && store[u].data.value.domain.Defined?
    ensures var d := store[u].data.value;
      && body.recordType == d.recordType
      && body.content == d.content
      && body.name == FullWildcardName(d.wildcardSubdomain, d.domain.value)
  {
    match event
    case Text(m) => TextNeverCreates(store, u, m, rp, zoneId, body);
    case Button(c) =>
      match ParseAction(c) {
        case Undefined =>
        case Defined(a) =>
      }
    case _ =>
  }
}
