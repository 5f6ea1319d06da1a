# Wildcard DNS bot: a Dafny model

A Dafny model of a Telegram bot that manages wildcard DNS records in a
Cloudflare account. The bot has two parts that are modelled here:

- `src/utils.js`, the validators and name helpers: the IPv4 and domain
  recognisers (regular expressions in the source, hand-written predicates
  here with exact characterisations), `getParentDomain` and
  `extractWildcardSubdomain`;
- `src/index.js`, the per-user conversation state machine: the allow-list
  gate, the menu actions, the `bot.on('text')` dispatcher and every flow
  handler of the list, add, delete and update wizards.

The state machine is one pure transition,
`Conversation.HandleUpdate(allowed, store, caller, event, replies)`, returning
the new session store, the provider calls issued in order (`Provider.Effect`:
zone listing, record lookup, create, update, delete) and how handling ended:
with a reply, or `Crashed` when a handler reads or writes a property of
`undefined` outside any `try` (the store is then what the handler had written before the
throw). The provider's answers (zone list, record lookup, whether the write
succeeded) are inputs. `Runs.Run` folds the transition over a sequence of
updates and stops at the first crash. The framework routes `/start` and
`/menu` to their command handlers (`src/index.js:27-39`), so they arrive as
events of their own (`StartCommand`, `MenuCommand`) and never reach the text
dispatcher; every other message is a `Text` event.

The model follows the code as written, including its quirks:

- there is no proxy-choice step: accepted add content is stored and the step
  stays at the content step (`src/index.js:224`, `:257`);
- the step buttons (`add_type_*`, `add_proxy_*`, `update_content`,
  `toggle_proxy`) never check the current step and use the session
  unguarded, so one pressed with no session, or before the domain was
  typed, crashes; the menu buttons never read the session and never crash:
  the four flow buttons overwrite it with the flow's first step
  (`src/index.js:63`, `:69`, `:75`, `:81`), and `list_zones` leaves it
  alone;
- an undefined `type` in the duplicate lookup falls back to the provider
  wrapper's default `"A"`, and a `null` type (the listings) means all types;
- an empty zone id is falsy, so the flow stops silently: the add-content,
  delete and update flows leave the session as it was, while the list flow
  and the proxy choice delete it in their `finally` (`src/index.js:181-182`,
  `:292-293`);
- the CNAME content check rejects only text without a dot (a valid domain
  always has one, so the domain test adds nothing);
- the update flow stores the typed id unchecked; a mismatch later ends the
  flow, while a mismatched id in the delete flow keeps the session;
- the delete listing builds per-record `delete_record_id_*` buttons but
  never attaches them (`src/index.js:313-319`); such callback data would
  reach no handler anyway;
- JavaScript's `undefined` is kept where it shows: template strings render
  it as `"undefined"` (`Js.Show`), and `{...undefined}` is `{}`.

Modules: `Js` (undefined and its rendering), `Strings` (split, join, index
and the JavaScript `trim`), `Utils` (`src/utils.js`), `ValidatorCases` (the validators and
`getParentDomain` on concrete inputs), `Provider` (records,
request bodies, calls and answers), `Lookup` (`find` and the wildcard
filter), `Conversation` (sessions and handlers), `Invariants` (what every
reachable session satisfies and what the writes target), `Runs` (sequences
of updates) and `Scenarios` (the add flow end to end).

## Model

| member | source | states |
|---|---|---|
| Utils.OctetPatternIsOctet | src/utils.js:5 | One octet alternative of the pattern matches exactly the strings of 1 to 3 ASCII digits whose value is at most 255, leading zeros allowed. |
| Utils.IPv4Characterisation | src/utils.js:4-6 | An IPv4 literal is accepted iff it splits on `.` into exactly four parts, each 1 to 3 ASCII digits of value at most 255. |
| Utils.IPv4Shape | src/utils.js:5 | Every accepted IPv4 literal consists of digits and dots only, with exactly three dots. |
| ValidatorCases.IPv4OfParts | src/utils.js:5 | An address written as dot-free parts joined by dots is accepted iff there are exactly four parts and each matches an octet alternative. |
| ValidatorCases.IPv4AcceptsPrivateAddress | src/utils.js:5 | `192.168.1.1` is accepted. |
| ValidatorCases.IPv4AcceptsLeadingZeros | src/utils.js:5 | `010.0.0.1` is accepted: leading zeros pass. |
| ValidatorCases.IPv4RejectsLargeOctet | src/utils.js:5 | `256.1.1.1` is rejected. |
| ValidatorCases.IPv4RejectsThreeOctets | src/utils.js:5 | `1.2.3` is rejected. |
| ValidatorCases.IPv4RejectsFiveOctets | src/utils.js:5 | `1.2.3.4.5` is rejected. |
| Utils.LabelPatternIsLabel | src/utils.js:10 | The label pattern matches exactly 1 to 63 letters, digits and hyphens that neither start nor end with a hyphen. |
| Utils.DomainCharacterisation | src/utils.js:8-11 | A domain is accepted iff it is an optional `*.`, then one or more labels each followed by a dot, then 2 to 6 ASCII letters. |
| Utils.DomainShape | src/utils.js:10 | Every accepted domain contains a dot and has no empty label. |
| ValidatorCases.BodyOfParts | src/utils.js:10 | A name without the `*.` prefix, written as dot-free parts, is accepted iff there are at least two parts, all but the last match the label pattern and the last is 2 to 6 letters. |
| ValidatorCases.StarredDomain | src/utils.js:10 | A name starting with `*.` is accepted iff the part after the star and dot is an unprefixed domain; the star is never a label, so the unprefixed reading never accepts it. |
| ValidatorCases.DomainAcceptsWildcard | src/utils.js:10 | `*.example.com` is accepted. |
| ValidatorCases.DomainRejectsSingleLabel | src/utils.js:10 | `example` is rejected. |
| ValidatorCases.DomainRejectsEmptyLabel | src/utils.js:10 | `*..com` is rejected. |
| ValidatorCases.DomainRejectsBareWildcard | src/utils.js:10 | `*.com` is rejected. |
| ValidatorCases.DomainRejectsLeadingHyphen | src/utils.js:10 | `-bad.com` is rejected. |
| Utils.ParentDomainSpec | src/utils.js:13-20 | The result is a suffix of the input; with more than two dot-separated parts it is the text after the first dot and its parts are the input's minus the first; otherwise it is the input. |
| Utils.ParentDomainParts | src/utils.js:15-17 | With more than two parts, the parent has exactly one part fewer, so at least two. |
| ValidatorCases.ParentDropsFirstLabel | src/utils.js:16-17 | The parent of `a.b.example.com` is `b.example.com`. |
| ValidatorCases.ParentKeepsTwoLabels | src/utils.js:19 | `example.com` is its own parent. |
| Utils.ExtractWildcardSubdomain | src/utils.js:22-29 | The result is a prefix of the input; it differs from the input iff there are more than two parts and the first is `*`, and then it is `*.` followed by one dot-free label. |
| Utils.ExtractValue | src/utils.js:24-26 | When it applies, the name has a dot after its leading `*.`, and the extraction is the name up to, not including, that dot. |
| Utils.WildcardReassembly | src/utils.js:13-29 | For a wildcard name with at least four parts, the extracted subdomain, a dot and the grandparent domain rebuild the name. |
| Strings.SplitSeparatorFree | src/utils.js:15 | No part of a split contains the separator. |
| Strings.SplitJoinsBack | src/utils.js:15-17 | Joining the parts of a split with the separator gives the input back. |
| Strings.SplitJoin | src/utils.js:15-17 | Splitting the join of dot-free parts on the separator gives the parts back. |
| Strings.SplitCount | src/utils.js:15 | A split has one more part than the string has separators. |
| Strings.TrimStartSpec | src/index.js:89 | Trimming the start keeps a suffix of the text that does not start with whitespace, and everything removed is whitespace. |
| Strings.TrimEndSpec | src/index.js:89 | Trimming the end keeps a prefix of the text that does not end with whitespace, and everything removed is whitespace. |
| Strings.TrimUnpadded | src/index.js:89 | The trimmed text neither starts nor ends with JavaScript whitespace. |
| Strings.TrimUntouched | src/index.js:89 | A text with no whitespace at either end is left as it is by trimming. |
| Strings.TrimIdempotent | src/index.js:89 | Trimming twice is trimming once. |
| Lookup.FindZone | src/index.js:151 | The zone found has the name asked for and no earlier zone has it; nothing is found iff no zone has the name. |
| Lookup.FindRecord | src/index.js:331 | A record is found iff the id is defined and some snapshot record has it; the record found is the first snapshot record with that id. |
| Lookup.WildcardOnly | src/index.js:167 | Every record the filter keeps has a name starting with `*.`, and it keeps no more records than it was given. |
| Lookup.WildcardOnlyCounts | src/index.js:167 | The filter keeps each record whose name starts with `*.` exactly as often as the input holds it, and no other record. |
| Lookup.WildcardOnlyAppend | src/index.js:167 | The filter keeps the input order: filtering a concatenation gives the filtered halves concatenated. |
| Lookup.WildcardOnlySingle | src/index.js:167 | A single record is kept iff its name starts with `*.`. |
| Lookup.WildcardOnlyMembers | src/index.js:167 | A record is in the filtered list iff it is in the input and its name starts with `*.`. |
| Conversation.ParseAction | src/index.js:43-83 | A callback is routed to the action whose callback data it equals, and to no handler when none has it. |
| Conversation.DeleteRecordButtonsUnhandled | src/index.js:313-319 | The callback data of the per-record delete buttons, which the listing builds but never attaches, would reach no handler. |
| Conversation.GetZoneId | src/index.js:149-158 | A failing listing fails; the zone is missing iff no listed zone has the name; a found id belongs to a listed zone of that name. |
| Conversation.GetZoneIdFirst | src/index.js:151 | A found id is that of the first listed zone of that name, even when the listing repeats the name. |
| Conversation.FetchWildcards | src/index.js:163-167 | The listing flows first list the zones, then, only for a usable zone id, look up all types under `*.` and the parent domain, and keep only the wildcard records; a falsy id stops after the zone listing. |
| Conversation.ListRecords | src/index.js:160-184 | The list flow deletes the session on every outcome, issues no write, and lists exactly the wildcard records the provider returned, when there are any. |
| Conversation.CnameTargetNeedsOnlyADot | src/index.js:239 | The CNAME content check accepts exactly the texts that contain a dot. |
| Conversation.StageContent | src/index.js:211-232 | After validation: a duplicate of the same name and type deletes the session; otherwise the content is stored and the step is kept; a missing zone or a provider failure deletes the session; a falsy zone id changes nothing; no write is issued. |
| Conversation.AddRecordA | src/index.js:202-233 | A content is rejected, with nothing changed and nothing called, exactly when it is not an IPv4 literal; a session without data crashes; the step never advances. |
| Conversation.AddRecordCname | src/index.js:235-266 | A content is rejected, with nothing changed and nothing called, exactly when it has no dot; a session without data crashes. |
| Conversation.ChooseRecordType | src/index.js:186-200 | The type buttons set the step whatever it was, then the type; with no session they crash unchanged, and without data they crash after the step was written. |
| Conversation.FinalizeAddRecord | src/index.js:278-295 | One create with the stored type, the assembled name, the stored content, the chosen proxy flag and ttl 1, for a usable zone only; the session is deleted whatever the outcome; success iff the write succeeded. |
| Conversation.SnapshotRecords | src/index.js:297-326 | A non-empty wildcard listing becomes the session's snapshot (domain, zone id, records) at the record-id step; an empty listing or a failure deletes the session; a falsy id leaves it. |
| Conversation.DeleteConfirmation | src/index.js:328-346 | An id not in the snapshot changes nothing and calls nothing; a listed id issues one delete in the stored zone and deletes the session. |
| Conversation.ChooseRecordToUpdate | src/index.js:128-134 | The typed id is stored unchecked and the step moves to the update-action choice. |
| Conversation.ChooseContentUpdate | src/index.js:375-398 | The stored id is looked up in the snapshot: not found or an unsupported type ends the flow; an A or CNAME record is kept as the target and the matching new-content step is entered. |
| Conversation.ToggleRecordProxy | src/index.js:400-421 | One update of the snapshot record with the proxy flag negated and type, name, content and ttl as listed; the session is deleted; a missing record only deletes it. |
| Conversation.WriteNewContent | src/index.js:432-439 | One update of the chosen record with only the content replaced; a missing target is reported, not fatal; the session is deleted. |
| Conversation.UpdateRecordA | src/index.js:423-440 | A new content is rejected, with nothing changed, exactly when it is not an IPv4 literal; otherwise the chosen record is written. |
| Conversation.UpdateRecordCname | src/index.js:442-459 | A new content is rejected, with nothing changed, exactly when it has no dot; otherwise the chosen record is written. |
| Conversation.HandleText | src/index.js:87-145 | Text touches only the caller's entry; with no session, or at a step with no text case, nothing changes. |
| Conversation.ListAccountZones | src/index.js:43-59 | The zone listing leaves the store as it was, calls only the zone listing, and lists the zones iff there are any. |
| Conversation.HandleButton | src/index.js:61-83 | A flow's menu action replaces the caller's session by the bare first step; unknown callback data and `list_zones` leave the store as it was. |
| Conversation.HandleUpdate | src/index.js:14-22 | An unauthorised caller changes nothing and calls nothing; every update touches only the caller's entry; the commands change nothing. |
| Conversation.TextReadsOnlyCaller | src/index.js:87-145 | Two stores that hold the same entry for the sender give the same calls, the same reply and the same new entry for the sender. |
| Conversation.AddTextReadsOnlyCaller | src/index.js:102-118 | The same, for text at a step of the add flow (the record-type step falls to the default case). |
| Conversation.UpdateTextReadsOnlyCaller | src/index.js:125-143 | The same, for text at a step of the update flow. |
| Conversation.ButtonReadsOnlyCaller | src/index.js:61-83 | Two stores that hold the same entry for the presser give the same calls, the same reply and the same new entry for the presser. |
| Conversation.UpdateReadsOnlyCaller | src/index.js:14-145 | What an update does to and for its caller depends on the caller's entry alone; with the write half in `HandleUpdate`, users' sessions are independent. |
| Invariants.HandledPreservesInvariant | src/index.js:87-459 | Every update that does not crash keeps the invariant: snapshots hold only wildcard records, a chosen target is in the snapshot, and the steps that read data unguarded have it. |
| Invariants.TextNeverCrashes | src/index.js:87-145 | Under the invariant no text message crashes the bot. |
| Invariants.AtMostOneWriteLast | src/index.js:278-459 | An update issues at most one write, and it is its last provider call. |
| Invariants.DeletesOnlyListedRecords | src/index.js:328-346 | A delete comes only from typed text at the record-id step, names the trimmed text, targets a wildcard record of the snapshot and the stored zone. |
| Invariants.UpdatesOnlyListedRecords | src/index.js:400-459 | An update targets a wildcard record of the snapshot in the stored zone, keeps its name, type and ttl, and changes either the proxy flag (the toggle button) or the content (the typed text), never both. |
| Invariants.CreatesOnlyOnProxyChoice | src/index.js:268-295 | A create comes only from a proxy-choice button, proxied iff it is the yes button, with ttl 1 and the session's type, content and assembled name. |
| Runs.UnauthorisedRunChangesNothing | src/index.js:15-22 | Any run of unauthorised updates leaves the store unchanged and calls nothing. |
| Runs.RunLeavesOthersAlone | src/index.js:25 | A user who sent none of a run's updates keeps their session. |
| Runs.RunPreservesInvariant | src/index.js:87-459 | A run that does not crash keeps the session invariant. |
| Runs.TextRunsNeverCrash | src/index.js:87-145 | From a store that keeps the invariant, any run of text messages never crashes. |
| Scenarios.AddFlowCreatesOneRecord | src/index.js:67-295 | Clicking through the add flow with a valid address creates exactly one proxied A record named from the trimmed subdomain and parent domain, with ttl 1, after two zone listings and one duplicate lookup, and removes only the caller's session. |
| Scenarios.EarlyTypeChoiceCrashes | src/index.js:186-192 | Pressing the A button right after starting the add flow crashes with the step set to the address step and no data. |
| Scenarios.StuckSessionCrashesOnText | src/index.js:113-114 | Such a session crashes on every text the user sends. |

## Left out

- `src/cloudflare.js` is not part of this model beyond its defaults: HTTP,
  authentication headers and error wrapping become the provider calls and
  answers; the server-side name filtering of a lookup is not modelled.
- `bot_script.py`, a separate one-shot script, is not part of this model.
- Reply texts, HTML formatting, inline keyboards and `answerCbQuery` are
  reduced to a `Reply` tag; logging is dropped.
- `bot.launch` and the signal handlers: process lifecycle.
- The parsing of the allow-list from the environment (`parseInt`, `NaN`):
  the allow-list is a given sequence of ids.
- Asynchronous interleaving of updates across `await` points: each update
  is handled atomically.
- What the framework does after an uncaught exception is not modelled: a
  run stops at the first crash.
- Replies and `ctx.answerCbQuery()` never fail. In the delete and update listings the snapshot is
  written before the reply (`src/index.js:318-319`, `:367-368`), so a failed
  reply would reach the `catch` and delete the session (`:322-324`,
  `:369-372`); a failed reply or `answerCbQuery` outside any `try` would
  throw. Neither is modelled.
- Records always carry `ttl` and `proxied`, so the provider wrapper's
  defaults `proxied = false, ttl = 1` for an omitted argument
  (`src/cloudflare.js:41`, `:68`) are never used on the update path; the
  create path passes `proxied` and leaves `ttl` to its default of 1.
- A provider answer that is not an array (a lookup answer of `null`, say):
  answers are either a list or a failure.
- The wildcard subdomain the user types is stored unvalidated, as in the
  source; `extractWildcardSubdomain` is never called by the bot and is
  modelled on its own.
