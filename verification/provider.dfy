/** The DNS provider as the bot sees it: the entities it returns, the calls
    the bot issues (as effects), and the replies those calls produce (as
    inputs). The HTTP wrapper itself (`src/cloudflare.js`) is not modelled. */
module Provider {
  import opened Js

  /** A zone of the account: an opaque id and a fully qualified name. */
  datatype Zone = Zone(id: string, name: string)

  /** A DNS record as the provider returns it. */
  datatype DnsRecord = DnsRecord(
    id: string,
    recordType: string,
    name: string,
    content: string,
    proxied: bool,
    ttl: int)

  /** The `type` query parameter of a record listing: `null` asks for every type. */
  datatype TypeFilter = AllTypes | OnlyType(recordType: string)

  /** The `ttl` that `createDNSRecord` sends when the caller passes none:
      1, the provider's "automatic". */
  const DefaultTtl: int := 1

  /** The JSON body `{type, name, content, proxied, ttl}` that both the
      create and the update call send. A field whose value is undefined is
      dropped from the request, which `Opt` keeps visible. */
  datatype Body = Body(recordType: Opt<string>, name: string, content: Opt<string>, proxied: bool, ttl: int)

  /** The body that writes `r`'s fields back with some of them replaced. */
  function BodyOf(r: DnsRecord): (b: Body)
  {
    Body(Defined(r.recordType), r.name, Defined(r.content), r.proxied, r.ttl)
  }

  /** One call to the provider, in the order the bot issues them. Path and
      name text that the source builds from a possibly-undefined value is
      already rendered (see `Js.Show`). */
  datatype Effect =
    | GetZones
    | GetRecords(zoneId: string, filter: TypeFilter, name: string)
    | CreateRecord(zoneId: string, body: Body)
    | UpdateRecord(zoneId: string, recordId: string, body: Body)
    | DeleteRecord(zoneId: string, recordId: string)

  /** Calls that change the provider's records. */
  predicate IsWrite(e: Effect)
  {
    e.CreateRecord? || e.UpdateRecord? || e.DeleteRecord?
  }

  predicate NoWrites(effects: seq<Effect>)
  {
    forall k :: 0 <= k < |effects| ==> !IsWrite(effects[k])
  }

  /** The reply to a listing call: the result array, or a failure (any
      transport error or non-2xx status, which the wrapper turns into one
      thrown error). */
  datatype Answer<+T> = Ok(value: T) | Failed

  /** What the provider answers to the calls one event can issue: the source
      makes at most one zone listing, one record listing and one write per
      event. `writeOk` is false when the write call throws. */
  datatype Replies = Replies(zones: Answer<seq<Zone>>, records: Answer<seq<DnsRecord>>, writeOk: bool)
}
