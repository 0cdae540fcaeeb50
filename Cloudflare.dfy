/**
 * The DNS provider as the reconciliation engine sees it: a record store
 * queried with `GET /zones?name=…` and `GET /zones/{id}/dns_records?type=A`
 * and changed with `PATCH /zones/{id}/dns_records/{recordId}`.
 */
module Cloudflare {
  import opened Wrappers

  datatype DnsRecord = DnsRecord(id: string, content: string)

  /** The three requests the engine sends; the status each one gets is an input of the model. */
  datatype Request =
    | GetZones(name: string)
    | GetARecords(zoneId: string)
    | PatchRecord(zoneId: string, recordId: string, content: string)

  /**
   * The provider's state. `zones[name]` is the `result` list of the zone query
   * for `name`, `aRecords[zoneId]` the `result` list of the type-A record
   * query for that zone, both in the provider's order; a missing key stands
   * for an empty `result`.
   */
  datatype Remote = Remote(zones: map<string, seq<string>>, aRecords: map<string, seq<DnsRecord>>)

  function ZonesNamed(r: Remote, name: string): seq<string> {
    if name in r.zones then r.zones[name] else []
  }

  function ARecords(r: Remote, zoneId: string): seq<DnsRecord> {
    if zoneId in r.aRecords then r.aRecords[zoneId] else []
  }

  /** The zone the engine picks for a domain: the first one the zone query returns. */
  function ZoneOf(r: Remote, name: string): Option<string> {
    var zs := ZonesNamed(r, name);
    if zs == [] then None else Some(zs[0])
  }

  /** The record the engine picks for a domain: the first type-A record of its zone. */
  function CurrentRecord(r: Remote, name: string): Option<DnsRecord> {
    match ZoneOf(r, name)
    case None => None
    case Some(z) => if ARecords(r, z) == [] then None else Some(ARecords(r, z)[0])
  }

  /** The domain's address record, as the engine reads it, holds `ip`. */
  predicate PointsTo(r: Remote, name: string, ip: string) {
    CurrentRecord(r, name).Some? && CurrentRecord(r, name).value.content == ip
  }

  /** A PATCH with body `{content}` applied to the records of one zone. */
  function SetContent(recs: seq<DnsRecord>, id: string, content: string): (out: seq<DnsRecord>)
    ensures |out| == |recs|
    ensures forall i :: 0 <= i < |recs| ==>
      out[i].id == recs[i].id &&
      out[i].content == (if recs[i].id == id then content else recs[i].content)
    decreases |recs|
  {
    if recs == [] then []
    else
      var head := if recs[0].id == id then DnsRecord(recs[0].id, content) else recs[0];
      [head] + SetContent(recs[1..], id, content)
  }

  /** The provider's state after a successful PATCH of one record. */
  function Patched(r: Remote, zoneId: string, recordId: string, content: string): (r': Remote)
    ensures r'.zones == r.zones
    ensures forall z :: z != zoneId ==> ARecords(r', z) == ARecords(r, z)
    ensures ARecords(r', zoneId) == SetContent(ARecords(r, zoneId), recordId, content)
  {
    Remote(r.zones, r.aRecords[zoneId := SetContent(ARecords(r, zoneId), recordId, content)])
  }

  /** A PATCH never moves a domain that already points at `content` away from it. */
  lemma PatchKeepsPointsTo(r: Remote, zoneId: string, recordId: string, content: string, name: string)
    requires PointsTo(r, name, content)
    ensures PointsTo(Patched(r, zoneId, recordId, content), name, content)
  {
    var z := ZoneOf(r, name).value;
    if z == zoneId {
      assert ARecords(Patched(r, zoneId, recordId, content), z)[0].content == content;
    }
  }
}
