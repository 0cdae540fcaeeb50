/**
 * `updateDomain`: find the domain's zone, take the zone's first type-A
 * record, and PATCH it to the given address unless it already holds it.
 * Every request goes through `sendRequest`, so each one may fail with its
 * status; the first failure ends the attempt.
 */
module Reconciler {
  import opened Wrappers
  import opened Http
  import opened Cloudflare

  const DomainNotFound := "Domain not found in Cloudflare"
  const RecordNotFound := "Type \"A\" DNS record not found"
  const NotChangedMessage := "No attempt to change IP address because it has not changed"

  /** One entry of `log.domainLogs` (and of the update history). */
  datatype DomainLog =
      /** What `updateDomain` returns. */
    | Reconciled(domain: string, oldIpAddress: string, newIpAddress: string, updated: bool)
      /** A caught error: `{domain, message, updated: false}`. */
    | Failed(domain: string, message: string)
      /** The cache already holds the address: `{domain, message, updated: false}`. */
    | Unchanged(domain: string)
  {
    /** The entry's `updated` field (`false` for the two kinds that have no such field set). */
    predicate IsUpdate() {
      Reconciled? && updated
    }

    /** The entry's `message` field, if it has one: every entry that is not `updateDomain`'s result has one. */
    function Message(): (m: Option<string>)
      ensures m.Some? <==> !Reconciled?
      ensures Failed? ==> m == Some(message)
      ensures Unchanged? ==> m == Some(NotChangedMessage)
    {
      match this
      case Reconciled(_, _, _, _) => None
      case Failed(_, m) => Some(m)
      case Unchanged(_) => Some(NotChangedMessage)
    }
  }

  /** What one call of `updateDomain` does: its result or thrown message, the requests it sent, the provider after it. */
  datatype Attempt = Attempt(outcome: Result<DomainLog, string>, sent: seq<Request>, remote: Remote)

  /** A message `updateDomain` can throw. */
  ghost predicate IsProviderError(m: string) {
    m == DomainNotFound || m == RecordNotFound || exists s: nat :: !IsOk(s) && m == StatusMessage(s)
  }

  function UpdateDomain(remote: Remote, status: Request -> nat, domainName: string, ipAddress: string): (a: Attempt)
    // the zone query comes first, at most three requests are sent
    ensures 1 <= |a.sent| <= 3 && a.sent[0] == GetZones(domainName)
    // the record query is sent exactly when the zone query succeeded and found a zone, and it asks for that zone's records
    ensures |a.sent| >= 2 <==> IsOk(status(GetZones(domainName))) && ZoneOf(remote, domainName).Some?
    ensures |a.sent| >= 2 ==> a.sent[1] == GetARecords(ZoneOf(remote, domainName).value)
    // a third request is always the PATCH
    ensures |a.sent| == 3 ==> a.sent[2].PatchRecord?
    // nothing is sent after a request that failed, and only the last request can be a PATCH
    ensures forall i :: 0 <= i < |a.sent| - 1 ==> IsOk(status(a.sent[i])) && !a.sent[i].PatchRecord?
    // it succeeds exactly when every request it sent succeeded and the zone and its A record exist
    ensures a.outcome.Ok? <==>
      (forall i :: 0 <= i < |a.sent| ==> IsOk(status(a.sent[i]))) && CurrentRecord(remote, domainName).Some?
    // a success reports the record's previous content and the new address; it is an update exactly when they differ
    ensures a.outcome.Ok? ==>
      var was := CurrentRecord(remote, domainName).value.content;
      a.outcome.value == Reconciled(domainName, was, ipAddress, was != ipAddress)
    // the error thrown: the failed request's status, else which lookup came back empty
    ensures a.outcome.Err? ==>
      var last := a.sent[|a.sent| - 1];
      a.outcome.error ==
        if !IsOk(status(last)) then StatusMessage(status(last))
        else if ZoneOf(remote, domainName).None? then DomainNotFound
        else RecordNotFound
    ensures a.outcome.Err? ==> IsProviderError(a.outcome.error)
    // a PATCH targets the record found, writes the address, and is sent only when the record differs from it
    ensures forall i :: 0 <= i < |a.sent| && a.sent[i].PatchRecord? ==>
      CurrentRecord(remote, domainName).Some? &&
      CurrentRecord(remote, domainName).value.content != ipAddress &&
      a.sent[i] == PatchRecord(ZoneOf(remote, domainName).value, CurrentRecord(remote, domainName).value.id, ipAddress)
    ensures
      && IsOk(status(GetZones(domainName)))
      && CurrentRecord(remote, domainName).Some?
      && IsOk(status(GetARecords(ZoneOf(remote, domainName).value)))
      && CurrentRecord(remote, domainName).value.content != ipAddress
      ==> |a.sent| == 3 && a.sent[2].PatchRecord?
    ensures a.outcome.Ok? ==> (a.sent[|a.sent| - 1].PatchRecord? <==> a.outcome.value.updated)
    // the provider changes only through a successful PATCH, and afterwards the domain points at the address
    ensures !(a.outcome.Ok? && a.outcome.value.updated) ==> a.remote == remote
    ensures a.outcome.Ok? ==> PointsTo(a.remote, domainName, ipAddress)
    // a successful PATCH changes exactly the record found, and nothing else at the provider
    ensures a.outcome.Ok? && a.outcome.value.updated ==>
      a.remote == Patched(remote, ZoneOf(remote, domainName).value, CurrentRecord(remote, domainName).value.id, ipAddress)
  {
    var zoneQuery := GetZones(domainName);
    if !IsOk(status(zoneQuery)) then
      Attempt(Err(StatusMessage(status(zoneQuery))), [zoneQuery], remote)
    else if ZonesNamed(remote, domainName) == [] then
      Attempt(Err(DomainNotFound), [zoneQuery], remote)
    else
      var zoneId := ZonesNamed(remote, domainName)[0];
      var recordQuery := GetARecords(zoneId);
      if !IsOk(status(recordQuery)) then
        assert [zoneQuery, recordQuery][1] == recordQuery;
        Attempt(Err(StatusMessage(status(recordQuery))), [zoneQuery, recordQuery], remote)
      else if ARecords(remote, zoneId) == [] then
        Attempt(Err(RecordNotFound), [zoneQuery, recordQuery], remote)
      else
        var record := ARecords(remote, zoneId)[0];
        if record.content == ipAddress then
          Attempt(Ok(Reconciled(domainName, record.content, ipAddress, false)), [zoneQuery, recordQuery], remote)
        else
          var patch := PatchRecord(zoneId, record.id, ipAddress);
          if !IsOk(status(patch)) then
            assert [zoneQuery, recordQuery, patch][2] == patch;
            Attempt(Err(StatusMessage(status(patch))), [zoneQuery, recordQuery, patch], remote)
          else
            var after := Patched(remote, zoneId, record.id, ipAddress);
            assert ARecords(after, zoneId)[0].content == ipAddress;
            Attempt(Ok(Reconciled(domainName, record.content, ipAddress, true)), [zoneQuery, recordQuery, patch], after)
  }

  /** The three kinds of thrown message are told apart by their first character. */
  lemma ErrorMessagesDistinct(status: nat)
    ensures DomainNotFound != RecordNotFound
    ensures StatusMessage(status) != DomainNotFound && StatusMessage(status) != RecordNotFound
  {
    assert StatusMessage(status)[0] == 'R';
    assert DomainNotFound[0] == 'D' && RecordNotFound[0] == 'T';
  }

  /** Whatever `updateDomain` does, a domain already pointing at the address keeps pointing at it. */
  lemma UpdateDomainKeepsPointsTo(remote: Remote, status: Request -> nat, domainName: string, ipAddress: string, name: string)
    requires PointsTo(remote, name, ipAddress)
    ensures PointsTo(UpdateDomain(remote, status, domainName, ipAddress).remote, name, ipAddress)
  {
    var a := UpdateDomain(remote, status, domainName, ipAddress);
    if a.remote != remote {
      var r := CurrentRecord(remote, domainName).value;
      PatchKeepsPointsTo(remote, ZoneOf(remote, domainName).value, r.id, ipAddress, name);
    }
  }

  /** A thrown message is never empty, so every failed entry carries a message. */
  lemma ProviderErrorNonEmpty(m: string)
    requires IsProviderError(m)
    ensures m != ""
  {
    if m != DomainNotFound && m != RecordNotFound {
      var s: nat :| !IsOk(s) && m == StatusMessage(s);
      assert |StatusPrefix| > 0;
    }
  }
}
