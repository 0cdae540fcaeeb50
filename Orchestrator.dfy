/**
 * `checkUpdate`: walk the configured domains in order, skip those whose
 * cached address already equals the public address, call `updateDomain`
 * for the others with each failure caught, then save the new cache, the
 * update history (extended only when something was updated) and the run log.
 */
module Orchestrator {
  import opened Wrappers
  import opened Http
  import opened Cloudflare
  import opened Reconciler

  const NoPublicIpMessage := "No Public IP Address found"

  /** `config.json`. Only `domains` matters to the model; `api` and `token` build the requests. */
  datatype Config = Config(domains: seq<string>, api: string, token: string)

  /** An entry of `internal.json`: `{ ipAddress }`, where `ipAddress` may be missing. */
  datatype Known = Known(ipAddress: Option<string>)

  /** `last-run.json`. */
  datatype RunLog = RunLog(
    currentTime: string,
    publicIpAddress: Option<string>,
    domainLogs: seq<DomainLog>,
    message: Option<string>)

  /** What the domain loop reads but never changes. */
  datatype Inputs = Inputs(publicIpAddress: string, internal: map<string, Known>, status: Request -> nat)

  /** The result of the public-address lookup, given the lookup's trimmed output. */
  function PublicIpAddress(output: string): (r: Result<string, string>)
    ensures r.Ok? <==> output != ""
    ensures r.Ok? ==> r.value == output
    ensures r.Err? ==> r.error == NoPublicIpMessage
  {
    if output == "" then Err(NoPublicIpMessage) else Ok(output)
  }

  /** The loop's guard: the cached entry is missing, has no (or an empty) address, or a different one. */
  function NeedsAttempt(internal: map<string, Known>, domain: string, publicIp: string): (r: bool)
    ensures publicIp != "" ==> (r <==> !(domain in internal && internal[domain].ipAddress == Some(publicIp)))
  {
    || domain !in internal
    || internal[domain].ipAddress.None?
    || internal[domain].ipAddress.value == ""
    || internal[domain].ipAddress.value != publicIp
  }

  /** `newInternal[domain] = internal[domain]`; an undefined value is dropped when the map is saved. */
  function CarryForward(newInternal: map<string, Known>, internal: map<string, Known>, domain: string): (m: map<string, Known>)
    ensures domain in m <==> domain in internal
    ensures domain in internal ==> m[domain] == internal[domain]
    ensures forall d :: d != domain ==> (d in m <==> d in newInternal)
    ensures forall d :: d != domain && d in newInternal ==> m[d] == newInternal[d]
  {
    if domain in internal then newInternal[domain := internal[domain]] else newInternal - {domain}
  }

  /** What one iteration of the loop does for one domain. */
  datatype Handled = Handled(log: DomainLog, sent: seq<Request>, remote: Remote)

  function HandleDomain(inputs: Inputs, remote: Remote, domain: string): (h: Handled)
    ensures h.log.domain == domain
    // the provider is called exactly for the domains whose cache entry does not already hold the address
    ensures h.sent == [] <==> !NeedsAttempt(inputs.internal, domain, inputs.publicIpAddress)
    ensures h.log.Unchanged? <==> !NeedsAttempt(inputs.internal, domain, inputs.publicIpAddress)
    ensures h.sent != [] ==> h.sent[0] == GetZones(domain)
    // a skipped domain leaves the provider alone
    ensures h.log.Unchanged? ==> h.remote == remote
    // an attempted domain is `updateDomain`'s call: it fails exactly when the call throws, with the thrown message
    ensures NeedsAttempt(inputs.internal, domain, inputs.publicIpAddress) ==>
      var a := UpdateDomain(remote, inputs.status, domain, inputs.publicIpAddress);
      && h.sent == a.sent && h.remote == a.remote
      && (h.log.Failed? <==> a.outcome.Err?)
      && (a.outcome.Err? ==> h.log.message == a.outcome.error)
      && (a.outcome.Ok? ==> h.log == a.outcome.value)
    // a failure is logged with the thrown message and leaves the provider as it was
    ensures h.log.Failed? ==> IsProviderError(h.log.message) && h.remote == remote
    // a reconciled domain reports the record's previous content and now points at the address
    ensures h.log.Reconciled? ==>
      && CurrentRecord(remote, domain).Some?
      && h.log.oldIpAddress == CurrentRecord(remote, domain).value.content
      && h.log.newIpAddress == inputs.publicIpAddress
      && (h.log.updated <==> h.log.oldIpAddress != h.log.newIpAddress)
      && PointsTo(h.remote, domain, inputs.publicIpAddress)
    // self-heal: no PATCH and no change at the provider
    ensures h.log.Reconciled? && !h.log.updated ==>
      h.remote == remote && forall i :: 0 <= i < |h.sent| ==> !h.sent[i].PatchRecord?
    // the only thing ever written is the public address, and nothing already pointing at it is moved
    ensures forall i :: 0 <= i < |h.sent| && h.sent[i].PatchRecord? ==> h.sent[i].content == inputs.publicIpAddress
  {
    if NeedsAttempt(inputs.internal, domain, inputs.publicIpAddress) then
      var a := UpdateDomain(remote, inputs.status, domain, inputs.publicIpAddress);
      match a.outcome
      case Ok(r) => Handled(r, a.sent, a.remote)
      case Err(m) => Handled(Failed(domain, m), a.sent, a.remote)
    else
      Handled(Unchanged(domain), [], remote)
  }

  /** Handling one domain never moves another domain that already points at the public address. */
  lemma HandleDomainKeepsPointsTo(inputs: Inputs, remote: Remote, domain: string, name: string)
    requires PointsTo(remote, name, inputs.publicIpAddress)
    ensures PointsTo(HandleDomain(inputs, remote, domain).remote, name, inputs.publicIpAddress)
  {
    if NeedsAttempt(inputs.internal, domain, inputs.publicIpAddress) {
      UpdateDomainKeepsPointsTo(remote, inputs.status, domain, inputs.publicIpAddress, name);
    }
  }

  /** The provider's state after a sequence of handled domains. */
  function RemoteAfter(remote: Remote, handled: seq<Handled>): Remote {
    if handled == [] then remote else handled[|handled| - 1].remote
  }

  /** What the loop body does for each domain in turn, each against the provider as the previous ones left it. */
  function Outcomes(inputs: Inputs, remote: Remote, domains: seq<string>): (hs: seq<Handled>)
    ensures |hs| == |domains|
    decreases |domains|
  {
    if domains == [] then []
    else
      var earlier := Outcomes(inputs, remote, domains[..|domains| - 1]);
      earlier + [HandleDomain(inputs, RemoteAfter(remote, earlier), domains[|domains| - 1])]
  }

  function Logs(handled: seq<Handled>): seq<DomainLog> {
    seq(|handled|, i requires 0 <= i < |handled| => handled[i].log)
  }

  function Sent(handled: seq<Handled>): seq<seq<Request>> {
    seq(|handled|, i requires 0 <= i < |handled| => handled[i].sent)
  }

  /** The cache entry for `domain` is what its log entry calls for: the public address, or the previous entry (or none). */
  predicate EntryFollows(inputs: Inputs, newInternal: map<string, Known>, domain: string, log: DomainLog) {
    if log.Reconciled? then
      domain in newInternal && newInternal[domain] == Known(Some(inputs.publicIpAddress))
    else
      && (domain in newInternal <==> domain in inputs.internal)
      && (domain in inputs.internal ==> newInternal[domain] == inputs.internal[domain])
  }

  /** The entry the loop body leaves in `newInternal` for `domain`, given the domain's log entry. */
  function NextCache(inputs: Inputs, newInternal: map<string, Known>, domain: string, log: DomainLog): (m: map<string, Known>)
    ensures EntryFollows(inputs, m, domain, log)
    ensures forall d :: d != domain ==> (d in m <==> d in newInternal)
    ensures forall d :: d != domain && d in newInternal ==> m[d] == newInternal[d]
  {
    if log.Reconciled? then newInternal[domain := Known(Some(inputs.publicIpAddress))]
    else CarryForward(newInternal, inputs.internal, domain)
  }

  /** `newInternal` after the loop, from the domains and their log entries. */
  function Cache(inputs: Inputs, domains: seq<string>, logs: seq<DomainLog>): map<string, Known>
    requires |logs| == |domains|
    decreases |domains|
  {
    if domains == [] then map[]
    else
      var n := |domains|;
      NextCache(inputs, Cache(inputs, domains[..n - 1], logs[..n - 1]), domains[n - 1], logs[n - 1])
  }

  /** The entries of a log that record a real update, in their order. */
  function UpdatesIn(logs: seq<DomainLog>): (r: seq<DomainLog>)
    ensures |r| <= |logs|
    ensures forall i :: 0 <= i < |r| ==> r[i].IsUpdate() && r[i] in logs
    ensures forall i :: 0 <= i < |logs| && logs[i].IsUpdate() ==> logs[i] in r
    decreases |logs|
  {
    if logs == [] then []
    else
      var last := logs[|logs| - 1];
      UpdatesIn(logs[..|logs| - 1]) + (if last.IsUpdate() then [last] else [])
  }

  lemma DropLastOfAppend<T>(a: seq<T>, b: seq<T>)
    requires b != []
    ensures (a + b)[..|a + b| - 1] == a + b[..|b| - 1] && (a + b)[|a + b| - 1] == b[|b| - 1]
  {
  }

  /** Filtering a log split in two filters each part and keeps them in order. */
  lemma {:induction false} UpdatesInAppend(a: seq<DomainLog>, b: seq<DomainLog>)
    ensures UpdatesIn(a + b) == UpdatesIn(a) + UpdatesIn(b)
    decreases |b|
  {
    if b == [] {
      assert a + b == a;
    } else {
      var front, last := b[..|b| - 1], b[|b| - 1];
      var tail := if last.IsUpdate() then [last] else [];
      var ab := a + b;
      DropLastOfAppend(a, b);
      calc {
        UpdatesIn(ab);
        UpdatesIn(a + front) + tail;
        { UpdatesInAppend(a, front); }
        (UpdatesIn(a) + UpdatesIn(front)) + tail;
        UpdatesIn(a) + (UpdatesIn(front) + tail);
        UpdatesIn(a) + UpdatesIn(b);
      }
    }
  }

  /** A single entry is kept exactly when it is an update. */
  lemma UpdatesInSingle(e: DomainLog)
    ensures UpdatesIn([e]) == if e.IsUpdate() then [e] else []
  {
    assert [e][..0] == [];
  }

  /** The positions of the updates in a log, in increasing order. */
  function UpdateIndices(logs: seq<DomainLog>): (idx: seq<nat>)
    ensures forall j :: 0 <= j < |idx| ==> idx[j] < |logs|
    ensures forall j, j' :: 0 <= j < j' < |idx| ==> idx[j] < idx[j']
    ensures forall k :: 0 <= k < |logs| ==> (logs[k].IsUpdate() <==> k in idx)
    decreases |logs|
  {
    if logs == [] then []
    else
      var n := |logs| - 1;
      var front := logs[..n];
      assert forall k :: 0 <= k < n ==> front[k] == logs[k];
      UpdateIndices(front) + if logs[n].IsUpdate() then [n] else []
  }

  /** The update list is the log's subsequence at exactly the update positions. */
  lemma {:induction false} UpdatesInAtIndices(logs: seq<DomainLog>)
    ensures var idx := UpdateIndices(logs);
      |UpdatesIn(logs)| == |idx| && forall j :: 0 <= j < |idx| ==> UpdatesIn(logs)[j] == logs[idx[j]]
    decreases |logs|
  {
    if logs != [] {
      var n := |logs| - 1;
      var front, last := logs[..n], logs[n];
      var prev, tail := UpdatesIn(front), if last.IsUpdate() then [last] else [];
      assert UpdatesIn(logs) == prev + tail;
      UpdatesInAtIndices(front);
      var idx := UpdateIndices(logs);
      assert idx == UpdateIndices(front) + if last.IsUpdate() then [n] else [];
      forall j | 0 <= j < |idx|
        ensures UpdatesIn(logs)[j] == logs[idx[j]]
      {
        if j < |prev| {
          assert UpdatesIn(logs)[j] == prev[j] == front[idx[j]];
        }
      }
    }
  }

  /** The loop's locals, with the requests each domain sent. */
  datatype Progress = Progress(
    newInternal: map<string, Known>,
    domainUpdates: seq<DomainLog>,
    domainLogs: seq<DomainLog>,
    sent: seq<seq<Request>>,
    remote: Remote)

  /** The loop's locals after running over `domains`. */
  function Run(inputs: Inputs, remote: Remote, domains: seq<string>): Progress {
    var hs := Outcomes(inputs, remote, domains);
    var logs := Logs(hs);
    Progress(Cache(inputs, domains, logs), UpdatesIn(logs), logs, Sent(hs), RemoteAfter(remote, hs))
  }

  /** One more domain extends every local of the loop by that domain's iteration. */
  lemma RunStep(inputs: Inputs, remote: Remote, domains: seq<string>, domain: string)
    ensures var p, h := Run(inputs, remote, domains), HandleDomain(inputs, Run(inputs, remote, domains).remote, domain);
      Run(inputs, remote, domains + [domain]) == Progress(
        NextCache(inputs, p.newInternal, domain, h.log),
        if h.log.IsUpdate() then p.domainUpdates + [h.log] else p.domainUpdates,
        p.domainLogs + [h.log],
        p.sent + [h.sent],
        h.remote)
  {
    var ds := domains + [domain];
    assert ds[..|ds| - 1] == domains;
    var hs := Outcomes(inputs, remote, domains);
    var h := HandleDomain(inputs, RemoteAfter(remote, hs), domain);
    assert Outcomes(inputs, remote, ds) == hs + [h];
    FoldStep(inputs, domains, hs, domain, h);
  }

  /** Appending one handled domain extends the log, the requests, the cache and the update list by it. */
  lemma FoldStep(inputs: Inputs, domains: seq<string>, hs: seq<Handled>, domain: string, h: Handled)
    requires |hs| == |domains|
    ensures var ds, hs' := domains + [domain], hs + [h];
      && Logs(hs') == Logs(hs) + [h.log]
      && Sent(hs') == Sent(hs) + [h.sent]
      && Cache(inputs, ds, Logs(hs')) == NextCache(inputs, Cache(inputs, domains, Logs(hs)), domain, h.log)
      && UpdatesIn(Logs(hs')) == UpdatesIn(Logs(hs)) + if h.log.IsUpdate() then [h.log] else []
  {
    var ds, hs' := domains + [domain], hs + [h];
    var logs, logs' := Logs(hs), Logs(hs');
    assert logs' == logs + [h.log];
    assert ds[..|ds| - 1] == domains;
    assert logs'[..|logs|] == logs;
  }

  /** The domain loop of `checkUpdate`. */
  method ReconcileDomains(inputs: Inputs, remote: Remote, domains: seq<string>)
    returns (newInternal: map<string, Known>, domainUpdates: seq<DomainLog>, domainLogs: seq<DomainLog>,
             sent: seq<seq<Request>>, remoteAfter: Remote)
    ensures Progress(newInternal, domainUpdates, domainLogs, sent, remoteAfter) == Run(inputs, remote, domains)
  {
    newInternal, domainUpdates, domainLogs, sent, remoteAfter := map[], [], [], [], remote;
    var publicIp := inputs.publicIpAddress;
    for i := 0 to |domains|
      invariant Progress(newInternal, domainUpdates, domainLogs, sent, remoteAfter) == Run(inputs, remote, domains[..i])
    {
      var domain := domains[i];
      assert domains[..i + 1] == domains[..i] + [domain];
      RunStep(inputs, remote, domains[..i], domain);
      ghost var h := HandleDomain(inputs, remoteAfter, domain);
      if NeedsAttempt(inputs.internal, domain, publicIp) {
        var a := UpdateDomain(remoteAfter, inputs.status, domain, publicIp);
        assert h.sent == a.sent && h.remote == a.remote;
        sent := sent + [a.sent];
        remoteAfter := a.remote;
        match a.outcome {
          case Ok(updatedDomain) =>
            assert h.log == updatedDomain;
            newInternal := newInternal[domain := Known(Some(publicIp))];
            if updatedDomain.updated {
              domainUpdates := domainUpdates + [updatedDomain];
            }
            domainLogs := domainLogs + [updatedDomain];
          case Err(message) =>
            assert h.log == Failed(domain, message);
            newInternal := CarryForward(newInternal, inputs.internal, domain);
            domainLogs := domainLogs + [Failed(domain, message)];
        }
      } else {
        assert h == Handled(Unchanged(domain), [], remoteAfter);
        newInternal := CarryForward(newInternal, inputs.internal, domain);
        domainLogs := domainLogs + [Unchanged(domain)];
        sent := sent + [[]];
      }
    }
    assert domains[..|domains|] == domains;
  }

  /** `updates = { ...updates, [currentTime]: domainUpdates }` when the list is non-empty. */
  function MergeHistory(updates: map<string, seq<DomainLog>>, currentTime: string, domainUpdates: seq<DomainLog>)
    : (r: map<string, seq<DomainLog>>)
    ensures r.Keys == if domainUpdates == [] then updates.Keys else updates.Keys + {currentTime}
    ensures domainUpdates != [] ==> r[currentTime] == domainUpdates
    ensures forall t :: t in updates && t != currentTime ==> r[t] == updates[t]
    ensures domainUpdates == [] ==> r == updates
  {
    if |domainUpdates| > 0 then updates[currentTime := domainUpdates] else updates
  }

  /** `loadJson`: a missing file reads as an empty object. */
  function LoadJson<V>(file: Option<map<string, V>>): (r: map<string, V>)
    ensures forall k :: k in r <==> file.Some? && k in file.value
    ensures forall k :: k in r ==> r[k] == file.value[k]
  {
    match file
    case None => map[]
    case Some(m) => m
  }

  /** The three files the program keeps; `None` is a file that does not exist. */
  class Storage {
    var internalJson: Option<map<string, Known>>
    var updatesJson: Option<map<string, seq<DomainLog>>>
    var lastRunJson: Option<RunLog>

    constructor(internalJson: Option<map<string, Known>>, updatesJson: Option<map<string, seq<DomainLog>>>,
                lastRunJson: Option<RunLog>)
      ensures this.internalJson == internalJson && this.updatesJson == updatesJson && this.lastRunJson == lastRunJson
    {
      this.internalJson := internalJson;
      this.updatesJson := updatesJson;
      this.lastRunJson := lastRunJson;
    }

    /**
     * One run. `lookupOutput` is the trimmed output of the public-address
     * lookup, `status` the status the provider answers each request with.
     * Returns the provider's state afterwards.
     */
    method CheckUpdate(currentTime: string, lookupOutput: string, config: Config, remote: Remote, status: Request -> nat)
      returns (remoteAfter: Remote)
      modifies this
      // no public address: only the run log is written, with the error message
      ensures lookupOutput == "" ==>
        && internalJson == old(internalJson)
        && updatesJson == old(updatesJson)
        && lastRunJson == Some(RunLog(currentTime, None, [], Some(NoPublicIpMessage)))
        && remoteAfter == remote
      // otherwise all three files are written from the outcome of the whole loop
      ensures lookupOutput != "" ==>
        var p := Run(Inputs(lookupOutput, LoadJson(old(internalJson)), status), remote, config.domains);
        && internalJson == Some(p.newInternal)
        && updatesJson == Some(MergeHistory(LoadJson(old(updatesJson)), currentTime, p.domainUpdates))
        && lastRunJson == Some(RunLog(currentTime, Some(lookupOutput), p.domainLogs, None))
        && remoteAfter == p.remote
    {
      var log := RunLog(currentTime, None, [], None);
      var publicIp := PublicIpAddress(lookupOutput);
      if publicIp.Err? {
        // the process-wide error handler: record the message in the log, save it, exit
        lastRunJson := Some(log.(message := Some(publicIp.error)));
        return remote;
      }
      log := log.(publicIpAddress := Some(publicIp.value));
      var internal := LoadJson(internalJson);
      var newInternal, domainUpdates, domainLogs, sent;
      newInternal, domainUpdates, domainLogs, sent, remoteAfter :=
        ReconcileDomains(Inputs(publicIp.value, internal, status), remote, config.domains);
      log := log.(domainLogs := domainLogs);
      internalJson := Some(newInternal);
      var updates := LoadJson(updatesJson);
      if |domainUpdates| > 0 {
        updates := updates[currentTime := domainUpdates];
      }
      updatesJson := Some(updates);
      lastRunJson := Some(log);
    }
  }
}
