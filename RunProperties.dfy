/**
 * What a whole pass of the domain loop guarantees: one log entry per
 * configured domain in order, the update list is exactly the updated
 * entries, the new cache follows each domain's last outcome, the provider
 * ends up pointing every reconciled domain at the public address, and the
 * history grows only when something was updated.
 */
module RunProperties {
  import opened Wrappers
  import opened Http
  import opened Cloudflare
  import opened Reconciler
  import opened Orchestrator

  /** Index `k` holds the last occurrence of its domain in `domains`. */
  predicate LastOccurrence(domains: seq<string>, k: int) {
    0 <= k < |domains| && forall j :: k < j < |domains| ==> domains[j] != domains[k]
  }

  /** Handling a prefix of the domains gives a prefix of the outcomes: nothing earlier is revisited. */
  lemma {:induction false} OutcomesPrefix(inputs: Inputs, remote: Remote, domains: seq<string>, k: nat)
    requires k <= |domains|
    ensures Outcomes(inputs, remote, domains[..k]) == Outcomes(inputs, remote, domains)[..k]
    decreases |domains|
  {
    if k < |domains| {
      var front := domains[..|domains| - 1];
      assert domains[..k] == front[..k];
      OutcomesPrefix(inputs, remote, front, k);
    } else {
      assert domains[..k] == domains;
    }
  }

  /** Outcome `k` is the loop body for `domains[k]` against the provider as the earlier domains left it. */
  lemma OutcomeAt(inputs: Inputs, remote: Remote, domains: seq<string>, k: nat)
    requires k < |domains|
    ensures var hs := Outcomes(inputs, remote, domains);
      hs[k] == HandleDomain(inputs, RemoteAfter(remote, hs[..k]), domains[k])
  {
    OutcomesPrefix(inputs, remote, domains, k + 1);
    OutcomesPrefix(inputs, remote, domains, k);
    assert domains[..k + 1][..k] == domains[..k];
  }

  /** Entry `k` of the run's log and requests is what the loop body did for `domains[k]`. */
  lemma RunEntryAt(inputs: Inputs, remote: Remote, domains: seq<string>, k: nat)
    requires k < |domains|
    ensures var p, hs := Run(inputs, remote, domains), Outcomes(inputs, remote, domains);
      var h := HandleDomain(inputs, RemoteAfter(remote, hs[..k]), domains[k]);
      |p.domainLogs| == |p.sent| == |domains| && p.domainLogs[k] == h.log && p.sent[k] == h.sent
  {
    OutcomeAt(inputs, remote, domains, k);
  }

  /**
   * One log entry per configured domain, in configuration order; a domain
   * whose cached address equals the public one gets the not-changed entry
   * and causes no request; every other one starts with the zone query.
   */
  lemma RunLogOrder(inputs: Inputs, remote: Remote, domains: seq<string>)
    ensures var p := Run(inputs, remote, domains);
      && |p.domainLogs| == |domains| == |p.sent|
      && (forall k :: 0 <= k < |domains| ==> p.domainLogs[k].domain == domains[k])
      && (forall k :: 0 <= k < |domains| ==>
            && (p.sent[k] == [] <==> !NeedsAttempt(inputs.internal, domains[k], inputs.publicIpAddress))
            && (p.domainLogs[k] == Unchanged(domains[k]) <==> p.sent[k] == [])
            && (p.sent[k] == [] ==> p.domainLogs[k].Message() == Some(NotChangedMessage))
            && (p.sent[k] != [] ==> p.sent[k][0] == GetZones(domains[k])))
  {
    forall k | 0 <= k < |domains| {
      RunEntryAt(inputs, remote, domains, k);
    }
  }

  /**
   * Every attempted domain's entry is either a failure carrying a non-empty
   * message `updateDomain` throws, or a reconciliation to the public address
   * that counts as an update exactly when the old address differs.
   */
  lemma RunLogOutcomes(inputs: Inputs, remote: Remote, domains: seq<string>)
    ensures var p := Run(inputs, remote, domains);
      && |p.domainLogs| == |domains|
      && (forall k :: 0 <= k < |domains| && p.domainLogs[k].Failed? ==>
            IsProviderError(p.domainLogs[k].message) && p.domainLogs[k].message != "")
      && (forall k :: 0 <= k < |domains| && p.domainLogs[k].Reconciled? ==>
            && p.domainLogs[k].newIpAddress == inputs.publicIpAddress
            && (p.domainLogs[k].updated <==> p.domainLogs[k].oldIpAddress != inputs.publicIpAddress))
  {
    var p := Run(inputs, remote, domains);
    forall k | 0 <= k < |domains| && p.domainLogs[k].Failed?
      ensures IsProviderError(p.domainLogs[k].message) && p.domainLogs[k].message != ""
    {
      RunEntryAt(inputs, remote, domains, k);
      ProviderErrorNonEmpty(p.domainLogs[k].message);
    }
    forall k | 0 <= k < |domains| && p.domainLogs[k].Reconciled?
      ensures p.domainLogs[k].newIpAddress == inputs.publicIpAddress
      ensures p.domainLogs[k].updated <==> p.domainLogs[k].oldIpAddress != inputs.publicIpAddress
    {
      RunEntryAt(inputs, remote, domains, k);
    }
  }

  /**
   * Failure isolation: an attempted domain's entry is a failure exactly when
   * `updateDomain`, run against the provider as the earlier domains left it,
   * throws, and it carries the thrown message; the loop then goes on.
   */
  lemma RunFailures(inputs: Inputs, remote: Remote, domains: seq<string>)
    ensures var p, hs := Run(inputs, remote, domains), Outcomes(inputs, remote, domains);
      && |p.domainLogs| == |hs| == |domains|
      && forall k :: 0 <= k < |domains| && NeedsAttempt(inputs.internal, domains[k], inputs.publicIpAddress) ==>
           var a := UpdateDomain(RemoteAfter(remote, hs[..k]), inputs.status, domains[k], inputs.publicIpAddress);
           && (p.domainLogs[k].Failed? <==> a.outcome.Err?)
           && (a.outcome.Err? ==> p.domainLogs[k].message == a.outcome.error)
  {
    forall k | 0 <= k < |domains| {
      RunEntryAt(inputs, remote, domains, k);
    }
  }

  /** Every PATCH the run sends writes the public address. */
  lemma RunWritesOnlyPublicIp(inputs: Inputs, remote: Remote, domains: seq<string>)
    ensures var p := Run(inputs, remote, domains);
      |p.sent| == |domains| &&
      forall k, i :: 0 <= k < |domains| && 0 <= i < |p.sent[k]| && p.sent[k][i].PatchRecord? ==>
        p.sent[k][i].content == inputs.publicIpAddress
  {
    forall k | 0 <= k < |domains| {
      RunEntryAt(inputs, remote, domains, k);
    }
  }

  /**
   * The cache the loop builds holds only configured domains, and for each
   * domain its last log entry decides: a reconciled domain maps to the public
   * address, a skipped or failed one keeps exactly its previous entry, or
   * stays absent.
   */
  lemma {:induction false} CacheFollowsLogs(inputs: Inputs, domains: seq<string>, logs: seq<DomainLog>)
    requires |logs| == |domains|
    ensures forall d :: d in Cache(inputs, domains, logs) ==> d in domains
    ensures forall k :: LastOccurrence(domains, k) ==> EntryFollows(inputs, Cache(inputs, domains, logs), domains[k], logs[k])
    decreases |domains|
  {
    if domains != [] {
      var n := |domains|;
      var front, d := domains[..n - 1], domains[n - 1];
      CacheFollowsLogs(inputs, front, logs[..n - 1]);
      var m, m' := Cache(inputs, domains, logs), Cache(inputs, front, logs[..n - 1]);
      forall x | x in m ensures x in domains {
        if x != d {
          assert x in front;
        }
      }
      forall k | LastOccurrence(domains, k) && k < n - 1
        ensures EntryFollows(inputs, m, domains[k], logs[k])
      {
        assert front[k] == domains[k] != d;
        assert LastOccurrence(front, k);
        assert EntryFollows(inputs, m', domains[k], logs[..n - 1][k]);
      }
    }
  }

  /** The saved cache after a run: see CacheFollowsLogs, applied to the run's own log. */
  lemma RunNewInternal(inputs: Inputs, remote: Remote, domains: seq<string>)
    ensures var p := Run(inputs, remote, domains);
      && |p.domainLogs| == |domains|
      && (forall d :: d in p.newInternal ==> d in domains)
      && (forall k :: LastOccurrence(domains, k) ==> EntryFollows(inputs, p.newInternal, domains[k], p.domainLogs[k]))
  {
    var hs := Outcomes(inputs, remote, domains);
    CacheFollowsLogs(inputs, domains, Logs(hs));
  }

  /** After handling the domains in turn, every reconciled one points at the public address, even if a later one shares its zone. */
  lemma {:induction false} ReconciledPointsTo(inputs: Inputs, remote: Remote, domains: seq<string>)
    ensures var hs := Outcomes(inputs, remote, domains);
      forall k :: 0 <= k < |hs| && hs[k].log.Reconciled? ==>
        PointsTo(RemoteAfter(remote, hs), domains[k], inputs.publicIpAddress)
    decreases |domains|
  {
    if domains != [] {
      var n := |domains|;
      var front := domains[..n - 1];
      ReconciledPointsTo(inputs, remote, front);
      var hs, hs' := Outcomes(inputs, remote, domains), Outcomes(inputs, remote, front);
      var last := HandleDomain(inputs, RemoteAfter(remote, hs'), domains[n - 1]);
      assert hs == hs' + [last];
      assert RemoteAfter(remote, hs) == last.remote;
      forall k | 0 <= k < n && hs[k].log.Reconciled?
        ensures PointsTo(last.remote, domains[k], inputs.publicIpAddress)
      {
        if k < n - 1 {
          assert front[k] == domains[k] && hs'[k] == hs[k];
          HandleDomainKeepsPointsTo(inputs, RemoteAfter(remote, hs'), domains[n - 1], domains[k]);
        }
      }
    }
  }

  /** The provider after a run: every domain logged as reconciled points at the public address. */
  lemma RunReconciledPointsTo(inputs: Inputs, remote: Remote, domains: seq<string>)
    ensures var p := Run(inputs, remote, domains);
      |p.domainLogs| == |domains| &&
      forall k :: 0 <= k < |domains| && p.domainLogs[k].Reconciled? ==>
        PointsTo(p.remote, domains[k], inputs.publicIpAddress)
  {
    ReconciledPointsTo(inputs, remote, domains);
  }

  /**
   * The update history after a run: the entry under the run's time is set
   * exactly when some domain was really updated, and then holds only real
   * updates to the public address; every other entry stays as it was.
   */
  lemma RunHistory(inputs: Inputs, remote: Remote, domains: seq<string>,
                   updates: map<string, seq<DomainLog>>, currentTime: string)
    ensures var p := Run(inputs, remote, domains);
      var h := MergeHistory(updates, currentTime, p.domainUpdates);
      && (p.domainUpdates != [] <==> exists k :: 0 <= k < |p.domainLogs| && p.domainLogs[k].IsUpdate())
      && (p.domainUpdates != [] ==> currentTime in h && h[currentTime] == p.domainUpdates)
      && (p.domainUpdates == [] ==> h == updates)
      && (forall t :: t in updates && t != currentTime ==> t in h && h[t] == updates[t])
      && (forall i :: 0 <= i < |p.domainUpdates| ==>
            p.domainUpdates[i].IsUpdate() && p.domainUpdates[i].newIpAddress == inputs.publicIpAddress &&
            p.domainUpdates[i].oldIpAddress != inputs.publicIpAddress)
  {
    var p := Run(inputs, remote, domains);
    RunLogOutcomes(inputs, remote, domains);
    UpdatesOfLog(p.domainLogs, inputs.publicIpAddress);
  }

  /** In a log whose reconciled entries all move to `ip`, the updates are exactly the real changes to `ip`. */
  lemma UpdatesOfLog(logs: seq<DomainLog>, ip: string)
    requires forall k :: 0 <= k < |logs| && logs[k].Reconciled? ==>
      logs[k].newIpAddress == ip && (logs[k].updated <==> logs[k].oldIpAddress != ip)
    ensures var u := UpdatesIn(logs);
      && (u != [] <==> exists k :: 0 <= k < |logs| && logs[k].IsUpdate())
      && forall i :: 0 <= i < |u| ==> u[i].IsUpdate() && u[i].newIpAddress == ip && u[i].oldIpAddress != ip
  {
    var u := UpdatesIn(logs);
    forall i | 0 <= i < |u|
      ensures u[i].newIpAddress == ip && u[i].oldIpAddress != ip
    {
      assert u[i] in logs;
      var k :| 0 <= k < |logs| && logs[k] == u[i];
    }
    if exists k :: 0 <= k < |logs| && logs[k].IsUpdate() {
      var k :| 0 <= k < |logs| && logs[k].IsUpdate();
      assert logs[k] in u;
    }
  }

  /**
   * The update list is the subsequence of the log at exactly the positions of
   * the updated domains, in configuration order, each entry once.
   */
  lemma RunUpdateOrder(inputs: Inputs, remote: Remote, domains: seq<string>)
    ensures var p := Run(inputs, remote, domains);
      var idx := UpdateIndices(p.domainLogs);
      && |p.domainLogs| == |domains|
      && |p.domainUpdates| == |idx|
      && (forall j :: 0 <= j < |idx| ==>
            idx[j] < |domains| && p.domainUpdates[j] == p.domainLogs[idx[j]] && p.domainUpdates[j].domain == domains[idx[j]])
      && (forall j, j' :: 0 <= j < j' < |idx| ==> idx[j] < idx[j'])
      && (forall k :: 0 <= k < |domains| ==> (p.domainLogs[k].IsUpdate() <==> k in idx))
  {
    var p := Run(inputs, remote, domains);
    RunLogOrder(inputs, remote, domains);
    UpdatesInAtIndices(p.domainLogs);
  }

  /**
   * A worked run over two domains, public address 2.2.2.2, every request
   * answered 200: the first domain is cached at 1.1.1.1 and its record holds
   * 1.1.1.1, so it is patched; the second is not cached and its record
   * already holds 2.2.2.2, so it is only re-cached.
   */
  const ExampleInputs := Inputs("2.2.2.2", map["a.example" := Known(Some("1.1.1.1"))], (_: Request) => 200)
  const ExampleRemote := Remote(map["a.example" := ["za"], "b.example" := ["zb"]],
                                map["za" := [DnsRecord("ra", "1.1.1.1")], "zb" := [DnsRecord("rb", "2.2.2.2")]])

  lemma ExampleFirstDomain()
    ensures HandleDomain(ExampleInputs, ExampleRemote, "a.example") ==
      Handled(Reconciled("a.example", "1.1.1.1", "2.2.2.2", true),
              [GetZones("a.example"), GetARecords("za"), PatchRecord("za", "ra", "2.2.2.2")],
              Patched(ExampleRemote, "za", "ra", "2.2.2.2"))
  {
    assert "1.1.1.1"[0] != "2.2.2.2"[0];
  }

  lemma ExampleSecondDomain()
    ensures var patched := Patched(ExampleRemote, "za", "ra", "2.2.2.2");
      HandleDomain(ExampleInputs, patched, "b.example") ==
        Handled(Reconciled("b.example", "2.2.2.2", "2.2.2.2", false), [GetZones("b.example"), GetARecords("zb")], patched)
  {
    assert "a.example"[0] != "b.example"[0];
    assert "za"[1] != "zb"[1];
    assert CurrentRecord(Patched(ExampleRemote, "za", "ra", "2.2.2.2"), "b.example") == Some(DnsRecord("rb", "2.2.2.2"));
  }

  /** The loop body's outcomes in the example: an update, then a self-heal against the patched provider. */
  lemma ExampleOutcomes()
    ensures var patched := Patched(ExampleRemote, "za", "ra", "2.2.2.2");
      Outcomes(ExampleInputs, ExampleRemote, ["a.example", "b.example"]) ==
        [Handled(Reconciled("a.example", "1.1.1.1", "2.2.2.2", true),
                 [GetZones("a.example"), GetARecords("za"), PatchRecord("za", "ra", "2.2.2.2")], patched),
         Handled(Reconciled("b.example", "2.2.2.2", "2.2.2.2", false),
                 [GetZones("b.example"), GetARecords("zb")], patched)]
  {
    ExampleFirstDomain();
    ExampleSecondDomain();
    assert ["a.example", "b.example"][..1] == ["a.example"];
    assert ["a.example"][..0] == [];
  }

  /** The example's log, update list and saved cache: both domains re-cached at 2.2.2.2, only the first an update. */
  lemma ExampleRun()
    ensures var p := Run(ExampleInputs, ExampleRemote, ["a.example", "b.example"]);
      && p.domainLogs == [Reconciled("a.example", "1.1.1.1", "2.2.2.2", true),
                          Reconciled("b.example", "2.2.2.2", "2.2.2.2", false)]
      && p.domainUpdates == [Reconciled("a.example", "1.1.1.1", "2.2.2.2", true)]
      && p.newInternal == map["a.example" := Known(Some("2.2.2.2")), "b.example" := Known(Some("2.2.2.2"))]
  {
    var a := Reconciled("a.example", "1.1.1.1", "2.2.2.2", true);
    var b := Reconciled("b.example", "2.2.2.2", "2.2.2.2", false);
    var ds := ["a.example", "b.example"];
    ExampleOutcomes();
    var logs := Logs(Outcomes(ExampleInputs, ExampleRemote, ds));
    assert logs == [a, b];
    assert logs[..1] == [a] && [a][..0] == [];
    assert ds[..1] == ["a.example"] && ["a.example"][..0] == [];
    assert UpdatesIn([a]) == [a];
    assert Cache(ExampleInputs, ["a.example"], [a]) == map["a.example" := Known(Some("2.2.2.2"))];
  }
}
