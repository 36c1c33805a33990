/**
 * The record loop of `main` (audit.js): for each vulnerability in decoder order, an id
 * already in the tracked map is skipped; otherwise a ticket is requested, and when the
 * tracker answers with a key the entry `{module_name, ticketKey}` is stored under the id
 * and the whole map is written to the tracking file.
 *
 * The tracker is an oracle: `responses[i]` is what the creation call for record i
 * returns (a key, or `None` for the `null` of a failed request). Writing the file is
 * modelled by appending the written map to the sequence of saves.
 */
module Tracking {
  import opened Wrappers
  import opened AuditDecode
  import opened Ticket

  /** One value of the tracking file. */
  datatype Entry = Entry(moduleName: string, ticketKey: string)

  /** The tracking file's content: vulnerability id to entry. */
  type Store = map<string, Entry>

  /**
   * The loop's state after some records: the tracked map, every map written so far,
   * the records a creation request was sent for (the request itself is
   * `ComposeIssue` of the record), the ids whose creation succeeded, and whether an
   * exception has ended `main`.
   */
  datatype Progress = Progress(
    tracked: Store,
    saves: seq<Store>,
    requested: seq<Vulnerability>,
    created: seq<string>,
    aborted: bool)

  /** A returned key counts only when it is present and non-empty (a truthy string). */
  predicate IsTicketKey(response: Option<string>)
  {
    response.Some? && response.value != ""
  }

  /** One iteration of the `for...of` loop: a tracked id or an ended run changes nothing,
      and at most one creation request is sent. */
  function Step(p: Progress, v: Vulnerability, response: Option<string>): (r: Progress)
    ensures p.aborted || v.id in p.tracked ==> r == p
    ensures |r.requested| <= |p.requested| + 1
  {
    if p.aborted || v.id in p.tracked then p
    else if !Composable(v) then p.(aborted := true)
    else if IsTicketKey(response) then Created(p, v.id, Entry(v.moduleName, response.value), v)
    else p.(requested := p.requested + [v])
  }

  /** The state after the first n records. */
  function Run(vs: seq<Vulnerability>, responses: seq<Option<string>>, store: Store, n: nat): (r: Progress)
    requires n <= |vs| == |responses|
    ensures |r.requested| <= n
  {
    if n == 0 then Progress(store, [], [], [], false)
    else Step(Run(vs, responses, store, n - 1), vs[n - 1], responses[n - 1])
  }

  /** Keys are only added: every initial entry is still there, unchanged. */
  ghost predicate KeepsInitial(store: Store, p: Progress)
  {
    forall k :: k in store ==> k in p.tracked && p.tracked[k] == store[k]
  }

  /** Every other key belongs to an id whose creation succeeded in this run; each id
      succeeds at most once, and never one that was tracked at the start. */
  ghost predicate CreatedOnce(store: Store, p: Progress)
  {
    && (forall k :: k in p.tracked ==> k in store || k in p.created)
    && (forall j :: 0 <= j < |p.created| ==> p.created[j] in p.tracked && p.created[j] !in store)
    && (forall j, l :: 0 <= j < l < |p.created| ==> p.created[j] != p.created[l])
  }

  /** One save per successful creation, never more than requests; save j holds exactly
      the initial keys and the first j + 1 created ids, with their current values, and
      the last save is the current map. */
  ghost predicate SavesFaithful(store: Store, p: Progress)
  {
    && |p.saves| == |p.created| <= |p.requested|
    && (|p.saves| > 0 ==> p.saves[|p.saves| - 1] == p.tracked)
    && (forall j, k :: 0 <= j < |p.saves| ==>
          (k in p.saves[j] <==> k in store || k in p.created[..j + 1]))
    && (forall j, k :: 0 <= j < |p.saves| && k in p.saves[j] ==>
          k in p.tracked && p.saves[j][k] == p.tracked[k])
  }

  /** What holds of the loop's state at every point of a run started from `store`. */
  ghost predicate Consistent(store: Store, p: Progress)
  {
    KeepsInitial(store, p) && CreatedOnce(store, p) && SavesFaithful(store, p)
  }

  /** The state after a successful creation for `id` with entry `e`. */
  function Created(p: Progress, id: string, e: Entry, v: Vulnerability): Progress
  {
    var t := p.tracked[id := e];
    Progress(t, p.saves + [t], p.requested + [v], p.created + [id], false)
  }

  lemma CreationKeepsInitial(store: Store, p: Progress, id: string, e: Entry, v: Vulnerability)
    requires KeepsInitial(store, p) && CreatedOnce(store, p) && id !in p.tracked
    ensures KeepsInitial(store, Created(p, id, e, v)) && CreatedOnce(store, Created(p, id, e, v))
  {
  }

  lemma CreationSaveKeys(store: Store, p: Progress, id: string, e: Entry, v: Vulnerability)
    requires Consistent(store, p)
    ensures var q := Created(p, id, e, v);
      forall j, k :: 0 <= j < |q.saves| ==> (k in q.saves[j] <==> k in store || k in q.created[..j + 1])
  {
    var q := Created(p, id, e, v);
    forall j | 0 <= j < |p.saves| ensures q.saves[j] == p.saves[j] && q.created[..j + 1] == p.created[..j + 1] {
    }
    assert q.created[..|q.saves|] == q.created;
    assert q.saves[|q.saves| - 1] == q.tracked;
    forall k ensures k in q.tracked <==> k in store || k in q.created {
      assert k in q.created <==> k in p.created || k == id;
    }
  }

  lemma CreationSaveValues(store: Store, p: Progress, id: string, e: Entry, v: Vulnerability)
    requires SavesFaithful(store, p) && id !in p.tracked
    ensures var q := Created(p, id, e, v);
      forall j, k :: 0 <= j < |q.saves| && k in q.saves[j] ==> k in q.tracked && q.saves[j][k] == q.tracked[k]
  {
    var q := Created(p, id, e, v);
    forall j, k | 0 <= j < |q.saves| && k in q.saves[j]
      ensures k in q.tracked && q.saves[j][k] == q.tracked[k]
    {
      if j < |p.saves| {
        assert q.saves[j] == p.saves[j];
        assert k in p.tracked;
      }
    }
  }

  lemma CreationSavesFaithful(store: Store, p: Progress, id: string, e: Entry, v: Vulnerability)
    requires Consistent(store, p) && id !in p.tracked
    ensures SavesFaithful(store, Created(p, id, e, v))
  {
    CreationSaveKeys(store, p, id, e, v);
    CreationSaveValues(store, p, id, e, v);
  }

  /** The successful-creation case of one step keeps the state Consistent. */
  lemma CreationConsistent(store: Store, p: Progress, id: string, e: Entry, v: Vulnerability)
    requires Consistent(store, p) && id !in p.tracked
    ensures Consistent(store, Created(p, id, e, v))
  {
    CreationKeepsInitial(store, p, id, e, v);
    CreationSavesFaithful(store, p, id, e, v);
  }

  lemma StepConsistent(store: Store, p: Progress, v: Vulnerability, response: Option<string>)
    requires Consistent(store, p)
    ensures Consistent(store, Step(p, v, response))
  {
    if !p.aborted && v.id !in p.tracked && Composable(v) && IsTicketKey(response) {
      CreationConsistent(store, p, v.id, Entry(v.moduleName, response.value), v);
    }
  }

  /** A step either leaves the map as it is or adds an entry for the record's id, which
      was not tracked: no entry already tracked is removed or replaced. */
  lemma StepKeepsEntries(p: Progress, v: Vulnerability, response: Option<string>)
    ensures var r := Step(p, v, response);
      r.tracked == p.tracked ||
      (v.id !in p.tracked && v.id in r.tracked && r.tracked == p.tracked[v.id := r.tracked[v.id]])
  {
  }

  /** Every state of a run is Consistent. */
  lemma {:induction false} RunConsistent(vs: seq<Vulnerability>, responses: seq<Option<string>>, store: Store, n: nat)
    requires n <= |vs| == |responses|
    ensures Consistent(store, Run(vs, responses, store, n))
  {
    if n > 0 {
      RunConsistent(vs, responses, store, n - 1);
      StepConsistent(store, Run(vs, responses, store, n - 1), vs[n - 1], responses[n - 1]);
    }
  }

  /** Record i is the first of the first n records with id k whose creation returned a key. */
  predicate FirstKeyed(vs: seq<Vulnerability>, responses: seq<Option<string>>, k: string, i: int, n: nat)
    requires n <= |vs| == |responses|
  {
    && 0 <= i < n && vs[i].id == k && IsTicketKey(responses[i])
    && forall j :: 0 <= j < i && vs[j].id == k ==> !IsTicketKey(responses[j])
  }

  /** Every entry added during a run was stored for the first record with that id whose
      creation returned a key, and holds that record's module name and that key: later
      records with the same id never replace it. */
  lemma {:induction false} RunProvenance(vs: seq<Vulnerability>, responses: seq<Option<string>>, store: Store, n: nat)
    requires n <= |vs| == |responses|
    ensures var p := Run(vs, responses, store, n);
      forall k :: k in p.tracked && k !in store ==>
        exists i :: FirstKeyed(vs, responses, k, i, n) &&
          p.tracked[k] == Entry(vs[i].moduleName, responses[i].value)
  {
    if n > 0 {
      var q := Run(vs, responses, store, n - 1);
      var v, r := vs[n - 1], responses[n - 1];
      RunProvenance(vs, responses, store, n - 1);
      forall k, i | FirstKeyed(vs, responses, k, i, n - 1) ensures FirstKeyed(vs, responses, k, i, n) {
      }
      if !q.aborted && v.id !in q.tracked && Composable(v) && IsTicketKey(r) {
        RunCoverage(vs, responses, store, n - 1);
        assert FirstKeyed(vs, responses, v.id, n - 1, n);
      }
    }
  }

  /** Once the run has aborted, later records change nothing. */
  lemma {:induction false} AbortedStays(vs: seq<Vulnerability>, responses: seq<Option<string>>, store: Store, m: nat, n: nat)
    requires m <= n <= |vs| == |responses|
    requires Run(vs, responses, store, m).aborted
    ensures Run(vs, responses, store, n) == Run(vs, responses, store, m)
  {
    if n > m {
      AbortedStays(vs, responses, store, m, n - 1);
    }
  }

  /** A run over records that are all tracked already sends no request and writes nothing. */
  lemma {:induction false} AllTrackedIsNoop(vs: seq<Vulnerability>, responses: seq<Option<string>>, store: Store, n: nat)
    requires n <= |vs| == |responses|
    requires forall i :: 0 <= i < n ==> vs[i].id in store
    ensures Run(vs, responses, store, n) == Progress(store, [], [], [], false)
  {
    if n > 0 {
      AllTrackedIsNoop(vs, responses, store, n - 1);
    }
  }

  /** After a run that did not abort, each record is tracked unless its own creation
      returned no key. */
  lemma {:induction false} RunCoverage(vs: seq<Vulnerability>, responses: seq<Option<string>>, store: Store, n: nat)
    requires n <= |vs| == |responses|
    requires !Run(vs, responses, store, n).aborted
    ensures forall i :: 0 <= i < n ==>
      vs[i].id in Run(vs, responses, store, n).tracked || !IsTicketKey(responses[i])
  {
    if n > 0 {
      var p := Run(vs, responses, store, n - 1);
      RunCoverage(vs, responses, store, n - 1);
      StepKeepsEntries(p, vs[n - 1], responses[n - 1]);
    }
  }

  /**
   * Creation is idempotent across runs: when every creation of a completed run returned
   * a key, running again over the same records from the resulting map sends no request
   * and leaves the map as it is, whatever the tracker would answer.
   */
  lemma RerunCreatesNothing(vs: seq<Vulnerability>, responses: seq<Option<string>>,
                            responses2: seq<Option<string>>, store: Store)
    requires |vs| == |responses| == |responses2|
    requires forall i :: 0 <= i < |responses| ==> IsTicketKey(responses[i])
    requires !Run(vs, responses, store, |vs|).aborted
    ensures var after := Run(vs, responses, store, |vs|).tracked;
      Run(vs, responses2, after, |vs|) == Progress(after, [], [], [], false)
  {
    var after := Run(vs, responses, store, |vs|).tracked;
    RunCoverage(vs, responses, store, |vs|);
    AllTrackedIsNoop(vs, responses2, after, |vs|);
  }

  /** The outcomes of record i, one per branch of the loop body. */
  lemma RunSkips(vs: seq<Vulnerability>, responses: seq<Option<string>>, store: Store, i: nat)
    requires i < |vs| == |responses| && vs[i].id in Run(vs, responses, store, i).tracked
    ensures Run(vs, responses, store, i + 1) == Run(vs, responses, store, i)
  {
  }

  lemma RunAborts(vs: seq<Vulnerability>, responses: seq<Option<string>>, store: Store, i: nat)
    requires i < |vs| == |responses| && vs[i].id !in Run(vs, responses, store, i).tracked
    requires !Run(vs, responses, store, i).aborted && !Composable(vs[i])
    ensures Run(vs, responses, store, i + 1).aborted
  {
  }

  lemma RunRequests(vs: seq<Vulnerability>, responses: seq<Option<string>>, store: Store, i: nat)
    requires i < |vs| == |responses| && vs[i].id !in Run(vs, responses, store, i).tracked
    requires !Run(vs, responses, store, i).aborted && Composable(vs[i])
    ensures var p := Run(vs, responses, store, i);
      Run(vs, responses, store, i + 1) ==
        if IsTicketKey(responses[i]) then Created(p, vs[i].id, Entry(vs[i].moduleName, responses[i].value), vs[i])
        else p.(requested := p.requested + [vs[i]])
  {
  }

  /**
   * The loop of `main` over the decoded records, starting from the loaded map. It returns
   * the final map, every map written to the tracking file in order, every creation
   * request sent (the composed fields of each record it was sent for), and whether the
   * loop ran to the end (false when composing a request threw, which ends `main`).
   */
  method TrackVulnerabilities(vulnerabilities: seq<Vulnerability>, responses: seq<Option<string>>,
                              store: Store, projectKey: string, epicKey: string)
    returns (tracked: Store, saves: seq<Store>, requests: seq<Issue>, completed: bool)
    requires |responses| == |vulnerabilities|
    ensures var p := Run(vulnerabilities, responses, store, |vulnerabilities|);
      && tracked == p.tracked && saves == p.saves && completed == !p.aborted
      && |requests| == |p.requested|
      && forall j :: 0 <= j < |requests| ==>
           ComposeIssue(p.requested[j], projectKey, epicKey) == Ok(requests[j])
  {
    tracked, saves, requests, completed := store, [], [], true;
    ghost var requested: seq<Vulnerability> := [];
    ghost var created: seq<string> := [];
    var i := 0;
    while i < |vulnerabilities|
      invariant 0 <= i <= |vulnerabilities|
      invariant Run(vulnerabilities, responses, store, i)
        == Progress(tracked, saves, requested, created, false)
      invariant |requests| == |requested|
      invariant forall j :: 0 <= j < |requests| ==> ComposeIssue(requested[j], projectKey, epicKey) == Ok(requests[j])
    {
      var v := vulnerabilities[i];
      if v.id in tracked {
        RunSkips(vulnerabilities, responses, store, i);
        i := i + 1;
        continue;
      }
      var composed := ComposeIssue(v, projectKey, epicKey);
      if composed.Err? {
        RunAborts(vulnerabilities, responses, store, i);
        completed := false;
        AbortedStays(vulnerabilities, responses, store, i + 1, |vulnerabilities|);
        return;
      }
      RunRequests(vulnerabilities, responses, store, i);
      requests := requests + [composed.value];
      requested := requested + [v];
      var ticketKey := responses[i];
      if ticketKey.Some? && ticketKey.value != "" {
        tracked := tracked[v.id := Entry(v.moduleName, ticketKey.value)];
        saves := saves + [tracked];
        created := created + [v.id];
      }
      i := i + 1;
    }
  }
}
