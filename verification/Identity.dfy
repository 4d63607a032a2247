/** The identity table: which workload owns an IP (controllers/identity_producer.go). */
module Identity {
  import opened Wrappers
  import opened Strings
  import opened Sorting
  import opened Kube
  import Workload

  datatype Entry = Entry(
    ip: string,
    workload: string,
    ns: string,
    app: string,
    internetExposed: bool,
    controlPlane: bool,
    labels: Labels)

  // ---- claims --------------------------------------------------------------------

  /** The Ready condition decides; the first one listed counts. */
  function ReadyOf(cs: seq<Condition>): bool {
    if cs == [] then false
    else if cs[0].ready then cs[0].isTrue
    else ReadyOf(cs[1..])
  }

  predicate Serving(p: Pod) {
    !p.terminating && p.phase == Running && ReadyOf(p.conditions)
  }

  method PodServing(p: Pod) returns (ok: bool)
    ensures ok == Serving(p)
  {
    if p.terminating {
      return false;
    }
    if p.phase != Running {
      return false;
    }
    for i := 0 to |p.conditions|
      invariant ReadyOf(p.conditions) == ReadyOf(p.conditions[i..])
    {
      var c := p.conditions[i];
      if c.ready {
        return c.isTrue;
      }
    }
    return false;
  }

  function ChurnLabels(): set<string> {
    { "pod-template-hash", "controller-revision-hash", "pod-template-generation",
      "statefulset.kubernetes.io/pod-name", "apps.kubernetes.io/pod-index", "controller-uid",
      "batch.kubernetes.io/controller-uid", "batch.kubernetes.io/job-name", "job-name" }
  }

  /** filterLabels: the labels without those that change on every rollout. */
  function FilterLabels(labels: Labels): Labels {
    map k | k in labels && k !in ChurnLabels() :: labels[k]
  }

  /** Go's zero time, the start of a pod that reports none. */
  const ZERO_TIME := 0

  function Start(p: Pod): int { GetOr(p.startTime, ZERO_TIME) }

  function EntryOf(p: Pod, ip: string): Entry {
    Entry(ip, Workload.Name(p), p.ns, Workload.App(p), false, false, FilterLabels(p.labels))
  }

  function RawIPs(p: Pod): seq<string> { [p.podIP] + p.podIPs }

  /** p reports ip, up to surrounding blanks. */
  predicate Reports(p: Pod, ip: string) {
    ip != "" && exists raw | raw in RawIPs(p) :: TrimSpace(raw) == ip
  }

  predicate MayClaim(p: Pod) {
    !p.hostNetwork && Serving(p) && Workload.Name(p) != ""
  }

  predicate Claims(p: Pod, ip: string) { MayClaim(p) && Reports(p, ip) }

  /** podIPs: trimmed, without blanks and repeats. */
  method PodIPs(p: Pod) returns (ips: seq<string>)
    ensures NoDuplicates(ips)
    ensures forall ip :: ip in ips <==> Reports(p, ip)
  {
    var raws := [p.podIP] + p.podIPs;
    ips := [];
    for i := 0 to |raws|
      invariant NoDuplicates(ips)
      invariant forall ip :: ip in ips <==> ip != "" && exists j :: 0 <= j < i && TrimSpace(raws[j]) == ip
    {
      var ip := TrimSpace(raws[i]);
      if ip == "" {
        continue;
      }
      if ip in ips {
        continue;
      }
      ips := ips + [ip];
    }
    forall ip ensures ip in ips <==> Reports(p, ip) {
      if ip in ips {
        var j :| 0 <= j < |raws| && TrimSpace(raws[j]) == ip;
        assert raws[j] in RawIPs(p);
      }
      if Reports(p, ip) {
        var raw :| raw in RawIPs(p) && TrimSpace(raw) == ip;
        var j :| 0 <= j < |raws| && raws[j] == raw;
      }
    }
  }

  // ---- ownership -------------------------------------------------------------------

  /** The pod at index i owns ip: it claims it, no claimant started later, and no
      earlier claimant in the list started at the same time. */
  ghost predicate Owns(pods: seq<Pod>, ip: string, i: int) {
    && 0 <= i < |pods| && Claims(pods[i], ip)
    && (forall j :: 0 <= j < |pods| && Claims(pods[j], ip) ==> Start(pods[j]) <= Start(pods[i]))
    && (forall j :: 0 <= j < i && Claims(pods[j], ip) ==> Start(pods[j]) < Start(pods[i]))
  }

  ghost predicate Claimed(pods: seq<Pod>, ip: string) {
    exists i :: 0 <= i < |pods| && Claims(pods[i], ip)
  }

  /** e and s are the row and start time of ip's owner. */
  ghost predicate OwnerRow(pods: seq<Pod>, ip: string, e: Entry, s: int) {
    exists i :: Owns(pods, ip, i) && e == EntryOf(pods[i], ip) && s == Start(pods[i])
  }

  /** What the two maps hold for one IP after the pods. */
  ghost predicate RowOk(pods: seq<Pod>, ip: string, byIP: map<string, Entry>, start: map<string, int>) {
    && (ip in byIP <==> ip in start)
    && (ip in byIP <==> Claimed(pods, ip))
    && (ip in byIP ==> OwnerRow(pods, ip, byIP[ip], start[ip]))
  }

  lemma OwnerSnoc(pods: seq<Pod>, p: Pod, ip: string, i: int)
    requires Owns(pods, ip, i)
    requires !(Claims(p, ip) && Start(p) > Start(pods[i]))
    ensures Owns(pods + [p], ip, i)
  {
    hide Claims, Start;
  }

  lemma NewOwner(pods: seq<Pod>, p: Pod, ip: string)
    requires Claims(p, ip)
    requires Claimed(pods, ip) ==> exists i :: Owns(pods, ip, i) && Start(p) > Start(pods[i])
    ensures Owns(pods + [p], ip, |pods|)
  {
    hide Claims, Start;
    var all := pods + [p];
    assert all[|pods|] == p;
  }

  lemma ClaimedSnoc(pods: seq<Pod>, p: Pod, ip: string)
    ensures Claimed(pods + [p], ip) <==> Claimed(pods, ip) || Claims(p, ip)
  {
    hide Claims;
    var all := pods + [p];
    if Claimed(pods, ip) {
      var i :| 0 <= i < |pods| && Claims(pods[i], ip);
      assert all[i] == pods[i];
    }
    if Claims(p, ip) { assert all[|pods|] == p; }
  }

  /** A pod that does not claim ip leaves its row alone. */
  lemma RowKept(pods: seq<Pod>, p: Pod, ip: string, byIP: map<string, Entry>, start: map<string, int>)
    requires RowOk(pods, ip, byIP, start) && !Claims(p, ip)
    ensures RowOk(pods + [p], ip, byIP, start)
  {
    hide Claims, Start, EntryOf, Claimed;
    ClaimedSnoc(pods, p, ip);
    if ip in byIP {
      var i :| Owns(pods, ip, i) && byIP[ip] == EntryOf(pods[i], ip) && start[ip] == Start(pods[i]);
      OwnerSnoc(pods, p, ip, i);
      assert (pods + [p])[i] == pods[i];
    }
  }

  /** A pod that claims ip takes it over exactly when it started later. */
  lemma RowClaimed(pods: seq<Pod>, p: Pod, ip: string, byIP: map<string, Entry>, start: map<string, int>)
    requires RowOk(pods, ip, byIP, start) && Claims(p, ip)
    ensures ip in start && Start(p) <= start[ip] ==> RowOk(pods + [p], ip, byIP, start)
    ensures !(ip in start && Start(p) <= start[ip]) ==>
      RowOk(pods + [p], ip, byIP[ip := EntryOf(p, ip)], start[ip := Start(p)])
  {
    hide Claims, Start, EntryOf, Claimed;
    ClaimedSnoc(pods, p, ip);
    var all := pods + [p];
    if ip in start {
      var i :| Owns(pods, ip, i) && byIP[ip] == EntryOf(pods[i], ip) && start[ip] == Start(pods[i]);
      if Start(p) <= start[ip] {
        OwnerSnoc(pods, p, ip, i);
        assert all[i] == pods[i];
      } else {
        NewOwner(pods, p, ip);
        assert all[|pods|] == p;
      }
    } else {
      NewOwner(pods, p, ip);
      assert all[|pods|] == p;
    }
  }

  /** The rows of the resolved table, whatever order they come in. */
  ghost predicate IsTable(pods: seq<Pod>, entries: seq<Entry>) {
    && (forall i, j :: 0 <= i < j < |entries| ==> entries[i].ip != entries[j].ip)
    && (forall ip :: (exists e :: e in entries && e.ip == ip) <==> Claimed(pods, ip))
    && (forall e :: e in entries ==> exists i :: Owns(pods, e.ip, i) && e == EntryOf(pods[i], e.ip))
  }

  /** resolveIdentityEntries: exactly one row per claimed IP, its owner's. */
  method ResolveIdentityEntries(pods: seq<Pod>) returns (entries: seq<Entry>)
    ensures IsTable(pods, entries)
  {
    hide Claims, Serving, Reports, Start, EntryOf, Owns, Claimed, RowOk, FilterLabels;
    var byIP: map<string, Entry> := map[];
    var start: map<string, int> := map[];
    EmptyTable();
    for i := 0 to |pods|
      invariant forall ip :: RowOk(pods[..i], ip, byIP, start)
    {
      var p := pods[i];
      assert pods[..i + 1] == pods[..i] + [p];
      byIP, start := ClaimAll(pods[..i], p, byIP, start);
    }
    assert pods[..|pods|] == pods;
    forall ip | ip in byIP ensures byIP[ip].ip == ip {
      assert RowOk(pods, ip, byIP, start);
      RowIp(pods, ip, byIP, start);
    }
    entries := RowsOf(byIP);
    TableRows(pods, byIP, start, entries);
  }

  lemma EmptyTable()
    ensures forall ip :: RowOk([], ip, map[], map[])
  {}

  /** One pass of the loop: the pod p, after the pods before it. */
  method ClaimAll(ghost pods: seq<Pod>, p: Pod, byIP0: map<string, Entry>, start0: map<string, int>)
    returns (byIP: map<string, Entry>, start: map<string, int>)
    requires forall ip :: RowOk(pods, ip, byIP0, start0)
    ensures forall ip :: RowOk(pods + [p], ip, byIP, start)
  {
    byIP, start := byIP0, start0;
    var serving := PodServing(p);
    var workload, app := Workload.WorkloadIdentity(p);
    if p.hostNetwork || !serving || workload == "" {
      forall ip ensures RowOk(pods + [p], ip, byIP, start) { RowKept(pods, p, ip, byIP, start); }
      return;
    }
    var st := ZERO_TIME;
    if p.startTime.Some? {
      st := p.startTime.value;
    }
    var ips := PodIPs(p);
    assert forall ip :: ip in ips <==> Claims(p, ip);
    byIP, start := ClaimIPs(pods, p, ips, workload, app, st, byIP0, start0);
    forall ip ensures RowOk(pods + [p], ip, byIP, start) {
      assert RowOk(if ip in ips then pods + [p] else pods, ip, byIP, start);
      if ip !in ips { RowKept(pods, p, ip, byIP, start); }
    }
  }

  method ClaimIPs(ghost pods: seq<Pod>, p: Pod, ips: seq<string>, workload: string, app: string, st: int,
                  byIP0: map<string, Entry>, start0: map<string, int>)
    returns (byIP: map<string, Entry>, start: map<string, int>)
    requires forall ip :: RowOk(pods, ip, byIP0, start0)
    requires NoDuplicates(ips) && forall ip :: ip in ips ==> Claims(p, ip)
    requires workload == Workload.Name(p) && app == Workload.App(p) && st == Start(p)
    ensures forall ip :: RowOk(if ip in ips then pods + [p] else pods, ip, byIP, start)
  {
    hide Claims, RowOk, FilterLabels, Start, EntryOf, Workload.Name, Workload.App;
    byIP, start := byIP0, start0;
    ghost var all := pods + [p];
    for k := 0 to |ips|
      invariant forall ip :: RowOk(if ip in ips[..k] then all else pods, ip, byIP, start)
    {
      var ip := ips[k];
      assert ips[..k + 1] == ips[..k] + [ip] && ip !in ips[..k];
      assert RowOk(if ip in ips[..k] then all else pods, ip, byIP, start);
      RowClaimed(pods, p, ip, byIP, start);
      if ip in start && st <= start[ip] {
        continue;
      }
      var e := Entry(ip, workload, p.ns, app, false, false, FilterLabels(p.labels));
      EntryIs(p, ip);
      forall other | other != ip
        ensures RowOk(if other in ips[..k] then all else pods, other, byIP[ip := e], start[ip := st])
      {
        OtherRow(if other in ips[..k] then all else pods, other, ip, byIP, start, e, st);
      }
      byIP, start := byIP[ip := e], start[ip := st];
    }
    assert ips[..|ips|] == ips;
  }

  lemma EntryIs(p: Pod, ip: string)
    ensures EntryOf(p, ip) == Entry(ip, Workload.Name(p), p.ns, Workload.App(p), false, false, FilterLabels(p.labels))
  {}

  lemma OtherRow(pods: seq<Pod>, other: string, ip: string, byIP: map<string, Entry>, start: map<string, int>,
                 e: Entry, st: int)
    requires other != ip && RowOk(pods, other, byIP, start)
    ensures RowOk(pods, other, byIP[ip := e], start[ip := st])
  {}

  /** The values of the map, in whatever order it yields them. */
  method RowsOf(byIP: map<string, Entry>) returns (entries: seq<Entry>)
    requires forall ip :: ip in byIP ==> byIP[ip].ip == ip
    ensures forall i, j :: 0 <= i < j < |entries| ==> entries[i].ip != entries[j].ip
    ensures forall e :: e in entries <==> e.ip in byIP && byIP[e.ip] == e
  {
    var keys := CollectKeys(byIP.Keys);
    SetElementsNoDuplicates(keys, byIP.Keys);
    entries := [];
    for i := 0 to |keys|
      invariant |entries| == i && forall j :: 0 <= j < i ==> entries[j] == byIP[keys[j]]
    {
      entries := entries + [byIP[keys[i]]];
    }
    forall e ensures e in entries <==> e.ip in byIP && byIP[e.ip] == e {
      if e.ip in byIP && byIP[e.ip] == e {
        var j :| 0 <= j < |keys| && keys[j] == e.ip;
        assert entries[j] == e;
      }
    }
  }

  lemma RowIp(pods: seq<Pod>, ip: string, byIP: map<string, Entry>, start: map<string, int>)
    requires RowOk(pods, ip, byIP, start) && ip in byIP
    ensures byIP[ip].ip == ip && exists i :: Owns(pods, ip, i) && byIP[ip] == EntryOf(pods[i], ip)
  {}

  lemma TableRows(pods: seq<Pod>, byIP: map<string, Entry>, start: map<string, int>, entries: seq<Entry>)
    requires forall ip :: RowOk(pods, ip, byIP, start)
    requires forall i, j :: 0 <= i < j < |entries| ==> entries[i].ip != entries[j].ip
    requires forall e :: e in entries <==> e.ip in byIP && byIP[e.ip] == e
    ensures IsTable(pods, entries)
  {
    hide EntryOf;
    forall ip ensures (exists e :: e in entries && e.ip == ip) <==> Claimed(pods, ip) {
      assert RowOk(pods, ip, byIP, start);
      if ip in byIP {
        RowIp(pods, ip, byIP, start);
        assert byIP[ip] in entries;
      }
    }
    forall e | e in entries ensures exists i :: Owns(pods, e.ip, i) && e == EntryOf(pods[i], e.ip) {
      assert RowOk(pods, e.ip, byIP, start);
      RowIp(pods, e.ip, byIP, start);
    }
  }

  // ---- the table in the API's terms ---------------------------------------------------

  /** The first Ready condition of the pod is true. */
  ghost predicate IsReady(p: Pod) {
    exists i :: 0 <= i < |p.conditions| && p.conditions[i] == Condition(true, true)
                && forall j :: 0 <= j < i ==> !p.conditions[j].ready
  }

  /** A running, ready pod with a network of its own and a workload reports the address. */
  ghost predicate MayOwn(p: Pod, ip: string) {
    && !p.hostNetwork && !p.terminating && p.phase == Running && IsReady(p)
    && Workload.Name(p) != ""
    && ip != "" && (TrimSpace(p.podIP) == ip || exists raw :: raw in p.podIPs && TrimSpace(raw) == ip)
  }

  /** A pod that reports no start time counts as started at time zero. */
  function StartedAt(p: Pod): int { if p.startTime.Some? then p.startTime.value else 0 }

  /** No claimant started later, and none listed before it at the same time. */
  ghost predicate Wins(pods: seq<Pod>, ip: string, i: int) {
    && 0 <= i < |pods| && MayOwn(pods[i], ip)
    && forall j :: 0 <= j < |pods| && MayOwn(pods[j], ip) ==>
      StartedAt(pods[j]) < StartedAt(pods[i]) || (StartedAt(pods[j]) == StartedAt(pods[i]) && i <= j)
  }

  /** The labels that change on every rollout. */
  predicate Churns(key: string) {
    || key in {"pod-template-hash", "controller-revision-hash", "pod-template-generation", "controller-uid"}
    || key in {"statefulset.kubernetes.io/pod-name", "apps.kubernetes.io/pod-index"}
    || key in {"batch.kubernetes.io/controller-uid", "batch.kubernetes.io/job-name", "job-name"}
  }

  /** The row of a pod's address: its workload, namespace, app and the labels that last. */
  predicate RowFor(p: Pod, e: Entry) {
    && e.workload == Workload.Name(p) && e.ns == p.ns && e.app == Workload.App(p)
    && !e.internetExposed && !e.controlPlane
    && e.labels == map k | k in p.labels && !Churns(k) :: p.labels[k]
  }

  lemma {:induction false} ReadyIs(p: Pod, cs: seq<Condition>)
    ensures ReadyOf(cs) <==> exists i :: 0 <= i < |cs| && cs[i] == Condition(true, true)
                                         && forall j :: 0 <= j < i ==> !cs[j].ready
  {
    if cs == [] {
    } else {
      ReadyIs(p, cs[1..]);
      if i :| 0 <= i < |cs[1..]| && cs[1..][i] == Condition(true, true)
              && forall j :: 0 <= j < i ==> !cs[1..][j].ready
      {
        assert cs[i + 1] == cs[1..][i];
        forall j | 0 < j < i + 1 ensures !cs[j].ready { assert cs[j] == cs[1..][j - 1]; }
      }
      if i :| 0 <= i < |cs| && cs[i] == Condition(true, true) && forall j :: 0 <= j < i ==> !cs[j].ready {
        if i > 0 {
          assert cs[1..][i - 1] == cs[i];
          forall j | 0 <= j < i - 1 ensures !cs[1..][j].ready { assert cs[1..][j] == cs[j + 1]; }
        }
      }
    }
  }

  lemma MayOwnIs(p: Pod, ip: string)
    ensures MayOwn(p, ip) <==> Claims(p, ip)
  {
    hide ReadyOf, TrimSpace, Workload.Name;
    ReadyIs(p, p.conditions);
    if ip != "" && TrimSpace(p.podIP) == ip { assert p.podIP in RawIPs(p); }
    if raw :| raw in p.podIPs && TrimSpace(raw) == ip { assert raw in RawIPs(p); }
  }

  lemma WinsIs(pods: seq<Pod>, ip: string, i: int)
    ensures Wins(pods, ip, i) <==> Owns(pods, ip, i)
  {
    hide MayOwn, Claims;
    forall p ensures MayOwn(p, ip) <==> Claims(p, ip) { MayOwnIs(p, ip); }
  }

  lemma RowForIs(p: Pod, e: Entry)
    ensures RowFor(p, e) <==> e == EntryOf(p, e.ip)
  {
    hide Workload.Name, Workload.App;
    var kept := map k | k in p.labels && !Churns(k) :: p.labels[k];
    assert FilterLabels(p.labels) == kept by {
      forall k ensures k in ChurnLabels() <==> Churns(k) {}
    }
  }

  /** A row is in the table exactly when it is the row of the pod that wins its address. */
  lemma TableExactly(pods: seq<Pod>, entries: seq<Entry>, e: Entry)
    requires IsTable(pods, entries)
    ensures e in entries <==> exists i :: 0 <= i < |pods| && Wins(pods, e.ip, i) && RowFor(pods[i], e)
  {
    hide Wins, Owns, RowFor, EntryOf, Claims;
    forall i ensures Wins(pods, e.ip, i) <==> Owns(pods, e.ip, i) { WinsIs(pods, e.ip, i); }
    forall p ensures RowFor(p, e) <==> e == EntryOf(p, e.ip) { RowForIs(p, e); }
    OwnerInList(pods, e.ip);
    if i :| 0 <= i < |pods| && Owns(pods, e.ip, i) && e == EntryOf(pods[i], e.ip) {
      var f :| f in entries && f.ip == e.ip;
      var k :| Owns(pods, f.ip, k) && f == EntryOf(pods[k], f.ip);
      OneOwner(pods, e.ip, i, k);
    }
  }

  lemma OwnerInList(pods: seq<Pod>, ip: string)
    ensures forall i :: Owns(pods, ip, i) ==> 0 <= i < |pods| && Claimed(pods, ip)
  {}

  lemma OneOwner(pods: seq<Pod>, ip: string, i: int, k: int)
    requires Owns(pods, ip, i) && Owns(pods, ip, k)
    ensures i == k
  {
    hide Claims, Start;
  }

  // ---- listing order ---------------------------------------------------------------

  /** p claims ip and no pod claiming it started later. */
  ghost predicate Latest(pods: seq<Pod>, ip: string, p: Pod) {
    p in pods && Claims(p, ip) && forall q :: q in pods && Claims(q, ip) ==> Start(q) <= Start(p)
  }

  /** Claimants that tie for the latest start would give the IP the same row. */
  ghost predicate TiesAgree(pods: seq<Pod>) {
    forall ip, p, q :: Latest(pods, ip, p) && Latest(pods, ip, q) ==> EntryOf(p, ip) == EntryOf(q, ip)
  }

  ghost predicate SameRows(a: seq<Entry>, b: seq<Entry>) {
    forall e :: e in a <==> e in b
  }

  lemma RowsAreLatest(pods: seq<Pod>, entries: seq<Entry>, e: Entry)
    requires IsTable(pods, entries) && e in entries
    ensures exists p :: Latest(pods, e.ip, p) && e == EntryOf(p, e.ip)
  {
    hide Claims, EntryOf, Start;
    var i :| Owns(pods, e.ip, i) && e == EntryOf(pods[i], e.ip);
    assert Latest(pods, e.ip, pods[i]);
  }

  lemma LatestIsRow(pods: seq<Pod>, entries: seq<Entry>, ip: string, p: Pod)
    requires IsTable(pods, entries) && Latest(pods, ip, p)
    ensures exists e :: e in entries && e.ip == ip
  {
    hide Claims;
    var i :| 0 <= i < |pods| && pods[i] == p;
    assert Claimed(pods, ip);
  }

  lemma TableInTable(a: seq<Pod>, b: seq<Pod>, es: seq<Entry>, fs: seq<Entry>, e: Entry)
    requires forall p :: p in a <==> p in b
    requires IsTable(a, es) && IsTable(b, fs) && TiesAgree(a) && e in es
    ensures e in fs
  {
    hide Claims, EntryOf, IsTable, Start;
    RowsAreLatest(a, es, e);
    var p :| Latest(a, e.ip, p) && e == EntryOf(p, e.ip);
    assert Latest(b, e.ip, p);
    LatestIsRow(b, fs, e.ip, p);
    var f :| f in fs && f.ip == e.ip;
    RowsAreLatest(b, fs, f);
    var q :| Latest(b, f.ip, q) && f == EntryOf(q, f.ip);
    assert Latest(a, e.ip, q);
  }

  /** When ties agree, the table does not depend on the listing order. */
  lemma OrderIrrelevant(a: seq<Pod>, b: seq<Pod>, es: seq<Entry>, fs: seq<Entry>)
    requires multiset(a) == multiset(b) && TiesAgree(a)
    requires IsTable(a, es) && IsTable(b, fs)
    ensures SameRows(es, fs)
  {
    hide IsTable, TiesAgree;
    PermutedMembers(a, b);
    TiesAgreeMembers(a, b);
    forall e ensures e in es <==> e in fs {
      if e in es { TableInTable(a, b, es, fs, e); }
      if e in fs { TableInTable(b, a, fs, es, e); }
    }
  }

  lemma TiesAgreeMembers(a: seq<Pod>, b: seq<Pod>)
    requires (forall p :: p in a <==> p in b) && TiesAgree(a)
    ensures TiesAgree(b)
  {
    hide Claims, EntryOf, Start;
    forall ip, p | Latest(b, ip, p) ensures Latest(a, ip, p) {}
  }

  lemma FirstOwns(pods: seq<Pod>, i: nat, ip: string, es: seq<Entry>)
    requires i < |pods| && Latest(pods, ip, pods[i]) && IsTable(MoveFirst(pods, i), es)
    ensures multiset(MoveFirst(pods, i)) == multiset(pods)
    ensures EntryOf(pods[i], ip) in es
    ensures forall e :: e in es && e.ip == ip ==> e == EntryOf(pods[i], ip)
  {
    hide Claims, EntryOf, Start;
    var moved := MoveFirst(pods, i);
    assert pods == pods[..i] + [pods[i]] + pods[i + 1..];
    assert forall p :: p in moved <==> p in pods;
    assert Owns(moved, ip, 0);
    assert Claimed(moved, ip);
    var e :| e in es && e.ip == ip;
    forall f | f in es && f.ip == ip ensures f == EntryOf(pods[i], ip) {
      var j :| Owns(moved, ip, j) && f == EntryOf(moved[j], ip);
    }
  }

  /** When a tie disagrees, two orders of the same pods give different tables: the
      condition of OrderIrrelevant is exact. */
  lemma OrderMatters(pods: seq<Pod>) returns (a: seq<Pod>, b: seq<Pod>)
    requires !TiesAgree(pods)
    ensures multiset(a) == multiset(pods) && multiset(b) == multiset(pods)
    ensures forall es, fs :: IsTable(a, es) && IsTable(b, fs) ==> !SameRows(es, fs)
  {
    var ip, p, q :| Latest(pods, ip, p) && Latest(pods, ip, q) && EntryOf(p, ip) != EntryOf(q, ip);
    var i :| 0 <= i < |pods| && pods[i] == p;
    var j :| 0 <= j < |pods| && pods[j] == q;
    a, b := MoveFirst(pods, i), MoveFirst(pods, j);
    hide EntryOf, IsTable, MoveFirst, Latest;
    forall es, fs | IsTable(a, es) && IsTable(b, fs) ensures !SameRows(es, fs) {
      FirstOwns(pods, i, ip, es);
      FirstOwns(pods, j, ip, fs);
      assert EntryOf(q, ip) in fs && EntryOf(q, ip) !in es;
    }
  }

  /** Distinct start times leave no ties. */
  lemma DistinctStartsAgree(pods: seq<Pod>)
    requires forall ip, p, q ::
      p in pods && q in pods && Claims(p, ip) && Claims(q, ip) && Start(p) == Start(q) ==> p == q
    ensures TiesAgree(pods)
  {
    hide Claims, EntryOf;
  }
}
