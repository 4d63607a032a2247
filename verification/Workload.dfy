/** Workload names (workloadIdentity in controllers/identity_producer.go): the owning
    controller's name, without the hash a Deployment adds, or per pod for ordinals. */
module Workload {
  import opened Wrappers
  import opened Strings
  import opened Kube

  predicate IsLowerAlnum(c: char) { 'a' <= c <= 'z' || '0' <= c <= '9' }

  function TrimReplicaSetHash(name: string): string {
    var i := LastIndex(name, '-');
    if i <= 0 then name
    else
      var suffix := name[i + 1..];
      if |suffix| < 5 || |suffix| > 10 || Span(suffix, IsLowerAlnum) < |suffix| then name
      else name[..i]
  }

  predicate IsOrdinalPod(podName: string, controllerName: string) {
    var suffix := TrimPrefix(podName, controllerName + "-");
    suffix != podName && suffix != "" && Span(suffix, IsDigit) == |suffix|
  }

  function Label(p: Pod, key: string): string {
    if key in p.labels then p.labels[key] else ""
  }

  function AppLabel(p: Pod): string {
    var app := Label(p, "app.kubernetes.io/name");
    if app != "" then app else Label(p, "app")
  }

  /** The name the first controlling owner gives the pod, or "". */
  function ControllerName(p: Pod, owners: seq<Owner>): string {
    if owners == [] then ""
    else if !owners[0].controller then ControllerName(p, owners[1..])
    else if owners[0].kind == "ReplicaSet" then TrimReplicaSetHash(owners[0].name)
    else if IsOrdinalPod(p.name, owners[0].name) then p.name
    else owners[0].name
  }

  function Name(p: Pod): string {
    var name := ControllerName(p, p.owners);
    if name != "" then name
    else if AppLabel(p) != "" then AppLabel(p)
    else p.name
  }

  function App(p: Pod): string {
    if AppLabel(p) != "" then AppLabel(p) else Name(p)
  }

  function Ref(p: Pod): string { p.ns + "/" + Name(p) }

  /** workloadIdentity, with its loop over the owners. */
  method WorkloadIdentity(p: Pod) returns (workload: string, app: string)
    ensures workload == Name(p) && app == App(p)
  {
    app := if "app.kubernetes.io/name" in p.labels then p.labels["app.kubernetes.io/name"] else "";
    if app == "" {
      app := if "app" in p.labels then p.labels["app"] else "";
    }
    workload := "";
    var i := 0;
    while i < |p.owners|
      invariant 0 <= i <= |p.owners| && workload == ""
      invariant ControllerName(p, p.owners[i..]) == ControllerName(p, p.owners)
    {
      var o := p.owners[i];
      if o.controller {
        var name := o.name;
        if o.kind == "ReplicaSet" {
          name := TrimReplicaSetHash(name);
        } else if IsOrdinalPod(p.name, o.name) {
          name := p.name;
        }
        workload := name;
        break;
      }
      i := i + 1;
    }
    if workload == "" {
      if app != "" {
        workload := app;
      } else {
        workload := p.name;
      }
    }
    if app == "" {
      app := workload;
    }
  }

  // ---- which pods share a workload ---------------------------------------------

  predicate IsHash(h: string) {
    5 <= |h| <= 10 && forall c :: c in h ==> 'a' <= c <= 'z' || '0' <= c <= '9'
  }

  lemma LastDash(base: string, h: string)
    requires IsHash(h)
    ensures LastIndex(base + "-" + h, '-') == |base|
  {
    assert (base + "-" + h)[|base| + 1..] == h;
    LastIndexIs(base + "-" + h, |base|, '-');
  }

  lemma TrimHash(base: string, h: string)
    requires IsHash(h) && base != ""
    ensures TrimReplicaSetHash(base + "-" + h) == base
  {
    var name := base + "-" + h;
    LastDash(base, h);
    assert name[|base| + 1..] == h && name[..|base|] == base;
    SpanAppend(h, "", IsLowerAlnum);
    assert h + "" == h;
  }

  /** A name is cut to a shorter one exactly when the rest is a dash and a hash. */
  lemma TrimExact(name: string, base: string)
    requires base != name
    ensures TrimReplicaSetHash(name) == base <==> base != "" && exists h :: IsHash(h) && name == base + "-" + h
  {
    if TrimReplicaSetHash(name) == base {
      var i := LastIndex(name, '-');
      var h := name[i + 1..];
      assert forall c :: c in h ==> IsLowerAlnum(c);
      assert name == base + "-" + h;
    }
    if base != "" && exists h :: IsHash(h) && name == base + "-" + h {
      var h :| IsHash(h) && name == base + "-" + h;
      TrimHash(base, h);
    }
  }

  /** o is the first controlling owner of p. */
  ghost predicate ControlledBy(p: Pod, o: Owner) {
    o.controller
    && exists i :: 0 <= i < |p.owners| && p.owners[i] == o && forall j :: 0 <= j < i ==> !p.owners[j].controller
  }

  lemma ControllerOf(p: Pod, o: Owner)
    requires ControlledBy(p, o)
    ensures ControllerName(p, p.owners) == ControllerName(p, [o]) && o.controller
  {
    var i :| 0 <= i < |p.owners| && p.owners[i] == o && forall j :: 0 <= j < i ==> !p.owners[j].controller;
    OwnersSkipped(p, i);
  }

  lemma {:induction false} OwnersSkipped(p: Pod, i: nat)
    requires i <= |p.owners| && forall j :: 0 <= j < i ==> !p.owners[j].controller
    ensures ControllerName(p, p.owners) == ControllerName(p, p.owners[i..])
  {
    if i == 0 {
    } else {
      OwnersSkipped(p, i - 1);
    }
  }

  /** Pods of ReplicaSets that differ only in the template hash share the name before it. */
  lemma ReplicasAggregate(p: Pod, q: Pod, base: string, h: string, h': string)
    requires base != "" && IsHash(h) && IsHash(h')
    requires ControlledBy(p, Owner("ReplicaSet", base + "-" + h, true))
    requires ControlledBy(q, Owner("ReplicaSet", base + "-" + h', true))
    ensures Name(p) == base == Name(q)
  {
    hide TrimReplicaSetHash, IsHash, ControlledBy;
    ControllerOf(p, Owner("ReplicaSet", base + "-" + h, true));
    ControllerOf(q, Owner("ReplicaSet", base + "-" + h', true));
    TrimHash(base, h);
    TrimHash(base, h');
  }

  predicate Digits(s: string) { s != "" && forall c :: c in s ==> '0' <= c <= '9' }

  /** The pod is numbered behind a controller's name. */
  ghost predicate Numbered(podName: string, controllerName: string) {
    exists digits :: Digits(digits) && podName == controllerName + "-" + digits
  }

  lemma NumberedIsOrdinal(podName: string, controllerName: string)
    ensures Numbered(podName, controllerName) <==> IsOrdinalPod(podName, controllerName)
  {
    var start := controllerName + "-";
    if IsOrdinalPod(podName, controllerName) {
      var digits := TrimPrefix(podName, start);
      assert Digits(digits) && podName == controllerName + "-" + digits;
    }
    if digits :| Digits(digits) && podName == controllerName + "-" + digits {
      assert podName[..|start|] == start && podName[|start|..] == digits;
      SpanAppend(digits, "", IsDigit);
      assert digits + "" == digits;
    }
  }

  /** Replicas of any other controller that are numbered behind its name keep their own. */
  lemma OrdinalsApart(p: Pod, o: Owner, digits: string)
    requires ControlledBy(p, o) && o.kind != "ReplicaSet"
    requires p.name == o.name + "-" + digits && Digits(digits)
    ensures Name(p) == p.name
  {
    hide ControlledBy, IsOrdinalPod;
    ControllerOf(p, o);
    assert Numbered(p.name, o.name);
    NumberedIsOrdinal(p.name, o.name);
  }

  /** The first of the names that is not empty, else the last. */
  function FirstNonEmpty(a: string, b: string, c: string): string {
    if |a| > 0 then a else if |b| > 0 then b else c
  }

  /** Every other pod of a named controller belongs to the controller's workload: one whose
      controller is no ReplicaSet and does not number it, and one whose ReplicaSet's name ends in
      no hash. */
  lemma NamedByController(p: Pod, o: Owner)
    requires ControlledBy(p, o) && o.name != ""
    ensures o.kind != "ReplicaSet" && !Numbered(p.name, o.name) ==> Name(p) == o.name
    ensures o.kind == "ReplicaSet" && !(exists base, h :: base != "" && IsHash(h) && o.name == base + "-" + h)
            ==> Name(p) == o.name
  {
    hide ControlledBy, IsOrdinalPod, TrimReplicaSetHash, IsHash, Numbered;
    ControllerOf(p, o);
    NumberedIsOrdinal(p.name, o.name);
    TrimExactForAll(o.name);
  }

  lemma TrimExactForAll(name: string)
    ensures !(exists base, h :: base != "" && IsHash(h) && name == base + "-" + h) ==> TrimReplicaSetHash(name) == name
  {
    hide TrimReplicaSetHash, IsHash;
    var base := TrimReplicaSetHash(name);
    if base != name { TrimExact(name, base); }
  }

  /** A pod without a controlling owner is named by its labels, and by itself without them. */
  lemma NamedByLabels(p: Pod)
    requires forall o :: o in p.owners ==> !o.controller
    ensures Name(p)
         == FirstNonEmpty(if "app.kubernetes.io/name" in p.labels then p.labels["app.kubernetes.io/name"] else "",
                          if "app" in p.labels then p.labels["app"] else "",
                          p.name)
  {
    OwnersSkipped(p, |p.owners|);
  }

  /** The app of a pod comes from its labels, and is its workload without them. */
  lemma AppByLabels(p: Pod)
    ensures App(p)
         == FirstNonEmpty(if "app.kubernetes.io/name" in p.labels then p.labels["app.kubernetes.io/name"] else "",
                          if "app" in p.labels then p.labels["app"] else "",
                          Name(p))
    ensures Ref(p) == p.ns + "/" + Name(p)
  {
  }
}
