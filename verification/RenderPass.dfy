/** One pass of the controller (render in controllers/ingress_controller.go). */
module RenderPass {
  // The model of the listed sources, then its certificates, then the upstreams file.

  import opened Wrappers
  import opened RouteModel
  import opened RouteText
  import opened RenderOps
  import opened Ingress
  import opened Render
  import Certs
  import UpstreamsAgreement

  /** Where the certificates go: no projection, a directory, or the keys of a Secret. */
  datatype Sink = Nowhere | Directory | OutputSecret

  /** How the writes of one pass end. */
  datatype Ends = Ends(
    files: string -> Certs.WriteEnd, stuck: set<string>, listable: bool, secretWorks: bool, upstreams: Io)

  ghost predicate AllWork(e: Ends) {
    (forall name :: e.files(name).Works?) && e.secretWorks && e.upstreams.Works?
  }

  /** The pairs a cluster's model refers to and the API has. */
  ghost function WantedBy(c: Cluster, cfg: Config, ings: seq<Ingress>, secrets: Certs.Secrets): Certs.Wanted {
    Certs.WantedOf(ClusterModel(c, cfg, ings).certProjections, secrets)
  }

  class Operator {
    const sink: Sink
    const dir: Certs.CertDir
    const secret: Certs.CertSecret
    const upstreams: UpstreamsFile

    constructor (sink: Sink, dir: Certs.CertDir, secret: Certs.CertSecret, upstreams: UpstreamsFile)
      ensures this.sink == sink && this.dir == dir && this.secret == secret && this.upstreams == upstreams
    {
      this.sink, this.dir, this.secret, this.upstreams := sink, dir, secret, upstreams;
    }

    /** What the proxy can load certificates from. */
    function Offered(): Certs.Files
      reads dir, secret
    {
      match sink
      case Nowhere => map[]
      case Directory => dir.files
      case OutputSecret => GetOr(secret.data, map[])
    }

    /** The pass ends early when the Ingresses cannot be listed or the certificates cannot be
        projected; the upstreams file is only replaced with the certificates in place. */
    method Render(c: Cluster, cfg: Config, secrets: Certs.Secrets, ends: Ends, ghost earlier: Cluster)
      returns (changed: bool, ok: bool)
      requires dir.Watched() && SameCluster(earlier, c) && WellNamed(earlier)
      modifies dir, secret, upstreams
      ensures dir.Watched()
      ensures c.ingresses.None? ==>
        !ok && unchanged(dir) && unchanged(secret) && unchanged(upstreams)
      ensures c.ingresses.Some? && AllWork(ends) ==> ok
      ensures ok ==> c.ingresses.Some? && upstreams.content == Rendered(c, cfg)
      ensures ok && !sink.Nowhere? ==> Certs.Offers(Offered(), WantedBy(c, cfg, c.ingresses.value, secrets))
      ensures changed <==> upstreams.content != old(upstreams.content)
      ensures changed ==> ok
      ensures old(upstreams.content) == Rendered(earlier, cfg) ==> !changed
    {
      hide Rendered, ClusterModel, TextOf, SameCluster, WellNamed, Certs.Offers, Certs.WantedOf, ValidModel;
      RenderOrderFree(earlier, c, cfg);
      if c.ingresses.None? {
        return false, false;
      }
      var ings := c.ingresses.value;
      RenderedIs(c, cfg, ings);
      var m := BuildModel(c, cfg, ings);
      ghost var model := m.Snapshot();
      var certsOk := true;
      if sink.OutputSecret? {
        var _, _, projectedOk := secret.Project(m.certProjections, secrets, ends.secretWorks);
        certsOk := projectedOk;
        if certsOk { SecretOffers(secret.data.value, Certs.WantedOf(model.certProjections, secrets)); }
      } else if sink.Directory? {
        var _, _, projectedOk :=
          Certs.ProjectCerts(dir, m.certProjections, secrets, ends.files, ends.stuck, ends.listable);
        certsOk := projectedOk;
      }
      if !certsOk {
        return false, false;
      }
      var yaml := RenderText(m);
      changed, ok := upstreams.WriteIfChanged(yaml, ends.upstreams);
    }
  }

  lemma RenderedIs(c: Cluster, cfg: Config, ings: seq<Ingress>)
    requires c.ingresses == Some(ings)
    ensures Rendered(c, cfg) == Some(TextOf(ClusterModel(c, cfg, ings)))
  {}

  lemma SecretOffers(data: Certs.Files, want: Certs.Wanted)
    requires Certs.IsSecretData(data, want)
    ensures Certs.Offers(data, want)
  {}

  // ---- the certificates behind the hosts -------------------------------------------------

  /** Every certificate a host is bound to is projected. */
  ghost predicate CertsBound(m: Model) {
    forall h :: h in m.hostCert ==> m.hostCert[h] in m.certProjections
  }

  lemma {:induction false} RunOpsBound(m: Model, ops: seq<Op>)
    requires CertsBound(m)
    ensures CertsBound(RunOps(m, ops))
  {
    if ops == [] {
    } else {
      RunOpsBound(m, ops[..|ops| - 1]);
    }
  }

  lemma ClusterBound(c: Cluster, cfg: Config, ings: seq<Ingress>)
    ensures CertsBound(ClusterModel(c, cfg, ings))
  {
    hide RunOps, AllIngressOps, GatewayApiOps;
    var ops := AllIngressOps(c.view, cfg.flags, cfg.className, c.classes, ings);
    RunOpsBound(EMPTY_MODEL, ops);
    RunOpsBound(RunOps(EMPTY_MODEL, ops), GatewayApiOps(c, cfg));
  }

  lemma MeaningCert(m: Model, h: string)
    requires h in UpstreamsAgreement.ModelMeaning(m).terminate && CertsBound(m)
    ensures var stem := UpstreamsAgreement.ModelMeaning(m).terminate[h].cert;
      stem != "" ==> stem in m.certProjections
  {}

  /** Whoever reads a rendered file after a pass that ended well: each certificate a host
      names is projected, and if its Secret is usable both its parts can be loaded. */
  lemma NamedCertsInPlace(c: Cluster, cfg: Config, ings: seq<Ingress>, secrets: Certs.Secrets, files: Certs.Files,
                          meaning: UpstreamsAgreement.FileMeaning, h: string)
    requires c.ingresses == Some(ings) && Certs.Offers(files, WantedBy(c, cfg, ings, secrets))
    requires Rendered(c, cfg).Some?
    requires ReadRendered(ClusterModel(c, cfg, ings), Rendered(c, cfg).value) == Some(meaning)
    requires h in meaning.terminate && meaning.terminate[h].cert != ""
    ensures var projections, stem := ClusterModel(c, cfg, ings).certProjections, meaning.terminate[h].cert;
      && stem in projections
      && var ns, name := projections[stem].ns, projections[stem].name;
         Certs.HasBoth(secrets, ns, name) ==>
           && stem + ".crt" in files && files[stem + ".crt"] == secrets[(ns, name)]["tls.crt"]
           && stem + ".key" in files && files[stem + ".key"] == secrets[(ns, name)]["tls.key"]
  {
    hide Rendered, ReadRendered, ClusterModel, UpstreamsAgreement.ModelMeaning, CertsBound, Certs.Offers,
         Certs.WantedOf;
    var m := ClusterModel(c, cfg, ings);
    RenderedMeaning(c, cfg, ings);
    ClusterBound(c, cfg, ings);
    MeaningCert(m, h);
    var stem := meaning.terminate[h].cert;
    Certs.OffersInPlace(files, m.certProjections, secrets);
    assert Certs.HasBoth(secrets, m.certProjections[stem].ns, m.certProjections[stem].name) ==>
      Certs.Projected(m.certProjections, secrets, stem);
  }
}
