# Verification of the synapse operator

A Dafny model of the operator's controllers and proofs about it. The operator watches Kubernetes
objects and derives files, hashes, documents and delta streams from them; the proofs are about
what those derived things say, what every run of the controllers keeps, and what repeated or
reordered work converges to.

`dafny verify dfyconfig.toml` checks everything.

## What is modelled

**Upstreams.** `RouteModel` is the first-writer-wins route model as an object with a specification
on snapshots. `Endpoints`, `Ingress` and `Gateway` are the loops of the renderer that fill it, each
proved to do exactly the list of operations its object stands for. `Render` puts them together and
proves the text independent of listing order, `RouteServing` that every rendered route has servers,
and `CertOrder` says exactly when the projected Secrets are independent of that order too.
`RenderPass` is the whole pass, certificates before the file.
`RouteText` and `RouteTextV2` are the two printers, over a small layer of real text (`Layout`, with
`%q`); `UpstreamsReader` and `UpstreamsAgreement` are readers written for the proofs, the round trips
and the agreement of the two schemas. `UpstreamsText` writes both files out with their words as
literals and proves the printers produce them. `RouteOrigins` traces every stored route back to the
settings of the call that wrote it, and `EndpointsSpec`, `IngressSpec` and `GatewaySpec` say in the
API's terms which addresses, certificates, routes, pools and headers the objects ask for.

**NetworkPolicies.** `Edges` is the compiler from policies, pods and namespaces to allow-list lines.
`NetworkPolicySpec` states what the NetworkPolicy API (networking.k8s.io/v1) allows, selectors and
directions included, without the compiler's own tests, and proves the lines complete and justified.
A policy governs ingress when it lists it or lists no types, and egress when it lists it or has an
egress rule; the last is the code's reading (controllers/edge_producer.go:377-386) of policies whose
types leave egress out. Admission through `ipBlock` and `endPort` ranges are outside the
specification, and host-network pods have no workload.

**Delta streams.** `EdgeProducer` and `IdentityProducer` are the producers as objects that refine
protocol steps with failures anywhere; a request that fails was not applied, and the hash is any
function, so that keeping 16 digits of it is covered. A baseline moves the diff base without a
sequence number, so what consumers of deltas alone miss is stated exactly.

**Coalescers.** `Debouncer` is the reload debouncer, an object with two critical sections and the
timed system of triggers, timers and reloads that interleave on it; the clock is monotone. `ProducerLoop`
is the select loop of the producers over any content, `EdgeLoop` and `IdentityLoop` put the two
protocols into it. The handlers are assumed to be told of the objects the
informers already hold when they are registered.

**Reconcilers and hashes.** `HotReload`, `ConfigHash`, `Rollout` and `WorkloadHash` are the rollout hash,
`Certs` the certificate directory and Secret, `NetVars` the HOME_NET controller and `NetVarsSpec`
what it decides and stores, `Resolver` the upstreams resolver and `ResolverSpec` what an entry
becomes, `Identity` the ownership of addresses. YAML documents are trees (`Yaml`), their
numbers the finite float64 values the library reads numbers as, behind a codec that reads back what it
prints; the rollout hash, kept in full, is injective and its digests are not empty. `Premises` builds
a codec and a hash that meet these assumptions.

Where the code and its comments differ, the model follows the code. The comment at
controllers/routes.go:650 announces terminated hosts before passthrough hosts; the code sorts all
hosts together. The comment at controllers/gateway.go:109 promises reproducible first-writer-wins,
which Gateways, iterated unsorted at controllers/gateway.go:60, do not keep for Secrets.

Some properties hold only under a condition, and the condition is proved exact: `CertOrder.ProjectionsExact`,
`Identity.OrderIrrelevant` with `Identity.OrderMatters`, `IdentityProducer.FlushKeepsSyncExactly`,
`EdgeProducer.RunsConverge`, `EdgeProducer.FollowersExact` with `EdgeProducer.FollowerLeftBehind`,
`ProducerLoop.QuietExact`, `Debouncer.OneWindowApartExactly`, `Rollout.HashExact`, `Certs.PruneCerts`,
`NetVars.FrameExact`, `HotReload.NetVarsStayHot`, `Resolver.FqdnRoundTrip`.

## Model

| member | source | states |
|---|---|---|
| RouteModel.RunValid | controllers/routes.go:145-325 | over every sequence of addCert, addRoute, addRegexRoute and addPassthroughHost calls, terminated and passed-through hosts stay apart and no host is left without paths |
| RouteModel.FirstWriterWins | controllers/routes.go:190-325 | after any calls each host is of the kind its first claimant asked for, and each (host, key) holds exactly the configuration of its first writer; keys nobody wrote are absent |
| RouteModel.AcceptedExactly | controllers/routes.go:198-325 | a route is refused exactly when a passthrough claimed its host first or its key was written before; a passthrough exactly when the host was claimed at all |
| RouteModel.ClaimsAreForever | controllers/routes.go:190-325 | no later call changes or drops a claimed path or passthrough |
| RouteModel.RenderModel.AddCert | controllers/routes.go:176-188 | the object after the call is the specified model: first Secret per stem, first stem per host |
| RouteModel.RenderModel.AddRoute | controllers/routes.go:198-243 | the object after the call is the specified model, validity is kept, and the returned flag says whether the route was taken; which setting of the call each stored option is, `RouteOrigins.StoredFromFirst` says |
| RouteModel.RenderModel.AddRegexRoute | controllers/routes.go:249-307 | the same for regex routes, keyed by the regex |
| RouteModel.RenderModel.AddPassthroughHost | controllers/routes.go:313-325 | the same for passthrough claims |
| RouteOrigins.StoredFromFirst | controllers/routes.go:198-307 | after any run of calls a host terminates a key exactly when some call asked for it and the host was not passed through before any route; every option, header list, redirect part, server and match expression is that of the first such call, each read off that call's own setting: a prefix key is its path without closing slashes, a regex key is expr: and the regex, whose expression is anchored |
| RouteOrigins.RouteOrigin | controllers/routes.go:198-626 | the same of the route read back from the v1 file of the run: read timeout for read timeout, and so for every field |
| RouteOrigins.CertsFromFirst | controllers/routes.go:176-188 | after any run a host is bound to the stem of the first complete certificate call for it, and a stem projected from the Secret of the first complete call that names it |
| RouteOrigins.StickyFromRoutes | controllers/routes.go:239-242 | sessions are sticky exactly when a route that was taken asked for it |
| RenderOps.FirstSolverKept | controllers/ingress_controller.go:329-337 | the ACME solver is the first one a source names, and there is none when none does; sessions are sticky once a source asks for it |
| Layout.ReadQuote | controllers/routes.go:533-626 | reading a %q literal gives back the string, whatever follows it and whichever characters outside ASCII count as printable |
| Layout.ReadPrinted | controllers/routes.go:533-692 | reading a printed document of indented items gives back the document |
| SchemaWords.SpellInjective | controllers/routes.go:533-769 | no two field names of the schemas are spelled alike |
| RouteText.RenderUpstreams | controllers/routes.go:533-626 | the loops print exactly the v1 document of the model they are given; its words are those of `UpstreamsText.V1FileExact` |
| UpstreamsText.V1FileExact | controllers/routes.go:533-626 | the v1 file of every model, line by line: each key in its own words and at its own depth, upstreams at the margin, in order, every option from the model's own field, absent options left out |
| UpstreamsText.V2FileExact | controllers/routes.go:635-769 | the same for the v2 file |
| Layout.EscapedExactly | controllers/routes.go:533-769 | how %q writes each character: the named escapes, two, four or eight lower-case hexadecimal digits, printable characters as they are |
| UpstreamsReader.V1RoundTrip | controllers/routes.go:533-626 | a reader of the v1 text recovers the whole effective configuration: sticky, ACME backend, hosts, certificates, weighted servers in order, every option and header |
| UpstreamsReader.V1TextExact | controllers/routes.go:533-626 | two models print the same v1 text exactly when their effective configurations are equal |
| RouteTextV2.RenderUpstreamsV2 | controllers/routes.go:635-769 | the loops print exactly the v2 document of a valid model |
| RouteTextV2.EachHostOnce | controllers/routes.go:653-690 | the v2 file has one section per terminated or passed-through host and no host twice |
| UpstreamsAgreement.V2RoundTrip | controllers/routes.go:635-769 | a reader of the v2 text recovers the meaning of the model |
| UpstreamsAgreement.SchemasAgree | controllers/routes.go:533-769 | for every valid model the v1 and v2 texts mean the same for every terminated host and path, for sticky sessions and for the ACME backend; v2 adds the passthrough hosts |
| Render.ClusterSchemasAgree | controllers/ingress_controller.go:180-400 | the same for the model of every cluster, ACME backend included |
| Endpoints.ServicePortName | controllers/endpoints.go:43-53 | the first Service port the backend names, by name or else by non-zero number; none exactly when no port matches |
| Endpoints.SliceEndpointAddrs | controllers/endpoints.go:84-146 | the list is sorted and, as a multiset, the addresses of all usable endpoints of one family (IPv4 if it has any, else IPv6), each with its slice's port |
| Endpoints.AddrListCanonical | controllers/endpoints.go:75-79 | reordering the slices, and the endpoints inside them, gives the same list |
| Endpoints.EndpointAddrs | controllers/endpoints.go:151-182 | live addresses of a backend, or none where the caller has to fall back |
| Endpoints.BackendAddr | controllers/ingress_controller.go:532-581 | the Service address: ClusterIP or cluster name with the port by number or by name, none where the code gives up |
| Endpoints.BackendServers | controllers/endpoints.go:184-215 | live endpoints if wanted and present, else the Service address; never an empty pool |
| EndpointsSpec.LiveExactly | controllers/endpoints.go:60-182 | a backend is live exactly when a slice with its Service's label serves an address for the port the backend names; the list is sorted and holds exactly those of ready or unknown, not terminating endpoints, with their slice's port, IPv4 before IPv6 |
| EndpointsSpec.AddrExactly | controllers/ingress_controller.go:532-581 | the Service address in letters: the ClusterIP when wanted and there is one, else name.namespace.svc.domain, with the number given or that of the first port of the name; none without |
| EndpointsSpec.ServersExactly | controllers/endpoints.go:184-215 | a backend is rendered with its live endpoints, unweighted, else with its Service address, else not at all |
| Endpoints.ServersOrderFree | controllers/endpoints.go:75-79 | a backend resolves alike whatever order EndpointSlices, and the endpoints inside them, are listed in |
| Ingress.DefaultClassIsOurs | controllers/ingress_controller.go:463-478 | true exactly when some IngressClass of this controller is marked default |
| Ingress.ProgramIngress | controllers/ingress_controller.go:215-363 | one Ingress changes the model by exactly its operations: sticky, TLS hosts, passthrough targets, routes, regex routes, aliases, ACME solver |
| Ingress.RenderIngresses | controllers/ingress_controller.go:202-363 | the whole loop is the operations of our Ingresses in namespace/name order |
| IngressSpec.AllIngressesAsk | controllers/ingress_controller.go:210-363 | an operation is done exactly when an Ingress of our class asks for it: a certificate for a TLS host, a route of a rule's host or an alias under its path with the settings and servers of its backend, the first resolvable backend of a passthrough host, the solver of a challenge path, sticky sessions |
| Strings.StrLeExact | controllers/ingress_controller.go:202-208 | names are compared by the first character in which they differ, a name before those it is the start of |
| IngressSpec.TakenInOrder | controllers/ingress_controller.go:202-208 | Ingresses are taken by namespace and, within one, by name, and each as often as listed |
| Gateway.CollectGateways | controllers/gateway.go:59-99 | the Gateways of our classes in listing order: their certificate operations, and the set of their names |
| Gateway.HeaderFilters | controllers/gateway.go:202-225 | request and response header lines in order, set before add |
| Gateway.RuleBackends | controllers/gateway.go:236-267 | the pool: unweighted when no reference has a weight, else absent weights count one and zero weights are left out |
| Gateway.PoolUniform | controllers/gateway.go:227-235 | a pool never mixes weighted and unweighted servers |
| GatewaySpec.PoolExactly | controllers/gateway.go:236-267 | the pool is the reachable Services of the references in order, each under its cluster name and port; without any weight unweighted, else each with its own weight, one when it has none, and none of weight zero |
| GatewaySpec.HeadersExactly | controllers/gateway.go:202-225 | filter by filter: a request modifier adds to the request lines what it sets and then what it adds, as Name: value, a response modifier to the response lines, anything else nothing |
| GatewaySpec.PathsExactly | controllers/gateway.go:279-311 | a path is covered exactly when a match of its kind gives it, the root where a match or a rule gives none; only regular expressions are matched as such |
| GatewaySpec.AllRoutesAsk | controllers/gateway.go:100-195 | an operation is done exactly when an HTTPRoute with one of our Gateways for a parent asks for it: for each hostname and path a route with the pool, headers and settings of its rule, or the solver under the challenge path |
| GatewaySpec.TakenInOrder | controllers/gateway.go:109-117 | HTTPRoutes are taken by namespace and, within one, by name |
| GatewaySpec.AllListenersAsk | controllers/gateway.go:59-93 | and a certificate exactly when a terminating listener of a Gateway of our classes refers to its Secret |
| Gateway.RulePaths | controllers/gateway.go:269-311 | prefix paths and regex paths of a rule; a rule without matches covers everything |
| Gateway.RenderGateways | controllers/gateway.go:30-195 | the Gateway API half is the listener certificates in listing order, then our HTTPRoutes in namespace/name order |
| Render.BuildModel | controllers/ingress_controller.go:180-367 | the object built from a cluster is its model: our Ingresses' operations in order, then the Gateway API's if that is switched on |
| Render.RenderText | controllers/ingress_controller.go:391-400 | the text is the v1 or v2 file of the model in its words, v2 exactly when a passthrough host exists |
| Render.RenderedMeaning | controllers/ingress_controller.go:391-400 | whichever schema a cluster selects, its file reads back as the meaning of its model |
| Render.IngressBeatsGateway | controllers/ingress_controller.go:198-208 | what the Ingresses put into the model, and the ACME solver they chose, no HTTPRoute changes |
| Render.FirstSourceWins | controllers/ingress_controller.go:198-208 | over all sources in their order, Ingresses then HTTPRoutes, each host is of the kind its first claimant asked for and each path holds its first writer's configuration |
| RouteServing.EveryRouteServes | controllers/endpoints.go:184-193 | for every cluster each rendered route has at least one server, and no prefix route is keyed under the ACME challenge path (one keyed / still is a prefix of it) |
| Render.ListenersShown | controllers/gateway.go:59-93 | permuted Gateways leave every field of the model but the projected Secrets as it is |
| Render.RenderOrderFree | controllers/ingress_controller.go:198-208 | listing Ingresses, IngressClasses, EndpointSlices and the endpoints inside them, GatewayClasses, Gateways and HTTPRoutes in any order gives the same upstreams text |
| Render.UpstreamsFile.WriteIfChanged | controllers/ingress_controller.go:587-612 | a reader of the file sees the former content or all of the new one, however the write ends; changed is reported exactly when it was replaced |
| RenderPass.Operator.Render | controllers/ingress_controller.go:178-423 | one pass: nothing changes when the Ingresses cannot be listed; a failed certificate projection ends it before the file is touched; a file that changed is the cluster's rendering, with every usable pair it refers to in place; a cluster merely listed in another order replaces nothing |
| RenderPass.NamedCertsInPlace | controllers/ingress_controller.go:369-400 | whoever reads the rendered file after such a pass: each certificate a host names is projected, and if its Secret has both parts, its tls.crt is in the .crt file and its tls.key in the .key file |
| CertOrder.ProjectionsExact | controllers/gateway.go:59-93 | every order of the Gateways projects the same Secrets exactly when those sharing a stem no Ingress has taken agree on its Secret |
| CertOrder.ProjectionFollowsListing | controllers/gateway.go:59-93 | two Gateways sharing a host but not a Secret: the one listed first is projected |
| Edges.WalkPolicyEdges | controllers/edge_producer.go:298-375 | the nested loops emit exactly the specified edges and governed references; what these are in the API's terms, `NetworkPolicySpec.EdgesJustified` and `NetworkPolicySpec.GovernedExactly` say |
| Edges.ResolveNamedPort | controllers/edge_producer.go:531-547 | exactly the numbers a name has on the containers of the pods, each once |
| Edges.ComputeEdgeLines | controllers/edge_producer.go:249-275 | the sorted list of exactly the specified lines |
| Edges.BuildEdgeDoc | controllers/edge_producer.go:279-292 | the document and the hashed text of those lines |
| NetworkPolicySpec.IngressComplete | controllers/edge_producer.go:322-345 | whenever a policy selects a pod and an ingress rule admits another on a port, an E line covers the pair and the port |
| NetworkPolicySpec.EgressComplete | controllers/edge_producer.go:347-373 | the same for egress, names resolved on the peer pods |
| NetworkPolicySpec.CompilationComplete | controllers/edge_producer.go:298-375 | both directions together, for every policy, pair of pods and port |
| NetworkPolicySpec.EdgesJustified | controllers/edge_producer.go:298-375 | an E line is among the lines exactly when a policy, rule, selected pod and (unless */*) admitted pod account for it |
| NetworkPolicySpec.WildcardPorts | controllers/edge_producer.go:489-526 | the E lines that end in the port * are exactly those of rules whose ports are empty, absent or a name that resolves on no destination pod |
| NetworkPolicySpec.GovernedExactly | controllers/edge_producer.go:322-350 | a G line is among the lines exactly when a policy that lists Ingress, or lists no types, selects its workload; an S line exactly when one that lists Egress, or has an egress rule, does |
| NetworkPolicySpec.DefaultDenyEgress | controllers/edge_producer.go:347-386 | a policy that lists Egress alone and has no rules gives an S line for every selected workload and no other line |
| NetworkPolicySpec.ListingOrderIrrelevant | controllers/edge_producer.go:249-275 | permuting policies, pods or namespaces gives the same lines |
| NetworkPolicySpec.LinesUnion | controllers/edge_producer.go:308-374 | the lines of two lists of policies together are the union of their lines |
| NetworkPolicySpec.LinesCanonical | controllers/edge_producer.go:263-274 | the list is strictly sorted and so without duplicates |
| NetworkPolicySpec.ReadEdgeLine | controllers/edge_producer.go:242-257 | an E line of names without blanks reads back as its source, destination and port |
| Workload.WorkloadIdentity | controllers/identity_producer.go:429-465 | the workload and app of a pod as specified from its controller, labels and name; the cases are the rows below |
| Workload.ReplicasAggregate | controllers/identity_producer.go:484-502 | pods whose first controlling owners are ReplicaSets named base-h and base-h' for two template hashes share the workload base |
| Workload.TrimExact | controllers/identity_producer.go:484-502 | a ReplicaSet name is cut exactly when it ends in a dash and five to ten lower-case letters or digits |
| Workload.OrdinalsApart | controllers/identity_producer.go:467-482 | pods numbered behind the name of any other controller are their own workloads |
| Workload.NamedByController | controllers/identity_producer.go:436-453 | a pod of any other controller that does not number it, and of a ReplicaSet whose name ends in no hash, belongs to the workload of the controller's name |
| Workload.NamedByLabels | controllers/identity_producer.go:430-461 | without a controlling owner the workload is the app.kubernetes.io/name label, else the app label, else the pod's name |
| Workload.AppByLabels | controllers/identity_producer.go:430-465 | the app is the first of those two labels that is not empty, else the workload; the reference is namespace/workload |
| EdgeProducer.ReadDocBack | controllers/edge_producer.go:285-291 | reading an uploaded document gives back the set of lines it was built from |
| EdgeProducer.VersionExact | controllers/edge_producer.go:282-283 | for every hash function, truncated or not: versions are equal exactly when the lines are or the hash collides on their texts |
| EdgeProducer.InputLinesGood | controllers/edge_producer.go:249-275 | lines built from references without newlines can be stored one per line |
| EdgeProducer.RunsConverge | controllers/edge_producer.go:159-215 | in every run of baselines and flushes with arbitrary failures, for every hash function: deltas are numbered 1, 2, ... without gap or repeat, and whenever the latest reseed was published the stored lines with the deltas since are exactly the index, all along the run exactly when no baseline's version collides with that of other lines that are stored |
| EdgeProducer.RetryOffersSame | controllers/edge_producer.go:206-212 | after any number of failed listings and posts, the next post of the same lines carries the same epoch, number, upserts and removes as the ones that failed |
| EdgeProducer.FollowersExact | controllers/edge_producer.go:159-215 | in every run: a consumer that had the index at some point and follows deltas alone is wrong about exactly the lines baselines moved and no delivered delta has moved since, so it is in step exactly when there are none |
| EdgeProducer.FollowersInStep | controllers/edge_producer.go:159-215 | in particular it stays in step through any run whose baselines found what the index held, whatever failed |
| EdgeProducer.FollowerLeftBehind | controllers/edge_producer.go:165-177 | a run in which it falls behind: a baseline moves the index, and the flush after it has nothing to tell |
| EdgeProducer.Producer.BuildAndUpload | controllers/edge_producer.go:159-177 | the method is the baseline step of the protocol |
| EdgeProducer.Producer.FlushDelta | controllers/edge_producer.go:181-215 | the method is the flush step of the protocol, and the request it makes, accepted or not, carries the delta from index to lines and the name of the cluster |
| Identity.PodServing | controllers/identity_producer.go:386-403 | running, ready by the first Ready condition, and not terminating |
| Identity.PodIPs | controllers/identity_producer.go:405-424 | exactly the reported addresses, trimmed, each once |
| Strings.TrimSpaceExact | controllers/identity_producer.go:407-419 | trimming an address, an annotation or a value takes the white space at both ends and nothing else |
| Identity.ResolveIdentityEntries | controllers/identity_producer.go:334-384 | exactly one row per address claimed by a serving pod, its owner's: the claimant started last and, among equals, listed first |
| Identity.TableExactly | controllers/identity_producer.go:334-424 | a row is in the table exactly when it is that of the pod that wins its address: running, ready, not terminating, off the host network, started last and listed first among equals; with the pod's workload, namespace, app and the labels that do not change on a rollout |
| Identity.OrderIrrelevant | controllers/identity_producer.go:336-341 | when claimants that tie for the latest start would give the same row, the table does not depend on the listing order |
| Identity.OrderMatters | controllers/identity_producer.go:364-368 | when a tie disagrees, two orders of the same pods give different tables |
| Identity.DistinctStartsAgree | controllers/identity_producer.go:364-368 | distinct start times leave no such ties |
| IdentityProducer.EntriesEqual | controllers/identity_producer.go:170-188 | the comparison, field by field, with missing labels read as empty |
| IdentityProducer.EqualToExact | controllers/identity_producer.go:170-188 | the comparison from an entry means equality exactly when it has no empty label value |
| IdentityProducer.DeltaKeepsSync | controllers/identity_producer.go:281-297 | one delivered delta brings a consumer from the old table to the new one when no old label is empty |
| IdentityProducer.ConsumersFollow | controllers/identity_producer.go:269-306 | between two baselines a consumer that applies every delivered delta holds the producer's table after any number of flushes, whatever failed in between |
| IdentityProducer.ConsumersSay | controllers/identity_producer.go:238-306 | what such a consumer holds for an address is the workload, namespace, app and labels of the producer's row |
| IdentityProducer.FlushKeepsSyncExactly | controllers/identity_producer.go:281-295 | every working flush leaves a consumer in step with the new table exactly when the old one has no empty label value |
| IdentityProducer.StaleAfterFlush | controllers/identity_producer.go:281-295 | an empty label that moves to another key is never sent |
| IdentityProducer.VersionExact | controllers/identity_producer.go:504-514 | for all tables and every hash function: versions are equal exactly when the sorted rows have the same lines or the hash collides on the texts |
| IdentityProducer.VersionIs | controllers/identity_producer.go:504-514 | the hashed row is ip\|namespace\|workload\|app and the two flags, the version id- and the hash of the sorted rows |
| IdentityProducer.VersionExactByRows | controllers/identity_producer.go:504-514 | without newlines: exactly when the tables have the same rows, each as often |
| IdentityProducer.VersionExactByEntries | controllers/identity_producer.go:504-514 | without separators in names: exactly when the tables differ at most in labels |
| IdentityProducer.SeparatorsCollide | controllers/identity_producer.go:504-514 | with a separator in a name two different tables have one text |
| IdentityProducer.Producer.BuildAndUpload | controllers/identity_producer.go:190-237 | the diff base is the resolved table after every successful listing; uploaded rows are its rows with their classification by namespace/workload; empty and unchanged tables are not uploaded |
| IdentityProducer.Producer.FlushDelta | controllers/identity_producer.go:273-306 | the method is the flush step of the protocol; every delta carries the name of the cluster |
| Debouncer.ReloadDebouncer.Trigger | controllers/signal.go:70-85 | the critical section: fire, nothing, or one timer with the rest of the window |
| Debouncer.ReloadDebouncer.TimerFired | controllers/signal.go:86-92 | the timer's critical section |
| Debouncer.AtMostOneTimer | controllers/signal.go:79-85 | in every interleaving pending holds exactly while one timer is being created or outstanding |
| Debouncer.TriggerNotLost | controllers/signal.go:51-57 | a trigger after which no reload has started leaves one that will: decided already, or behind the pending timer |
| Debouncer.QuietMeansServed | controllers/signal.go:51-57 | when nothing is pending or left to do, every trigger was followed by the start of a reload |
| Debouncer.Drain | controllers/signal.go:70-93 | from every state steps without new triggers lead to rest |
| Debouncer.AtMostTwoPerWindow | controllers/signal.go:70-93 | however late timers are, no interval of one window holds three fires |
| Debouncer.LateTimerFiresTwice | controllers/signal.go:70-93 | a run in which a late timer fires together with a trigger: two is the exact bound |
| Debouncer.OneWindowApart | controllers/signal.go:70-93 | with punctual timers any two fires are a window apart |
| Debouncer.OneWindowApartExactly | controllers/signal.go:70-93 | in every run, with late timers or not: fires in a row are a window apart exactly when every timer's function ran with the last window over, which it does not check |
| Debouncer.ServedWithinWindow | controllers/signal.go:70-93 | with punctual timers every trigger is followed by a fire within one window |
| Debouncer.NoWindowNoDelay | controllers/signal.go:73-78 | without a window every trigger fires at once and no timer is created |
| ProducerLoop.EventNotLost | controllers/edge_producer.go:86-126 | in every interleaving an event that no flush start has followed is in the channel or behind the timer |
| ProducerLoop.DeadlineKept | controllers/identity_producer.go:114-120 | an armed timer keeps its deadline until it expires |
| ProducerLoop.FlushDue | controllers/edge_producer.go:110-124 | the event that arms the timer is flushed one delay later: until its flush the timer is due at just that time, and the flush starts no earlier |
| ProducerLoop.QuietExact | controllers/edge_producer.go:86-215 | in every interleaving a quiet loop has what the cluster holds as its diff base exactly when its last flush did not fail while behind |
| ProducerLoop.Settles | controllers/edge_producer.go:86-126 | from every reachable state steps without changes and failures lead to a quiet loop, and to the cluster as its diff base unless the loop was quiet and behind already |
| ProducerLoop.FailureStaysBehind | controllers/edge_producer.go:181-212 | a failed flush is not retried on its own: a run that ends quiet and behind |
| EdgeLoop.QuietMeansPublished | controllers/edge_producer.go:67-215 | the edge producer in the loop: a quiet loop has the cluster's lines as its index exactly when its last flush did not fail, and then, and only then, the stored lines with the deltas since are the cluster's, if the last baseline was published |
| IdentityLoop.QuietMeansPublished | controllers/identity_producer.go:63-303 | the identity producer in the loop, over tables without empty labels: the same for its table, and for consumers that took the table at the last baseline and applied every delta since |
| HotReload.CanonicalConfig | controllers/configmap_controller.go:487-515 | the canonical text, the hot-reloadable fields removed under ids and firewall.ids |
| HotReload.StripExact | controllers/configmap_controller.go:469-515 | two documents are equal after stripping exactly when they look alike along every path outside the hot fields |
| HotReload.CanonicalExact | controllers/configmap_controller.go:483-501 | canonical texts are equal exactly when the documents agree outside the hot fields, or the unreadable texts are the same |
| HotReload.NetVarsStayHot | controllers/netvars_resolver.go:300-334 | filling HOME_NET leaves the hashed part of a document alone exactly when it already has an ids map |
| ConfigHash.HashContent | controllers/configmap_controller.go:421-467 | the hash of one source is the hash of its counted records in key order, empty when nothing counts |
| ConfigHash.HashConfigSources | controllers/configmap_controller.go:372-419 | the combined hash is the hash of the counted sources' hashes in name order |
| ConfigHash.StreamInjective | controllers/configmap_controller.go:444-466 | the hashed text determines keys and values when they hold no NUL |
| ConfigHash.NulCollides | controllers/configmap_controller.go:444-466 | with NULs it does not: a value holding a NUL and a further record is hashed like the two records |
| ConfigHash.OneChangeShows | controllers/configmap_controller.go:444-466 | with or without NULs, adding, removing or editing a single record always changes the hashed text |
| ConfigHash.StreamExact | controllers/configmap_controller.go:444-466 | in general, two tables have one hashed text exactly when cutting it at NULs gives the same parts |
| ConfigHash.CountedPermuted | controllers/configmap_controller.go:406-408 | the order in which sources are listed does not matter |
| Rollout.RecordsExact | controllers/configmap_controller.go:426-466 | two ConfigMaps count alike exactly when their counted keys and values are the same and their config.yaml agree outside the hot fields |
| Rollout.SecretRecordsExact | controllers/configmap_controller.go:517-545 | two Secrets count alike exactly when their counted keys and values are the same |
| Rollout.HashExact | controllers/configmap_controller.go:372-467 | for all values, NULs or not: two clusters have one combined hash exactly when their counting ConfigMaps and Secrets are of the same kinds and names and give the same parts when keys and values are cut at NULs |
| Rollout.HashExactWithoutNul | controllers/configmap_controller.go:372-419 | without NULs: exactly when they hold the same counting ConfigMaps and Secrets, by kind, name, keys and values, config.yaml compared outside the hot fields |
| Rollout.HashedText | controllers/configmap_controller.go:372-467 | the text behind the hash of one object with one counted key, in letters: configmap/ or secret/ and the name, the kind letter, the key and the value, each closed by a NUL |
| Rollout.OneEditRolls | controllers/configmap_controller.go:372-467 | with or without NULs: editing, adding or removing one key of one ConfigMap or Secret keeps the combined hash exactly when the key is not counted, the value is the same or the edit stays within the hot fields |
| WorkloadHash.ReferencedSources | controllers/configmap_controller.go:164-212 | exactly the names a pod spec gives in volumes, projected volumes, envFrom and env |
| WorkloadHash.ReferencedExactly | controllers/configmap_controller.go:164-236 | a source is hashed for a workload exactly when its pod spec names it: in a volume, in a projected volume, as an environment or in a variable of a container or an init container |
| WorkloadHash.HashForWorkload | controllers/configmap_controller.go:149-162 | the combined hash, or the hash over the referenced sources |
| WorkloadHash.ListingOrderIrrelevant | controllers/configmap_controller.go:406-408 | the hash of all sources does not depend on the order they are listed in |
| WorkloadHash.OthersDoNotRoll | controllers/configmap_controller.go:149-162 | sources the pod spec does not refer to never move the workload's hash |
| WorkloadHash.RollsExactly | controllers/configmap_controller.go:149-162 | and the hash stays exactly when the ConfigMaps and Secrets the pod spec names give the same parts when cut at NULs |
| WorkloadHash.RollsExactlyWithoutNul | controllers/configmap_controller.go:149-162 | without NULs: exactly when they are the same, config.yaml compared outside the hot fields |
| Certs.CertDir.WriteFileIfChanged | controllers/certs.go:218-244 | the file gets the content in place, written only when it differs, or the failure is reported |
| Certs.WritePair | controllers/certs.go:103-119 | from any directory and however the writes end: no state on the way has a certificate without its key that did not lack it before |
| Certs.PruneCerts | controllers/certs.go:246-279 | from any directory: exactly the stale files go, and no removal leaves a certificate without its key exactly when no stale certificate that has one is stuck while its key can be removed |
| Certs.ProjectCerts | controllers/certs.go:68-127 | from any directory: each projected stem whose Secret has both parts has the tls.crt in its .crt file and the tls.key in its .key file; after an error-free pass no other stem has either, no temporary file is left and the files that are not the operator's are as before, which also heals certificates an earlier pass left without keys; changed is reported exactly when the directory changed; the states on the way as for the two halves |
| Certs.SecondPassQuiet | controllers/certs.go:218-249 | a second pass over a converged directory changes nothing |
| Certs.CertSecret.Project | controllers/certs.go:137-202 | the same for the data of the output Secret, which holds nothing else and is written only when it differs |
| Certs.ModesAgree | controllers/certs.go:129-136 | a converged directory's certificates and keys are the Secret's data |
| NetVars.AutoHomeNet | controllers/netvars_resolver.go:197-270 | the sorted list of supernets, node addresses, pod networks and load balancer addresses |
| NetVarsSpec.HomeExactly | controllers/netvars_resolver.go:197-281 | a network is home exactly when it is one of the six private, carrier-grade or local ones, a Node has it as a pod network or as the /32 or /128 of an internal or external address, or a Service as that of a load balancer, external or assigned address |
| NetVarsSpec.TextReads | controllers/netvars_resolver.go:197-242 | the derived text is the sorted list of those networks in brackets with commas between them |
| NetVarsSpec.DecidedExactly | controllers/netvars_resolver.go:168-193 | the home-net annotation, trimmed, decides; else the document's ids.address_vars.HOME_NET unless it is empty, any in any case, or marked auto; else the derived text, none when a list fails |
| NetVarsSpec.StoredExactly | controllers/netvars_resolver.go:107-166 | a write stores that value and !$HOME_NET in config.yaml, marks it auto or manual, keeps every other key and annotation, and only labelled objects are written |
| NetVarsSpec.QuietExactly | controllers/netvars_resolver.go:107-166 | nothing is written exactly when no value is decided, the document is unreadable, or document and marker already say it |
| NetVars.HomeNetCanonical | controllers/netvars_resolver.go:237-242 | the list depends only on which Nodes and Services there are |
| NetVars.SetIdsAddressVars | controllers/netvars_resolver.go:300-334 | the two variables set in the document, or the text left alone when they are |
| NetVars.FrameExact | controllers/netvars_resolver.go:310-327 | nothing else in the document is lost exactly when ids and address_vars are maps or missing |
| NetVars.DecideHome | controllers/netvars_resolver.go:168-193 | override annotation, then a user's value, then the derived list |
| NetVars.Reconcile | controllers/netvars_resolver.go:107-166 | the stored object after a reconcile, and whether it was written |
| NetVars.AutoConverges | controllers/netvars_resolver.go:70-81 | over any changes of Nodes and Services and any failures: a config that starts unset, any or marked as the operator's keeps the marker, and after every completed reconcile holds the sorted list of the networks those Nodes and Services bring |
| NetVars.PinnedForever | controllers/netvars_resolver.go:177-187 | a user's value stays that value, trimmed, whatever the cluster does |
| NetVars.SecondReconcileQuiet | controllers/netvars_resolver.go:149-153 | reconciling again while the cluster holds the same Nodes and Services, in whatever order they are listed, writes nothing |
| Resolver.IsIPLiteral | controllers/upstreams_resolver.go:338-352 | a colon, or digits and dots with exactly three dots |
| Resolver.RewriteServer | controllers/upstreams_resolver.go:258-304 | what a server entry becomes, and whether it was resolved |
| ResolverSpec.RewriteExactly | controllers/upstreams_resolver.go:258-336 | an entry is rewritten exactly when it is host:port, the host is no IP and stands for a Service, in the cluster's domain or as a single label of the default namespace, with a ClusterIP that is neither empty nor None; it becomes that ClusterIP and the same port; any other entry stays |
| ResolverSpec.ItemsExactly | controllers/upstreams_resolver.go:231-247 | in a server list every string is rewritten so, for cluster.local where no domain is set, and everything else stays |
| Resolver.RewriteTwice | controllers/upstreams_resolver.go:258-304 | a rewritten entry is passed through by a second pass, when ClusterIPs are addresses |
| Resolver.FqdnRoundTrip | controllers/upstreams_resolver.go:306-324 | a cluster name parses back to the Service it was built from exactly when neither part holds a dot |
| Resolver.BackendAddrParses | controllers/upstreams_resolver.go:326-352 | an address formatted from plain names is taken apart into that very name and is not mistaken for an IP |
| Resolver.ResolverMeetsRenderer | controllers/ingress_controller.go:526-581 | resolving what the Ingress renderer writes without ClusterIPs gives what it would have written with them, for any cluster domain or none and whether or not the Service exists |
| Resolver.ResolverMeetsGateway | controllers/gateway.go:313-330 | the address the Gateway renderer writes is taken apart into the backend's namespace and name: it gets the ClusterIP and keeps its port, or stays when there is none |
| Resolver.ResolveServers | controllers/upstreams_resolver.go:231-247 | the list is rewritten in place entry by entry; total is resolved plus passed through |
| Resolver.ResolveYaml | controllers/upstreams_resolver.go:196-256 | the whole document, in whatever order the maps are walked, with exact counts |
| Resolver.TextTwice | controllers/upstreams_resolver.go:180-256 | resolving a resolved document changes nothing |
| Resolver.OnlyServersChange | controllers/upstreams_resolver.go:193-195 | only the server lists under upstreams change, and only entry by entry |

## Left out

- Rollout.HashExactWithoutNul: keys and values are assumed to hold no NUL; `Rollout.HashExact` and `Rollout.OneEditRolls` need no such assumption, and `ConfigHash.NulCollides` shows what it excludes.
- ConfigHash.HashConfigSources: names are unique per kind, as the API guarantees within a namespace.
- IdentityProducer.VersionExactByEntries: names, namespaces and labels are assumed free of the separators the rows are joined with, as the API guarantees; `IdentityProducer.VersionExact` is for all tables.
- Layout.ReadQuote: strings are sequences of Unicode characters; bytes that are not UTF-8 are outside the model.
- RouteText.RenderUpstreams: the `strings.Builder` is a string that grows.
- Resolver.RewriteTwice: ClusterIPs are assumed to be what the code takes for an IP literal, as the API guarantees.
- Resolver.ResolveYaml: nested maps are rebuilt instead of updated in place, so aliasing between parts of a document is not captured; the server lists are arrays and are updated in place.
- HotReload.CanonicalConfig: the same for the nested maps whose fields are deleted.
- Certs.ProjectCerts: a directory is a map from names to contents; creating it and file modes are not modelled.
- IdentityLoop.QuietMeansPublished: over tables without empty label values, because with one a change can pass for none (`IdentityProducer.StaleAfterFlush`).
- IdentityProducer.ConsumersFollow: between two baselines only, because baselines move the diff base and ignore labels.
- Status conditions, events, metrics, logging, leader election and the signalling of processes: effects on objects the model does not hold.
- Annotation parsing: the parsed settings of an Ingress or HTTPRoute are arbitrary input.
- The warnings for matches the proxy cannot represent, and the counts of matched objects and routes a render reports.
- Validation of label selectors beyond what their conversion rejects, `endPort` ranges and `ipBlock` peers.
- The HTTP requests, JSON encoding and the MMDB file: each is a step that succeeds or fails.
- SHA-256, YAML parsing and printing, IP and CIDR parsing: parameters.
- `internetExposedRefs` and `isControlPlane`: the classification is an arbitrary input of the identity baseline.
- controllers/configsync_controller.go, controllers/classify.go, controllers/leader.go and the patching of workloads with a computed hash: easy members.
- The central-mode ConfigMap writer: the file writer is modelled, the ConfigMap one compares and replaces a value in the same way.
