# netbird-operator, modelled in Dafny

The operator mirrors Kubernetes objects into a NetBird account. Several objects
may share one NetBird object (a zone, a custom domain registration, a cluster),
API calls fail, time out after taking effect or are never made because the
operator stopped, and lists are cached. This project models that core and proves
what every run of it keeps.

The modules, from the bottom up:

- `Api`, `Records`, `Kube`, `Sequences`: ids, errors, the two stores, the scan for other live objects.
- `ListCaches`: the TTL list cache and its refinement of a direct list.
- `Mirror`: the generic mirror reconciler and its finalizer protocol.
- `DNSZone`, `ZoneRuns`, `ZoneNames`, `ZoneNameRuns`: adoption by name, guarded deletion of shared zones, and when names stay unique.
- `ReverseProxyCluster`, `ClusterRuns`, `ClusterProtocol`, `ClusterUniqueness`, `ClusterReadiness`, `ClusterOutcomes`: the registration protocol.
- `NetworkMirror`, `NetworkHealing`, `RecordMirror`, `RecordSharing`: self-healing of parent and child, and records shared by adoption.
- `Hostnames`, `Admission`, `RouteCompiler`, `RouteLaws`, `ChildNames`, `ChildSets`, `RouteChildren`: HTTPRoute translation.
- `SetupKeys`: key rotation.
- `ServiceAddr`, `LoadBalancer`, `Targets`, `PortDomains`, `Renderer`, `Backends`: advertising Services and rendering proxy services.

How it is modelled:

- An API call is `Fine`, `Lost` (an error, no effect) or `Late` (the effect and an
  error). A stop between two calls is a `Lost` second call. So a reconcile with
  arbitrary answers covers crashes at every point.
- A controller runs its reconciles one at a time, so one reconcile is one step of a
  run. Between steps anything may happen: objects are created, edited and marked
  deleting, zones and clusters appear and vanish, and the cluster cache shared with
  other controllers changes, where the step types say so.
- Each imperative controller is a class. Its methods are proved equal to a
  specification function on the state; runs fold that function over steps.
- `net.ParseIP`/`IP.String`, the SHA-256 prefix, the clock, `strconv.Itoa`, group
  resolution and fetches are parameters.

Where code and documentation differ, the model follows the code: the DNSZone
field documentation speaks of adopting a zone of the same domain, the code adopts
by name; the event for an overused setup key announces a new one, the code returns
an error and creates none.

## Model

| member | source | states |
|---|---|---|
| ListCaches.ListCache.FetchLocked | internal/netbirdutil/cache.go:45-54 | A failed fetch changes no cached state; a successful one replaces the list and starts a new lifetime of thirty seconds. |
| ListCaches.ListCache.List | internal/netbirdutil/cache.go:28-35 | The cached list is served without a call exactly while it is valid and unexpired; otherwise one fetch is made. |
| ListCaches.ListCache.Refresh | internal/netbirdutil/cache.go:39-43 | Always fetches, whatever the cache holds. |
| ListCaches.ListCache.Lookup | internal/netbirdutil/cache.go:60-76 | State, answer and number of fetches are those of the specification LookedUp, whose meaning the next three rows state. |
| ListCaches.LookupIsFaithful | internal/netbirdutil/cache.go:60-76 | A hit is the first match of the latest fetch, less than 30 s old; a miss is backed by a fetch of this very call without a match; an error is that of the last fetch; at most two fetches. |
| ListCaches.CacheRefinesDirectList | internal/netbirdutil/cache.go:28-76 | The same after every history of lookups, for every clock and every behaviour of the server. |
| ListCaches.LookupOfSteadyList | internal/netbirdutil/cache.go:60-76 | While the live list does not change during a lookup, a miss means nothing on it matches; a hit by an expired cache is its first match. |
| ListCaches.IndexFunc | internal/netbirdutil/cache.go:65-75 | Finds the first matching index, or none. |
| Kube.AnotherLiveMatches | internal/controller/reconcile.go:30-44 | True exactly when some other object that is not being deleted matches. |
| Kube.ScanLive | internal/controller/reconcile.go:30-44 | List and scan together answer the same whatever the order of the list. |
| Mirror.MirrorReconciler.Reconcile | internal/controller/mirror.go:65-98 | One reconcile, with any closures and any failing calls, does what ReconcileStep says; the finalizer is added before apply. |
| Mirror.MirrorReconciler.ReconcileDelete | internal/controller/mirror.go:100-122 | The finalizer is removed only after a clean-up that ended in success or not-found. |
| Mirror.LiveOutcome | internal/controller/mirror.go:65-98 | For every apply and every answer: Ready and a resync exactly after a success, not ready and a dependency retry exactly while a dependency is missing, otherwise the error with condition and status as they were. |
| Mirror.DeleteOutcome | internal/controller/mirror.go:100-122 | For every del: success and not-found release the object, a conflict is retried later, any other error is returned; it leaves exactly when released and held by nobody else. |
| Mirror.VerifyId | internal/controller/mirror.go:134-146 | Keeps the id exactly while a GET finds it, gives it up only for not-found, and returns any other error. |
| Mirror.ReconcileHasLiveShape | internal/controller/mirror.go:65-98 | A reconcile of a live object touches nobody else, and changes the status only while the finalizer is held. |
| Mirror.DeleteHasShape | internal/controller/mirror.go:100-122 | A delete reconcile touches nobody else, and its object at most loses its finalizer or goes. |
| Mirror.FinalizerProtocol | internal/controller/mirror.go:65-122 | In every reachable state, for all closures and failures, an object with a recorded status holds the finalizer unless it is deleting and its clean-up already ended in success or not-found. |
| Mirror.LeavesOnlyCleaned | internal/controller/mirror.go:100-122 | An object with a recorded status leaves Kubernetes only after such a clean-up; a conflict or an error never lets it go. |
| DNSZone.ZoneClient.ApplyDNSZone | internal/controller/dnszone_mirror.go:39-96 | Verify, adopt by name, update or create: store, cache and status as ApplyZone says, for all answers of the calls. |
| DNSZone.ZoneClient.DeleteDNSZone | internal/controller/dnszone_mirror.go:98-137 | Guarded delete of the recorded zone, as DeleteZone says. |
| ZoneRuns.ApplyFacts | internal/controller/dnszone_mirror.go:39-96 | An apply never loses a zone; success means the recorded id names a zone with the spec's name, domain, search setting and enabled flag and the resolved distribution groups; failure leaves the status alone. |
| ZoneRuns.DeleteFacts | internal/controller/dnszone_mirror.go:98-137 | A delete removes at most the recorded zone, and only when no other live object has recorded it or declares its live name. |
| ZoneRuns.DeleteEnds | internal/controller/dnszone_mirror.go:98-137 | For any answers: the zone is removed exactly when found, unshared and the call takes effect; the object counts as cleaned up exactly when nothing is recorded or there, it is shared, or the delete was carried out or found nothing. |
| ZoneRuns.RecordedZonesExist | internal/controller/dnszone_mirror.go:39-137 | In every state of every run (creations, renames, deletion marks, reconciles with any failures and crashes) each live object's recorded id names a zone that exists. |
| ZoneRuns.OnlyTheLastOwnerDeletes | internal/controller/dnszone_mirror.go:98-137 | A zone disappears in a step of a run only by the delete reconcile of an object that recorded it, when no other live object recorded it or declares its name. |
| ZoneRuns.LastZoneStanding | internal/controller/dnszone_mirror.go:98-137 | Under every order of deletion marks and failure-free delete reconciles the zone stays, unchanged, while a live owner remains, and is gone once all owners were processed. |
| ZoneNames.ApplyKeepsNamesIff | internal/controller/dnszone_mirror.go:39-96 | With any answers, an apply keeps one zone per name exactly when it does not clash: a condition on the recorded id, the live zones, what the cache remembers, and the answers to update and create. |
| ZoneNames.NamesStayUniqueIff | internal/controller/dnszone_mirror.go:39-96 | With every call answered: two zones share the name afterwards exactly when a zone other than the recorded one bears it or, with none recorded or the recorded one gone, other than the one a fresh cache remembers. |
| ZoneNames.ApplySucceedsIff | internal/controller/dnszone_mirror.go:39-96 | For any answers: an apply succeeds exactly when groups resolve, the zone to write is determined, and it is updated, or created because there is none or the update was denied. |
| ZoneNames.FreshLookupNeverClashes | internal/controller/dnszone_mirror.go:66-96 | An expired cache, with nothing recorded or the recorded zone gone, never makes two zones share a name. |
| ZoneNames.StepKeepsNamesIff | internal/controller/dnszone_mirror.go:39-137 | Each step of a run keeps one zone per name exactly when it does not clash; delete reconciles never do. |
| ZoneNames.OneZonePerNameIff | internal/controller/dnszone_mirror.go:39-137 | Over every run, one zone per name at all times exactly when no step clashes. |
| ZoneNameRuns.RenameBreaksUniqueness | internal/controller/dnszone_mirror.go:39-96 | A run, every call answered, in which a rename ends in two zones of one name. |
| ZoneNameRuns.RememberedZoneBreaksUniqueness | internal/controller/dnszone_mirror.go:66-96 | A run of creations and deletions, every call answered, in which the cache remembers a zone the operator deleted and two successors each create one. |
| ReverseProxyCluster.ClusterReconciler.EnsureDomain | internal/controller/reverseproxycluster_controller.go:253-302 | Adopt, give way, repair or create, as EnsuredDomain says, with the cluster lookup through the cache. |
| ReverseProxyCluster.ClusterReconciler.MintOnce | internal/controller/reverseproxycluster_controller.go:89-109 | Token, Secret, status patch: state after each failing call as MintToken says. |
| ReverseProxyCluster.ClusterReconciler.Reconcile | internal/controller/reverseproxycluster_controller.go:67-184 | One reconcile of a live or deleting object, call by call, equals ReconcileRun. |
| ReverseProxyCluster.ClusterReconciler.MarkNotReady | internal/controller/reverseproxycluster_controller.go:318-324 | The not-ready exit patches the condition and asks for a dependency retry. |
| ReverseProxyCluster.ClusterReconciler.ReconcileDelete | internal/controller/reverseproxycluster_controller.go:187-244 | Token, registration, cluster, finalizer, as DeleteRun says. |
| ReverseProxyCluster.ClusterReconciler.DeleteDomain | internal/controller/reverseproxycluster_controller.go:199-224 | The recorded registration is dropped unless a survivor uses it. |
| ClusterRuns.MissMeansDead | internal/controller/reverseproxycluster_controller.go:253-293 | No owner and a cache miss mean: not declared or recorded by any other live object, and no cluster enrolled there, shown by a fetch of this call. |
| ClusterRuns.EnsureIsDomainStep | internal/controller/reverseproxycluster_controller.go:253-302 | Registrations are unchanged, or one is created for a domain that had none, or the first one for the domain was dead and is removed or replaced. |
| ClusterRuns.EnsureRegisters | internal/controller/reverseproxycluster_controller.go:253-302 | The id answered is a registration of the declared domain with an empty or own target; an ownership conflict leaves the registrations unchanged. |
| ClusterRuns.LiveReconcile | internal/controller/reverseproxycluster_controller.go:89-184 | Whenever Ready=True is written, also by a patch that reports an error, there are token, address, a lookup hit and a registration of the domain under DomainID; whenever one of the two waits is written the proxy is reported offline; no other object changes and no delete key is lost. |
| ClusterOutcomes.EnsureAnswersIff | internal/controller/reverseproxycluster_controller.go:253-302 | For any answers: exactly when ensureDomain answers with a registration. |
| ClusterOutcomes.EnsureGivesWayIff | internal/controller/reverseproxycluster_controller.go:258-288 | Exactly when it gives way: the first registration points at an address that another live object owns or a cluster serves. |
| ClusterOutcomes.ReconcileEnds | internal/controller/reverseproxycluster_controller.go:67-184 | For any answers: Ready exactly when every step up to and including validation succeeded; a wait exactly for an address, enrolment, another owner or validation; an error otherwise. |
| ClusterOutcomes.ReadyNeedsEveryStep | internal/controller/reverseproxycluster_controller.go:110-184 | Ready=True is never written while a step, validation included, has failed. |
| ClusterOutcomes.FailingValidationWaits | internal/controller/reverseproxycluster_controller.go:175-178 | When all but the validation succeeds the object is not ready and retried at the dependency cadence. |
| ClusterOutcomes.RegistrationIsRecorded | internal/controller/reverseproxycluster_controller.go:157-174 | A registration answered by ensureDomain is recorded before validation or the final patch can fail. |
| ClusterOutcomes.TokenIsRecordedIff | internal/controller/reverseproxycluster_controller.go:89-108 | A token id is recorded exactly when none was, its Secret was stored and the patch took effect. |
| ClusterOutcomes.RecordedTokensWork | internal/controller/reverseproxycluster_controller.go:89-198 | In every state of every run a live object's recorded token was minted and not revoked, and no two objects share one. |
| ClusterProtocol.DeleteReconcile | internal/controller/reverseproxycluster_controller.go:187-244 | A delete touches only the recorded registration and cluster, each only when no other live object uses it. |
| ClusterOutcomes.DeleteEnds | internal/controller/reverseproxycluster_controller.go:187-244 | For any answers: released exactly when the token is revoked or gone and registration and cluster are each absent, used by another live object, or deleted or gone; otherwise the finalizer stays and the error is returned; the token is revoked whenever the call takes effect. |
| ClusterOutcomes.ReleasedIsCleanedUp | internal/controller/reverseproxycluster_controller.go:187-244 | A released object leaves no token, and no registration or cluster that is not somebody else's, unless a call falsely said not-found. |
| ClusterProtocol.RunsAreSound | internal/controller/reverseproxycluster_controller.go:67-244 | Well-formed registrations, and the finalizer on every live object that has recorded anything, in every state of every run. |
| ClusterUniqueness.EnsureKeepsUniqueIff | internal/controller/reverseproxycluster_controller.go:253-302 | ensureDomain keeps registrations unique exactly when it does not create after a repair whose delete left the registration there and answered not-found. |
| ClusterUniqueness.StepKeepsUniqueIff | internal/controller/reverseproxycluster_controller.go:67-302 | Every step of a run keeps registrations unique except exactly such a reconcile of a live object. |
| ClusterUniqueness.AtMostOneRegistrationIff | internal/controller/reverseproxycluster_controller.go:157-302 | Over every run: at most one registration per domain at all times exactly when no step is such a one. Crashes between delete and create, or between create and status patch, do no harm. |
| ClusterUniqueness.AtMostOneRegistration | internal/controller/reverseproxycluster_controller.go:157-302 | In particular when no repair of a live object is told not-found about a registration that stays; a delete that acts and answers not-found is covered. |
| ClusterUniqueness.FalseNotFoundDuplicates | internal/controller/reverseproxycluster_controller.go:279-302 | The failing run, for all domains and addresses: one create and one reconcile with a false not-found leave two registrations. |
| ClusterProtocol.OnlyDeadOrUnusedRegistrationsGo | internal/controller/reverseproxycluster_controller.go:187-302 | No hijack: a registration disappears in a run only as dead state or as the recorded one of a deleting object nobody else uses. |
| ClusterProtocol.NoFlapping | internal/controller/reverseproxycluster_controller.go:258-278 | Once a registration points at a live object's address, no sequence of reconciles of live objects changes its id or target. |
| ClusterProtocol.RivalEndsNotReady | internal/controller/reverseproxycluster_controller.go:258-278 | An object with the same domain and another address is never reported ready, leaves registrations alone, and ends not-ready whenever its calls are answered. |
| ClusterReadiness.EndsReadyIff | internal/controller/reverseproxycluster_controller.go:67-184 | A reconcile with every call answered ends Ready exactly when there is an address, the own cluster is found, and the domain is unregistered or its first registration has no target, the own one, or one nobody owns and no cluster serves. |
| ClusterReadiness.EstablishedIsFixpoint | internal/controller/reverseproxycluster_controller.go:67-184 | A ready object whose address and cluster are still what its status says is left as it is, registrations included. |
| ClusterReadiness.SecondReconcileIsNoOp | internal/controller/reverseproxycluster_controller.go:67-184 | The reconcile after one that ended Ready changes no registration and no object and reports ready again. |
| ClusterProtocol.DeleteKeysNeverVanish | internal/controller/reverseproxycluster_controller.go:89-184 | Over every run a recorded token, registration or cluster address never becomes empty again. |
| ClusterProtocol.LastDomainStanding | internal/controller/reverseproxycluster_controller.go:187-228 | Every interleaving of deletion marks and failure-free delete reconciles keeps the registration while a live object recorded it and leaves it gone once all were processed, whatever was renamed since. |
| ClusterProtocol.LastClusterStanding | internal/controller/reverseproxycluster_controller.go:226-244 | The same for the cluster shared by address. |
| NetworkMirror.NetworkClient.ApplyNetwork | internal/controller/network_mirror.go:37-65 | Verify, update or create, for all answers, as AppliedNetwork says. |
| NetworkMirror.NetworkClient.ApplyNetworkResource | internal/controller/networkresource_mirror.go:40-90 | Reset on a new parent, verify, update or create, as AppliedResource says. |
| NetworkHealing.NetworkHeals | internal/controller/network_mirror.go:37-65 | A failure-free apply makes the recorded id valid with the spec's name and description, and changes nothing if it already was. |
| NetworkHealing.NetworkEnds | internal/controller/network_mirror.go:37-65 | For any answers: a network is created only when the recorded one is gone and updated otherwise; an unclear GET changes nothing; success exactly when the call made was answered. |
| NetworkHealing.ResourceHeals | internal/controller/networkresource_mirror.go:40-90 | The same for the child, field by field, under the parent's current id. |
| NetworkHealing.ResourceEnds | internal/controller/networkresource_mirror.go:40-62 | A parent that is missing or has no id is a missing dependency and nothing is called; other errors are returned. |
| NetworkHealing.ResourceCreatesIff | internal/controller/networkresource_mirror.go:46-90 | A resource is created only when the one recorded under the current network is gone; success exactly when the call made was answered. |
| NetworkHealing.OneRoundHeals | internal/controller/networkresource_mirror.go:40-90 | From any state at all, a failure-free reconcile of parent then child leaves valid ids, the child under the parent's current network, and contents equal to the specs. |
| NetworkHealing.HealedIsFixpoint | internal/controller/networkresource_mirror.go:40-90 | One more round changes nothing. |
| RecordMirror.RecordClient.ApplyDNSRecord | internal/controller/dnsrecord_mirror.go:37-96 | Reset on a new zone, verify, adopt, update or create, as AppliedRecord says. |
| RecordMirror.RecordClient.Adopt | internal/controller/dnsrecord_mirror.go:64-78 | Takes over the first listed record with the spec's name, type and content, any spelling of an address. |
| RecordMirror.AdoptionFacts | internal/controller/dnsrecord_mirror.go:64-78 | What is adopted is a record of the zone; when nothing is, no identical record exists, so the create cannot be refused as a duplicate. |
| RecordMirror.AdoptableMeans | internal/controller/dnsrecord_mirror.go:71-77 | A record stands for a spec exactly when name, type and content agree, an address in any spelling. |
| RecordMirror.RecordEnds | internal/controller/dnsrecord_mirror.go:37-46 | A zone that is missing or has no id is a missing dependency and nothing is called; other errors are returned. |
| RecordMirror.RecordGoesOn | internal/controller/dnsrecord_mirror.go:42-78 | The recorded record while a GET finds it, else the first stand-in, else none; an unclear GET or list changes nothing. |
| RecordMirror.UpsertEnds | internal/controller/dnsrecord_mirror.go:80-96 | An answered update settles it, a denied one is followed by a create, any other error is returned; a create is refused exactly as the server refuses it. |
| RecordMirror.RecordHeals | internal/controller/dnsrecord_mirror.go:37-96 | A failure-free apply under a healed zone leaves the record valid, in the current zone, with the spec's name, type, content and TTL; nothing changes if it already was. |
| RecordMirror.OneRoundHeals | internal/controller/dnsrecord_mirror.go:37-96 | From any state, with any stale zone cache, one failure-free round heals zone and record. |
| RecordMirror.HealedIsFixpoint | internal/controller/dnsrecord_mirror.go:37-96 | One more round, at any time, changes nothing. |
| RecordMirror.RecordClient.DeleteDNSRecord | internal/controller/dnsrecord_mirror.go:98-103 | Deletes the recorded record without asking for other owners, as DeleteRecord says. |
| RecordSharing.SharesIff | internal/controller/dnsrecord_mirror.go:64-96 | An object with nothing recorded comes to share an existing record exactly when that is the zone's first of its name, type and content. |
| RecordSharing.DeleteTakesIff | internal/controller/dnsrecord_mirror.go:98-103 | A deletion takes the record another object holds exactly when both recorded the same one and the call takes effect. |
| RecordSharing.TwinLosesItsRecord | internal/controller/dnsrecord_mirror.go:64-103 | Of any two objects with one name, type and content, the second adopts the first's record and loses it with the first. |
| RecordSharing.TakenRecordIsRestored | internal/controller/dnsrecord_mirror.go:37-103 | The survivor's next failure-free apply restores a record of the current zone with its contents. |
| ServiceAddr.RecordMatchKeyIsExact | internal/controller/serviceaddr.go:68-73 | Keys agree exactly when type and content do, whichever way an address is spelled. |
| ServiceAddr.ChildNameIsInjective | internal/controller/serviceaddr.go:17-19 | Two children of one name are the same child of the same Service. |
| ServiceAddr.ServiceNamesCollideIff | internal/controller/serviceaddr.go:27-29 | Two Services of one zone share a name exactly when name and namespace are the same text once joined by a hyphen. |
| ServiceAddr.HyphenatedServicesCollide | internal/controller/serviceaddr.go:27-29 | The whole colliding family. |
| ServiceAddr.ServiceNamesAreDistinct | internal/controller/serviceaddr.go:27-29 | Within one namespace, or among namespaces without hyphens, the name tells Services apart. |
| Hostnames.UnderIsTransitive | internal/controller/gateway_controller.go:685-687 | A name under a name under a domain is under the domain. |
| Hostnames.UnderDomainMeans | internal/controller/gateway_controller.go:685-687 | Under a domain: the domain itself, or something, a dot, and the domain. |
| Admission.MatchMeans | internal/controller/gateway_controller.go:735-744 | An exact listener hostname matches itself alone, a wildcard one exactly the names with at least one character before the dot, none matches everything. |
| Admission.PermitsMeans | internal/controller/gateway_controller.go:748-760 | Another namespace is let in only by All, the Gateway's own by everything but a selector or None. |
| Admission.GatewayProxyConfig | internal/controller/gateway_controller.go:82-97 | The first listener that terminates TLS with hostname and certificate decides, and is itself under the domain derived from it; none is chosen exactly when there is none. |
| Admission.ConfigurationIsUnique | internal/controller/gateway_controller.go:82-97 | A Gateway has one configuration. |
| Admission.MatchedIsUnderDomain | internal/controller/gateway_controller.go:669-698 | Whatever a listener under the domain matches is under the domain. |
| Admission.GatewayAdmitsRoute | internal/controller/gateway_controller.go:669-682 | Admitted exactly when one listener under the domain matches the hostname and permits the namespace; the separate domain check refuses nothing more. |
| Admission.AdmittedHostnames | internal/controller/gateway_controller.go:707-731 | Exactly the hostnames to translate, each once, all under the domain. |
| Admission.ListenerAttachedRoutes | internal/controller/gateway_controller.go:393-412 | Counts the routes that reference the Gateway, are permitted and match. |
| Admission.CountIsCardinality | internal/controller/gateway_controller.go:393-412 | The count is the number of listed routes that are attached. |
| Admission.CountedIffAttached | internal/controller/gateway_controller.go:393-412 | The count is positive exactly when some route is attached. |
| Admission.AdmissionAgreesWithStatus | internal/controller/gateway_controller.go:393-412 | A route has a hostname to translate exactly when it is attached to an under-domain listener that can give it one. |
| Admission.TranslatedIsCounted | internal/controller/gateway_controller.go:393-412 | Every translated route is counted on some under-domain listener. |
| RouteCompiler.RulePaths | internal/controller/gateway_controller.go:835-859 | Ok exactly for prefix matches only; then the distinct paths in first-seen order. |
| RouteCompiler.DistinctIsExact | internal/controller/gateway_controller.go:835-859 | The paths of a rule are exactly those of its matches, each once. |
| RouteCompiler.RuleBackends | internal/controller/gateway_controller.go:787-819 | A rule's refs are accepted exactly when free of filters, with matching weights and some traffic; otherwise the reason given is true. |
| RouteCompiler.CompileRule | internal/controller/gateway_controller.go:779-820 | One rule is accepted exactly when it is clean, and a rejection names a true fault. |
| RouteCompiler.CompileRules | internal/controller/gateway_controller.go:779-820 | All rules clean and their fan-out, or a true fault of some rule. |
| RouteCompiler.RouteBackends | internal/controller/gateway_controller.go:777-828 | Accepts exactly the translatable routes, returns their fan-out, and rejects with a true reason. |
| RouteCompiler.FanOutMembers | internal/controller/gateway_controller.go:789-814 | The backends are exactly the combinations of a rule's paths with its surviving refs. |
| RouteCompiler.MeaningPreserved | internal/controller/gateway_controller.go:777-859 | For every predicate on paths, the (service, port) pairs reachable through the backends are those of the non-zero-weight refs of rules with a satisfying match. |
| RouteLaws.FanOutCount | internal/controller/gateway_controller.go:789-814 | The output length is the sum over rules of distinct paths times surviving refs. |
| RouteLaws.DefaultsMean | internal/controller/gateway_controller.go:787-853 | The defaults: weight 1, a prefix match, the path /; only weight zero takes a ref out. |
| RouteLaws.ComparedIsEqual | internal/controller/gateway_controller.go:787-803 | Comparing each surviving weight with the one before compares them all. |
| RouteLaws.AcceptedExactlyWhenOk | internal/controller/gateway_controller.go:762-859 | For non-negative weights: accepted if and only if there is a rule, no filter, only prefix matches, one weight and some traffic per rule, and at most 64 combinations. |
| RouteLaws.AcceptanceIgnoresOrder | internal/controller/gateway_controller.go:762-859 | Acceptance and output length do not depend on the order of rules, matches and refs. |
| RouteLaws.CoveringPrefixIsUnique | internal/controller/gateway_controller.go:777-859 | A request path is matched, element by element, by at most one prefix of each length, so the longest is unique. |
| RouteLaws.SelectedByItself | internal/controller/gateway_controller.go:777-859 | Every valid path of the route that is not also given with a trailing slash is the longest match of some request a client can send: the one for that very path. |
| RouteLaws.SelectionPreservedIff | internal/controller/gateway_controller.go:777-859 | An accepted route with valid paths keeps longest-prefix, first-rule selection for every request a client can send exactly when no selectable shared path is contested. |
| RouteLaws.SelectionBroken | internal/controller/gateway_controller.go:777-859 | For every contested path, the path / included, the request for that very path is served by a ref that Gateway selection does not choose. |
| RouteLaws.DisjointRulesAreUncontested | internal/controller/gateway_controller.go:777-859 | Rules that share no path are uncontested. |
| ChildNames.SafeNameFits | internal/controller/gateway_controller.go:54-62 | Never over the cap, the identity within it, idempotent, and a cut name ends in a hex digit. |
| ChildNames.CutNamesStayApart | internal/controller/gateway_controller.go:54-62 | Two over-long names with different hashes stay apart. |
| ChildNames.SafeNamesCollideIff | internal/controller/gateway_controller.go:54-62 | Exactly when two different names become one: one fits and is what the other is cut to, or both are cut to one head and one hash. |
| ChildNames.CutNameIsShared | internal/controller/gateway_controller.go:54-62 | Every over-long name shares its safe name with another name. |
| ChildNames.RouteChildNameFits | internal/controller/gateway_controller.go:867-872 | At most 253 characters, ending in a hex digit. |
| ChildNames.RouteLabelFits | internal/controller/gateway_controller.go:67-69 | At most 63 characters, and the route's name when that fits. |
| ChildNames.RouteChildNameIsInjective | internal/controller/gateway_controller.go:867-872 | Injective on (route, hostname) for NUL-free routes and a hash without collision on the pairs compared. |
| ChildSets.Prune | internal/controller/gateway_controller.go:573-586 | Fails exactly when the list is not answered or the delete of an unwanted child is refused; without error exactly the owner's unwanted children go, with one nothing else is touched. |
| ChildSets.SyncIsExact | internal/controller/gateway_controller.go:503-523 | After a sync the children under the label value are exactly the wanted ones, and a second sync changes nothing. |
| ChildSets.OthersAreUntouched | internal/controller/gateway_controller.go:573-586 | Children under other label values and in other namespaces come through unchanged. |
| RouteChildren.ResolveGateway | internal/controller/gateway_controller.go:543-569 | Fails exactly when, before a Gateway of this controller is found, a read fails with anything but not-found; otherwise the first such Gateway, or none when there is none. |
| RouteChildren.RouteReconciler.ApplyAll | internal/controller/gateway_controller.go:503-520 | On success all wanted children are in place; in any case only the route's own label and names are written. |
| RouteChildren.RouteReconciler.Reconcile | internal/controller/gateway_controller.go:467-539 | A failed parent read touches nothing. Otherwise Gateway, configuration and hostnames are determined, failure is exactly a failed apply, prune or status update, no child is deleted unless all were applied, and without error the children are those hostnames' and no others. |
| RouteChildren.ExactlyOneChildPerHostname | internal/controller/gateway_controller.go:467-586 | Under the route's label value: exactly one child per hostname, with that domain, the Gateway's cluster and the backends; children under other label values and in other namespaces are as they were. |
| RouteChildren.ReferencesMeans | internal/controller/gateway_controller.go:645-656 | The status count and the parent lookup resolve a parentRef alike. |
| RouteChildren.TranslatedRouteIsCounted | internal/controller/gateway_controller.go:393-412 | A route that a reconcile translates is counted as attached to a listener under the domain of the Gateway it went by. |
| RouteChildren.SecondReconcileIsNoOp | internal/controller/gateway_controller.go:467-539 | Two error-free reconciles of the same route, rules and Gateways: the second changes nothing, in whatever order hostnames come out, and ends alike. |
| RouteChildren.RoutesSpareEachOtherIff | internal/controller/gateway_controller.go:573-586 | A reconcile of one route never touches another's children, whatever store and hostnames, exactly when they differ in namespace or in label value. |
| RouteChildren.LongNamesHaveATwin | internal/controller/gateway_controller.go:67-69 | Every route name over 63 characters has a twin of the same label value, named like that value. |
| RouteChildren.SharedLabelDeletesAll | internal/controller/gateway_controller.go:573-586 | A reconcile of such a twin that translates nothing deletes every child of the route. |
| RouteChildren.ShortNamesAreSeparate | internal/controller/gateway_controller.go:67-69 | Routes whose names fit a label differ in label value. |
| RouteChildren.WantedIgnoresOrder | internal/controller/gateway_controller.go:503-520 | The wanted children do not depend on the order of the hostnames. |
| RouteChildren.ReconcileKeepsMade | internal/controller/gateway_controller.go:467-539 | Whatever a reconcile has written, also one that failed half-way, was made for its route; stores that only reconciles wrote hold only such children. |
| SetupKeys.SetupKeyReconciler.UpToDate | internal/controller/setupkey_controller.go:69-121 | Is the recorded key still good, and its groups refreshed, as Check says. |
| SetupKeys.SetupKeyReconciler.Reconcile | internal/controller/setupkey_controller.go:41-180 | Check, create, record, store, delete old: the state after each failing call as ReconcileKey says. |
| SetupKeys.ReconcileKeepsSound | internal/controller/setupkey_controller.go:69-172 | A reconcile with any answers keeps the key behind the Secret in existence. |
| SetupKeys.SecretAlwaysWorks | internal/controller/setupkey_controller.go:69-172 | So over every run of reconciles, crashes, keys expiring or being revoked, and removals of the Secret. |
| SetupKeys.NeverDeletesTheHeldKey | internal/controller/setupkey_controller.go:122-172 | A key a reconcile deletes is the one recorded before, and the Secret then holds another, existing one. |
| SetupKeys.OneReconcileSettles | internal/controller/setupkey_controller.go:69-172 | From any state, one failure-free reconcile on a key that is not overused ends with the Secret agreeing with the recorded existing key (equal if new, same five characters if kept). |
| SetupKeys.RotatesIff | internal/controller/setupkey_controller.go:69-179 | A failure-free reconcile rotates exactly when nothing is recorded, the key is gone or not valid, or the Secret is missing or shows other first five characters; then the old key is gone, every other one stays, and the object is ready. |
| SetupKeys.OverusedIsLeftAlone | internal/controller/setupkey_controller.go:85-87 | An overused key is an error and left alone. |
| SetupKeys.UnclearAnswersRotateNothing | internal/controller/setupkey_controller.go:65-100 | No rotation follows an answer that leaves the key's state unclear. |
| SetupKeys.StepsComeInOrder | internal/controller/setupkey_controller.go:128-172 | For any answers: the id is recorded after the create, the Secret is written after that, and a key is deleted only once the Secret holds the new one. |
| SetupKeys.SuccessMeansEveryStep | internal/controller/setupkey_controller.go:111-179 | Success means the groups were refreshed or every step of a rotation was answered. |
| LoadBalancer.LbIngressAddresses | internal/controller/loadbalancer_controller.go:292-305 | The ingress IPs that parse, in order, with their family, as the next two rows say. |
| LoadBalancer.IngressMembers | internal/controller/loadbalancer_controller.go:292-305 | Exactly the non-empty entries that parse, each with its family. |
| LoadBalancer.IngressKeepsOrder | internal/controller/loadbalancer_controller.go:292-305 | In the order of the entries. |
| LoadBalancer.FirstOfEachFamily | internal/controller/reverseproxycluster_controller.go:509-524 | Exactly the first address of each family present, one per family, the first address of all in front; empty only for no address. |
| LoadBalancer.ResolveNetwork | internal/controller/loadbalancer_controller.go:190-201 | The first listed Network of the configured name. |
| LoadBalancer.LoadBalancerReconciler.PruneBoth | internal/controller/loadbalancer_controller.go:160-188 | Both kinds are pruned to the desired names, failing exactly when one of the prunes does; only the Service's children go. |
| LoadBalancer.LoadBalancerReconciler.Reconcile | internal/controller/loadbalancer_controller.go:66-151 | Exact outcome, failure included; error-free advertising leaves exactly the wanted children and opting out none; waiting changes nothing; no child is deleted unless all were applied; error or not, only the Service's own children are touched. |
| LoadBalancer.MostSpecificDecides | internal/controller/loadbalancer_controller.go:246-254 | The Service's annotation decides over the namespace's, and that over the default; only true means yes. |
| LoadBalancer.AdvertisedContents | internal/controller/loadbalancer_controller.go:106-146 | Field by field, for every family with an address: an enabled resource in the network and a record of the family's type in the zone, both for one listed address, under the Service's one name, for five minutes. |
| LoadBalancer.WantedPerFamily | internal/controller/loadbalancer_controller.go:106-146 | One wanted child per family with an address, for the latest address of the family. |
| LoadBalancer.LatestIsLast | internal/controller/loadbalancer_controller.go:106-146 | That address is the family's last; there is none exactly when the family is absent. |
| LoadBalancer.AdvertisedIsOnePerFamily | internal/controller/loadbalancer_controller.go:66-151 | After an error-free advertise the Service has exactly one child per family present, for its last address; advertising again changes nothing. |
| LoadBalancer.OptedOutHasNone | internal/controller/loadbalancer_controller.go:77-83 | Opted out, retyped or deleted: no children. |
| LoadBalancer.OthersAreKept | internal/controller/loadbalancer_controller.go:66-188 | Any reconcile, failed or not, leaves every other Service's children alone and keeps children named after their owners. |
| Renderer.BackendPort | internal/controller/reverseproxyservice_mirror.go:257-269 | The first port, the first declared port of the number asked for, or that number truncated to 32 bits without a name. |
| Renderer.PortForMeans | internal/controller/reverseproxyservice_mirror.go:257-269 | The first port when none is asked for, else the first declared of that number, else the number without a name. |
| Renderer.ToInt32Means | internal/controller/reverseproxyservice_mirror.go:260 | Kept when it fits 32 bits, wrapped around otherwise. |
| Renderer.HttpTargetMeans | internal/controller/reverseproxyservice_mirror.go:107-128 | An HTTP backend is dialed through the cluster's address, at the in-cluster or the advertised name by type of Service, on the port chosen, for the path asked for. |
| Renderer.HttpTargetFails | internal/controller/reverseproxyservice_mirror.go:229-252 | A missing Service, one without ports, or one not advertised yet waits; other errors are returned; otherwise it is rendered. |
| Renderer.L4RequestMeans | internal/controller/reverseproxyservice_mirror.go:65-141 | An L4 service is relayed to the picked resource over TCP or UDP by mode, with the PROXY protocol as asked except for udp, under a per-port domain for tcp and udp. |
| Renderer.L4RequestFails | internal/controller/reverseproxyservice_mirror.go:281-310 | Why it waits, and that a Service of another type is an error. |
| Renderer.PreferL4Resource | internal/controller/reverseproxyservice_mirror.go:315-324 | The pick is a listed resource and, unless addresses that do not parse and IPv6 ones are mixed, one over which none is preferred. |
| Renderer.MixedFamiliesAreUnordered | internal/controller/reverseproxyservice_mirror.go:315-324 | With that mixture the comparison is not a strict weak order: the input that shows it. |
| Renderer.PickIgnoresListing | internal/controller/reverseproxyservice_mirror.go:315-324 | Without that mixture the pick is the same for every order of listing, and IPv4 exactly when some resource is. |
| Renderer.ResolveL4Backend | internal/controller/reverseproxyservice_mirror.go:281-310 | Resource id and port, or the exact error, given the pick. |
| Renderer.Render | internal/controller/reverseproxyservice_mirror.go:49-151 | The request or the exact error in every mode: HTTP targets are a sorted permutation of the backends' targets, L4 takes at most one backend and gets its per-port domain. |
| Renderer.TargetsAreElementwise | internal/controller/reverseproxyservice_mirror.go:73-128 | Rendering succeeds exactly when every backend resolves, one target each. |
| Renderer.RenderingIgnoresOrderIff | internal/controller/reverseproxyservice_mirror.go:73-129 | The rendered targets are independent of backend order and of how ties are sorted exactly when no Service is reached on one port under two paths. |
| Targets.SortServiceTargets | internal/controller/reverseproxyservice_mirror.go:328-342 | A sorted permutation. |
| Targets.SortedMeans | internal/controller/reverseproxyservice_mirror.go:328-342 | Sorted: hosts never descend, nor do ports of one host. |
| Targets.StringLessMeans | internal/controller/reverseproxyservice_mirror.go:337-339 | Go's string order: equal up to a place where one ends or has the smaller byte. |
| Targets.SortedIsUnique | internal/controller/reverseproxyservice_mirror.go:328-342 | Without two different targets of one host and port there is only one sorted permutation. |
| Targets.OrderIsDeterminedIff | internal/controller/reverseproxyservice_mirror.go:328-342 | And exactly then. |
| PortDomains.PortLabelsCollideIff | internal/controller/reverseproxyservice_mirror.go:349-355 | Two per-port domains coincide exactly when the parents and the hyphen-joined first labels do. |
| PortDomains.PortsGetDistinctDomains | internal/controller/reverseproxyservice_mirror.go:349-355 | Ports of one host get different domains; ports of different hosts too when port names have no hyphen. |
| PortDomains.HyphenatedPortNamesCollide | internal/controller/reverseproxyservice_mirror.go:349-355 | With a hyphen two hosts share a domain: the whole family. |
| PortDomains.PortLabelKeepsParents | internal/controller/reverseproxyservice_mirror.go:349-355 | A per-port domain is strictly under exactly the domains its host is strictly under. |
| Backends.AdvertisedNameIsOne | internal/controller/reverseproxyservice_mirror.go:211-220 | An advertised Service's backend is dialed at the name all its records carry, whichever is listed first. |
| Backends.NotAdvertisedWaits | internal/controller/reverseproxyservice_mirror.go:211-220 | A Service that is not advertised keeps its backends waiting. |
| Backends.AdvertisedPickIsBest | internal/controller/reverseproxyservice_mirror.go:281-324 | An advertised Service's L4 target is the resource of its last IPv4 address, or of its last IPv6 one without IPv4, in whatever order resources are listed. |

## Left out

- ClusterUniqueness.AtMostOneRegistration: excludes a delete that has no effect and answers not-found, the one input that breaks it (FalseNotFoundDuplicates); AtMostOneRegistrationIff states the exact condition.
- ZoneRuns.RecordedZonesExist: zones deleted behind the operator's back are excluded from these runs (they are covered by the healing results), since no operator step can keep an id valid against them.
- SetupKeys.OneReconcileSettles: excludes overused keys, for which the code reports an error instead of rotating.
- SetupKeys.SecretAlwaysWorks: assumes that the server does not mint the same key material twice and that keys are not deleted out of band.
- Renderer.PreferL4Resource: promises only membership when addresses that do not parse are listed along with IPv6 ones, since the comparison is then not a strict weak order and the sort promises nothing. AdvertisedPickIsBest shows that the addresses of advertised resources parse.
- RouteChildren.ExactlyOneChildPerHostname: assumes NUL-free names and a hash without collisions on the pairs compared, and speaks of label values; RoutesSpareEachOtherIff says when that is the same as speaking of routes.
- ChildSets.Prune: a not-found answer to the delete of a child is taken as true; a Kubernetes API that denies an existing child is not modelled.
- RouteLaws.SelectionPreservedIff: takes paths as Gateway API validation lets them through: they start with a slash and have no empty element.
- Targets.SortServiceTargets: models `sort.Slice` as some sorted permutation; which one it leaves among ties is not modelled.
- Token, cluster and zone leaks: a stop between the creation of a token and the status patch mints again, an address change overwrites the recorded one, and a zone kept for a survivor that never adopts it stays behind.
- How the NetBird proxy matches: it is taken to serve from the backends with the longest path that matches the request element by element, as Gateway API does for path prefixes.
- Interference inside one reconcile (informer staleness, edits between two of its calls) and server-side apply field ownership.
- Server-side validation beyond what the functions rely on; it enters as non-empty cluster specs and non-negative weights.
- The delete closures of Network, NetworkResource and ReverseProxyService, and SetupKey deletion: one call each, covered by the generic finalizer protocol for every closure.
- The update-or-create of a rendered service, access groups, access restrictions and the private flag: the same pattern as the other kinds.
- Group and NetworkRouter controllers, Gateway and GatewayClass reconciles and status conditions, events, the pod webhook and ClusterProxy.
- Deployment, Service, Secret and record manifests of the proxy (`applyDeployment`, `applyService`, `applyRecords`) and the operator-owned DNSZone object of `ensureZone`: only their success or failure is modelled.
- Header, method and query matches and `parentRef.sectionName`: the code does not translate them.
- The parsing of the groups annotation, the 32-bit width of the attached-route count, and the mutex around the cache.
