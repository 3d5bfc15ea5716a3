# kube-lego reconciliation core in Dafny

kube-lego watches Kubernetes ingresses and keeps their TLS certificates
issued. This project models its reconciliation core:

- **configure** (`configure.dfy`, module `Configure`): one reconcile pass
  over an ingress. The TLS entries are deduplicated by target secret. Every
  registered ingress provider is driven through Reset / Process-if-selected
  / Finalize. The surviving TLS entries are then processed and the errors
  aggregated.
- **watch** (`watch.dfy`, module `Watch`): the annotation diff
  `anyDifferent`, the Add / Delete / Update event handlers, the worker's
  handling of one dequeued item, and the forced resync `requestReconfigure`.
- `wrappers.dfy` holds the `Option` type.

Providers and TLS entries are stateful collaborators whose code is not part
of this model. Every call made to one goes through `Configure.World.Invoke`.
`Invoke` records the call in `trace` together with an arbitrary
success/failure outcome. A failed call contributes the error `Failed(call)`.
`NewAggregate` of an empty list is nil, as in `utilerrors.NewAggregate`.
The contracts state exactly which calls a pass makes, in which order, and
which errors it returns, whatever the outcomes are.

Go map iteration has no fixed order. The provider registry and the
`tlsBySecret` map are therefore iterated by choosing any remaining key
(`:|`). The order actually taken is returned as a ghost value (`order`).
The deduplicated output is specified up to a permutation, against the
reference function `Deduplicated`: the entries whose secret key
(`namespace/name`) occurs exactly once in the input.

The work queue of client-go is modelled as `Watch.WorkQueue`. It records the
calls made on it (Add, AddRateLimited, Forget, Done). Each handler is a
method proved equal to a pure decision function (`OnAddCalls`,
`OnDeleteCalls`, `OnUpdateCalls`, `WorkerCalls`). The worker step calls the
modelled `Configure.Reconfigure`, so its contract ties the requeue decision
to the outcomes of the provider and TLS calls.

`reconfigure` does not aggregate provider and TLS errors together: on a
provider error it returns that error at once and makes no TLS call
(pkg/kubelego/configure.go:84-87). `anyDifferent` returns true when both
annotation maps are nil, although its own comment
(pkg/kubelego/watch.go:197-198) speaks only of one side being nil. The model
keeps the code's behaviour (`Watch.NilAnnotationsAlwaysQueue`): a
non-ignored, keyable ingress whose annotation maps are nil before and after
is queued on every update.

## Model

| member | source | states |
|---|---|---|
| Configure.NewAggregate | pkg/kubelego/configure.go:76 | the assumed behaviour of `utilerrors.NewAggregate`, whose code is not part of this model: no errors aggregate to nil, some errors to an aggregate of exactly those errors (also used at line 97) |
| Configure.World.Invoke | pkg/kubelego/configure.go:59-71 | a collaborator call is recorded once, with its outcome, after all earlier calls |
| Configure.NoFailuresIffAllOk | pkg/kubelego/configure.go:57-76 | no error is collected exactly when every call succeeded |
| Configure.FailuresAreFailedCalls | pkg/kubelego/configure.go:59-74 | an error is collected iff some call failed with it |
| Configure.FailuresAppend | pkg/kubelego/configure.go:57-75 | the errors of consecutive calls accumulate in call order; nothing is dropped |
| Configure.SecretKeyIdentifiesSecret | pkg/kubelego/configure.go:16-20 | for namespaces without a slash, two entries get the same `namespace/name` key exactly when they target the same secret |
| Configure.FirstSlash | pkg/kubelego/configure.go:16-20 | for a namespace without a slash, the key is the namespace, a slash, then the name, and its first slash ends the namespace |
| Configure.WithKey | pkg/kubelego/configure.go:13-25 | a group holds only input entries carrying its secret key, and no more entries than the input |
| Configure.WithKeyMultiplicity | pkg/kubelego/configure.go:15-25 | a group holds every input entry carrying its key exactly as often as the input does, and no other entry |
| Configure.DeduplicatedMultiplicity | pkg/kubelego/configure.go:13-32 | an entry is kept exactly once if its secret key occurs once in the input, and dropped otherwise |
| Configure.DeduplicatedMembership | pkg/kubelego/configure.go:28-32 | an entry survives iff it is in the input and no other entry targets its secret |
| Configure.DeduplicatedDropsAllShared | pkg/kubelego/configure.go:28-51 | a secret targeted two or more times loses all of its entries, not all but one |
| Configure.DeduplicatedKeepsSingle | pkg/kubelego/configure.go:28-31 | a secret targeted once keeps its single entry unchanged |
| Configure.DeduplicatedSubMultiset | pkg/kubelego/configure.go:27-53 | the output is a sub-multiset of the input |
| Configure.DeduplicatedDistinctKeys | pkg/kubelego/configure.go:27-53 | no two output entries share a secret key |
| Configure.DeduplicatedOrderIndependent | pkg/kubelego/configure.go:13-28 | reordering the input does not change the output multiset |
| Configure.DeduplicatedKeepsDistinct | pkg/kubelego/configure.go:13-32 | when every entry targets its own secret, every entry passes through |
| Configure.DistinctKeysCountAtMostOne | pkg/kubelego/configure.go:21-29 | in a list without shared secrets every group has at most one entry |
| Configure.TlsIgnoreDuplicatedSecrets | pkg/kubelego/configure.go:11-54 | the output is a permutation of the deduplicated input with pairwise distinct secret keys; exactly the keys used two or more times are warned about |
| Configure.ProviderBlockShape | pkg/kubelego/configure.go:59-74 | a provider's calls start with Reset, end with Finalize, and include Process iff it is the ingress's provider |
| Configure.ProviderCallsLength | pkg/kubelego/configure.go:58-75 | a pass over n providers makes between 2n and 3n calls |
| Configure.ProviderCallCounts | pkg/kubelego/configure.go:58-75 | every registered provider is Reset once and Finalized once; only the ingress's provider is asked to Process it, once |
| Configure.ProviderCallsOnlySelected | pkg/kubelego/configure.go:64-69 | a provider pass processes the ingress only with its own provider and calls no TLS entry |
| Configure.NoTlsCallsInProviderPass | pkg/kubelego/configure.go:56-77 | no call of a provider pass is a TLS Process call |
| Configure.ProviderLifecycle | pkg/kubelego/configure.go:59-74 | one provider is driven through Reset, Process only if it is the ingress's provider, then Finalize, collecting each failure |
| Configure.ProcessProvider | pkg/kubelego/configure.go:56-77 | every registered provider is visited once in some order, no failure stops the pass, and the result aggregates exactly the failures of its calls |
| Configure.TlsCalls | pkg/kubelego/configure.go:107-112 | one Process call per entry, in input order |
| Configure.TlsCallsMultiplicity | pkg/kubelego/configure.go:105-114 | each entry is processed as many times as it occurs |
| Configure.TlsProcessHosts | pkg/kubelego/configure.go:105-114 | Process is called once per entry in order; the result is the failures in call order |
| Configure.Reconfigure | pkg/kubelego/configure.go:79-103 | an ignored ingress makes no call and succeeds; a failed provider pass is returned before any TLS call; otherwise exactly the deduplicated entries are processed and their failures aggregated |
| Configure.PassSucceedsIffAllCallsSucceed | pkg/kubelego/configure.go:84-102 | a pass returns nil iff every provider and TLS call it made succeeded |
| Configure.PassSkipsTlsOnProviderFailure | pkg/kubelego/configure.go:84-87 | when a provider call fails, the pass makes no TLS Process call |
| Configure.PassProcessesDeduplicated | pkg/kubelego/configure.go:89-95 | for a non-ignored ingress whose provider calls all succeeded, each TLS entry is processed as often as it occurs in the deduplicated entries |
| Watch.TrackedAnnotationsListed | pkg/kubelego/watch.go:152-157 | the update check compares the five listed annotations, the ingress class first |
| Watch.AnyDifferent | pkg/kubelego/watch.go:196-210 | true whenever either map is nil, both nil included; with both present, true iff some listed key reads differently |
| Watch.BothNilDiffer | pkg/kubelego/watch.go:199-203 | two nil maps count as different |
| Watch.NoKeysNoDifference | pkg/kubelego/watch.go:204-209 | with both maps present and no key listed, nothing differs |
| Watch.AnnotationsDifferSymmetric | pkg/kubelego/watch.go:196-210 | the comparison is symmetric in its two maps |
| Watch.UnlistedKeysIgnored | pkg/kubelego/watch.go:204-209 | present maps that agree on every listed key do not differ, whatever their other keys |
| Watch.EmptyValueReadsAsMissing | pkg/kubelego/watch.go:205 | adding a key with the empty value is not a difference |
| Watch.WorkQueue.Add | pkg/kubelego/watch.go:128 | an immediate Add is recorded after all earlier queue calls |
| Watch.WorkQueue.AddRateLimited | pkg/kubelego/watch.go:42 | a rate-limited Add is recorded after all earlier queue calls |
| Watch.WorkQueue.Forget | pkg/kubelego/watch.go:145 | a Forget is recorded after all earlier queue calls |
| Watch.WorkQueue.Done | pkg/kubelego/watch.go:66 | a Done is recorded after all earlier queue calls |
| Watch.OnAddCalls | pkg/kubelego/watch.go:114-130 | a created ingress is added at once iff it is not ignored and can be keyed; otherwise nothing happens |
| Watch.OnAdd | pkg/kubelego/watch.go:114-130 | the Add handler makes exactly the queue calls of `OnAddCalls` |
| Watch.OnAddNeverRateLimited | pkg/kubelego/watch.go:124-128 | a created ingress is never queued through the rate limiter |
| Watch.OnDeleteCalls | pkg/kubelego/watch.go:131-147 | a deleted ingress is forgotten iff it is not ignored and can be keyed; otherwise nothing happens |
| Watch.OnDelete | pkg/kubelego/watch.go:131-147 | the Delete handler makes exactly the queue calls of `OnDeleteCalls` |
| Watch.OnDeleteNeverQueues | pkg/kubelego/watch.go:141-145 | a deleted ingress is never queued, only forgotten |
| Watch.OnUpdateCalls | pkg/kubelego/watch.go:148-178 | an update adds the new key at once iff the spec or a tracked annotation changed, the new object is not ignored and its key is computable; otherwise no call |
| Watch.OnUpdate | pkg/kubelego/watch.go:148-178 | the Update handler makes exactly the queue calls of `OnUpdateCalls` |
| Watch.ClassChangeQueues | pkg/kubelego/watch.go:152-176 | with both annotation maps present, changing the ingress-class annotation queues the ingress at once when the new object is not ignored and its key is computable |
| Watch.MetadataOnlyUpdateIsIgnored | pkg/kubelego/watch.go:159-177 | with both annotation maps present, an update that keeps the spec and every tracked annotation queues nothing |
| Watch.NilAnnotationsAlwaysQueue | pkg/kubelego/watch.go:152-162 | a non-ignored, keyable ingress whose annotation maps are nil before and after is queued on every update |
| Watch.OnUpdateIgnoresOldObjectFlags | pkg/kubelego/watch.go:162-168 | only the new object's ignore flag and key decide an update |
| Watch.WorkerCalls | pkg/kubelego/watch.go:65-102 | after each item: AddRateLimited of the key iff reconfigure failed, Forget otherwise, and Done last |
| Watch.WorkerStep | pkg/kubelego/watch.go:65-102 | a non-string item, an unsplittable key or a missing ingress is forgotten without any provider call; otherwise one reconfigure pass runs and decides between requeue and Forget |
| Watch.WorkerDoneOnce | pkg/kubelego/watch.go:66 | each dequeued item is marked Done exactly once, as its last queue call |
| Watch.WorkerRequeuesIffPassFailed | pkg/kubelego/watch.go:90-101 | an item is requeued iff some call of its pass failed, and forgotten iff all succeeded |
| Watch.WorkerForgetsIgnored | pkg/kubelego/watch.go:90-101 | an item whose ingress is ignored is forgotten and makes no provider or TLS call |
| Watch.LeadingKeys | pkg/kubelego/watch.go:37-43 | the keys of the ingresses before the first one that cannot be keyed, in list order |
| Watch.RateLimitedAdds | pkg/kubelego/watch.go:37-43 | one rate-limited Add per key, in order |
| Watch.RequestReconfigure | pkg/kubelego/watch.go:32-45 | a failed listing is returned with no queue call; otherwise each ingress is added rate-limited in list order, stopping with the error of the first unkeyable one and keeping earlier adds; nil iff all were keyed |

## Left out

- The collaborators' code is not part of this model: providers' Reset, Process and Finalize, `Tls.Process` (certificate validity, `newCertNeeded`, ACME), `ingress.IgnoreIngress`, `Ignore()`, `IngressProvider()`, `Tls()`, `ingress.New`, `ingress.All`, `cache.MetaNamespaceKeyFunc` and `cache.SplitMetaNamespaceKey`. They appear as arbitrary call outcomes, fields of `Ingress` / `IngressObject`, a key-split function parameter, a map of existing ingresses and a listing result.
- Errors are modelled by the call that failed (`Failed(call)`), not by the error values the collaborators return. Two failures of the same call are therefore indistinguishable.
- pkg/kubelego_const is not part of this model. The strings of the five tracked annotation names are assumed; no proof depends on them beyond their being distinct.
- `reflect.DeepEqual` on the ingress spec is modelled as equality of an `IngressSpec` value. DeepEqual tells a nil slice from an empty one; the `seq` fields of `IngressSpec` do not, so an update that only turns a nil list into an empty one is not modelled as a spec change.
- Watch.OnAdd, Watch.OnDelete, Watch.OnUpdate: the handlers take an `IngressObject`, so the type assertions to `*Ingress` (pkg/kubelego/watch.go:115, 132, 149-150) are assumed to succeed. The panic on any other payload, such as a delete tombstone, is not modelled.
- The internals of client-go's rate-limiting queue are not modelled (pkg/kubelego/watch.go:49): coalescing of duplicate keys, the exponential backoff between 10 minutes and 24 hours, `Get` and `ShutDown`. Only the calls the code makes on the queue are recorded.
- The informer, list/watch functions, the controller goroutine, the shutdown goroutine and the wait group (pkg/kubelego/watch.go:19-29, 52-63, 181-191) are concurrency and I/O plumbing and are not modelled. `WorkerStep` models one iteration of the worker loop.
- Log output (warnings, errors, debug lines) is left out. For `TlsIgnoreDuplicatedSecrets` a ghost set records the secret keys that are warned about, but not the text of the warning.
- Configure.TlsIgnoreDuplicatedSecrets: the output is specified up to a permutation, because its order comes from Go's map iteration.
- Configure.ProcessProvider: the order in which providers are visited is any order of the registry, returned as a ghost value, because it comes from Go's map iteration.
- pkg/utils/useragent_roundtripper.go is not part of this model: it only adds an HTTP header.
