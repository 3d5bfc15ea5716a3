/**
 * The event side of the controller (pkg/kubelego/watch.go): which ingress
 * events put a key on the work queue, what the worker does with one dequeued
 * item, and the forced resync of every ingress.
 *
 * The rate-limiting work queue of client-go is modelled only by the calls
 * made on it: a `WorkQueue` records every Add, AddRateLimited, Forget and
 * Done in order, and the contracts say exactly which calls each event or
 * outcome produces.
 */
module Watch {
  import opened Wrappers
  import Configure

  // ---------------------------------------------------------------------------
  // Annotations and anyDifferent
  // ---------------------------------------------------------------------------

  /** An ingress's annotation map: Go's nil map, or a map that is present (possibly empty). */
  datatype Annotations = NilMap | Present(entries: map<string, string>)

  /** Reading a Go map: a missing key reads as the empty string. */
  function Lookup(m: map<string, string>, k: string): string
  {
    if k in m then m[k] else ""
  }

  /**
   * The meaning of anyDifferent: a nil map on either side counts as a
   * difference (both sides nil included); otherwise some listed key reads
   * differently on the two sides.
   */
  predicate AnnotationsDiffer(left: Annotations, right: Annotations, keys: seq<string>)
  {
    left.NilMap? || right.NilMap?
    || exists i | 0 <= i < |keys| :: Lookup(left.entries, keys[i]) != Lookup(right.entries, keys[i])
  }

  /** Compares the listed keys of two annotation maps, returning at the first difference. */
  method AnyDifferent(left: Annotations, right: Annotations, keys: seq<string>) returns (r: bool)
    ensures left.NilMap? || right.NilMap? ==> r
    ensures left.Present? && right.Present? ==>
      (r <==> exists i | 0 <= i < |keys| :: Lookup(left.entries, keys[i]) != Lookup(right.entries, keys[i]))
    ensures r == AnnotationsDiffer(left, right, keys)
  {
    if (left.NilMap? && right.NilMap?)
      || (left.NilMap? && right.Present?)
      || (left.Present? && right.NilMap?)
    {
      return true;
    }
    for i := 0 to |keys|
      invariant forall j | 0 <= j < i :: Lookup(left.entries, keys[j]) == Lookup(right.entries, keys[j])
    {
      if Lookup(left.entries, keys[i]) != Lookup(right.entries, keys[i]) {
        return true;
      }
    }
    return false;
  }

  /** Two nil annotation maps count as different. */
  lemma BothNilDiffer(keys: seq<string>)
    ensures AnnotationsDiffer(NilMap, NilMap, keys)
  {
  }

  /** With both maps present and no key listed, nothing differs. */
  lemma NoKeysNoDifference(left: map<string, string>, right: map<string, string>)
    ensures !AnnotationsDiffer(Present(left), Present(right), [])
  {
  }

  /** The comparison does not depend on which side is old and which is new. */
  lemma AnnotationsDifferSymmetric(left: Annotations, right: Annotations, keys: seq<string>)
    ensures AnnotationsDiffer(left, right, keys) == AnnotationsDiffer(right, left, keys)
  {
    if left.Present? && right.Present? && AnnotationsDiffer(left, right, keys) {
      var i :| 0 <= i < |keys| && Lookup(left.entries, keys[i]) != Lookup(right.entries, keys[i]);
      assert Lookup(right.entries, keys[i]) != Lookup(left.entries, keys[i]);
    }
    if left.Present? && right.Present? && AnnotationsDiffer(right, left, keys) {
      var i :| 0 <= i < |keys| && Lookup(right.entries, keys[i]) != Lookup(left.entries, keys[i]);
      assert Lookup(left.entries, keys[i]) != Lookup(right.entries, keys[i]);
    }
  }

  /** Between present maps only the listed keys matter: keys outside the list may change freely. */
  lemma UnlistedKeysIgnored(left: map<string, string>, right: map<string, string>, keys: seq<string>)
    requires forall i | 0 <= i < |keys| :: Lookup(left, keys[i]) == Lookup(right, keys[i])
    ensures !AnnotationsDiffer(Present(left), Present(right), keys)
  {
  }

  /** A key present with the empty value reads like a missing key. */
  lemma EmptyValueReadsAsMissing(m: map<string, string>, k: string, keys: seq<string>)
    requires k !in m
    ensures !AnnotationsDiffer(Present(m), Present(m[k := ""]), keys)
  {
    forall i | 0 <= i < |keys|
      ensures Lookup(m, keys[i]) == Lookup(m[k := ""], keys[i])
    {
    }
  }

  // ---------------------------------------------------------------------------
  // Ingress objects and the work queue
  // ---------------------------------------------------------------------------

  const AnnotationIngressClass := "kubernetes.io/ingress.class"
  const AnnotationIngressProvider := "kubernetes.io/ingress.provider"
  const AnnotationKubeLegoManaged := "kubernetes.io/tls-acme"
  const AnnotationSslRedirect := "ingress.kubernetes.io/ssl-redirect"
  const AnnotationWhitelistSourceRange := "ingress.kubernetes.io/whitelist-source-range"

  /** The annotations whose change forces an updated ingress to be processed again. */
  const TrackedAnnotations: seq<string> := [
    AnnotationIngressClass,
    AnnotationIngressProvider,
    AnnotationKubeLegoManaged,
    AnnotationSslRedirect,
    AnnotationWhitelistSourceRange
  ]

  /** The five tracked annotations are distinct and include the ingress class. */
  lemma TrackedAnnotationsListed()
    ensures |TrackedAnnotations| == 5
    ensures forall i, j | 0 <= i < j < |TrackedAnnotations| :: TrackedAnnotations[i] != TrackedAnnotations[j]
    ensures TrackedAnnotations[0] == AnnotationIngressClass
  {
  }

  /** The result of computing an object's `namespace/name` queue key. */
  datatype KeyResult = Keyed(key: string) | KeyError(msg: string)

  /** The specification of an ingress, compared as a whole value. */
  datatype IngressSpec = IngressSpec(tls: seq<Configure.Tls>, rules: seq<string>, backend: string)

  /**
   * An ingress object as the informer delivers it. `ignored` stands for a
   * non-nil result of `ingress.IgnoreIngress`, and `key` for the result of
   * `cache.MetaNamespaceKeyFunc`.
   */
  datatype IngressObject = IngressObject(
    annotations: Annotations,
    spec: IngressSpec,
    ignored: bool,
    key: KeyResult)

  /** A work-queue item: the queue accepts any value, of which the worker expects a key string. */
  datatype Item = KeyItem(key: string) | Foreign(id: nat)

  /** A call made on the work queue. */
  datatype QueueCall =
    | AddCall(item: Item)
    | AddRateLimitedCall(item: Item)
    | ForgetCall(item: Item)
    | DoneCall(item: Item)

  /** The work queue, recorded as the calls made on it. */
  class WorkQueue {
    var calls: seq<QueueCall>

    constructor ()
      ensures calls == []
    {
      calls := [];
    }

    /** Queues `item` for processing now. */
    method Add(item: Item)
      modifies this
      ensures calls == old(calls) + [AddCall(item)]
    {
      calls := calls + [AddCall(item)];
    }

    /** Queues `item` once its rate limiter allows it. */
    method AddRateLimited(item: Item)
      modifies this
      ensures calls == old(calls) + [AddRateLimitedCall(item)]
    {
      calls := calls + [AddRateLimitedCall(item)];
    }

    /** Clears the rate limiter's failure history for `item`. */
    method Forget(item: Item)
      modifies this
      ensures calls == old(calls) + [ForgetCall(item)]
    {
      calls := calls + [ForgetCall(item)];
    }

    /** Marks the processing of `item` as finished. */
    method Done(item: Item)
      modifies this
      ensures calls == old(calls) + [DoneCall(item)]
    {
      calls := calls + [DoneCall(item)];
    }
  }

  // ---------------------------------------------------------------------------
  // Event handlers
  // ---------------------------------------------------------------------------

  /** The queue calls of the Add handler: an immediate Add of the key of a keyable, non-ignored ingress. */
  function OnAddCalls(obj: IngressObject): (calls: seq<QueueCall>)
    ensures !obj.ignored && obj.key.Keyed? ==> calls == [AddCall(KeyItem(obj.key.key))]
    ensures obj.ignored || obj.key.KeyError? ==> calls == []
  {
    if obj.ignored then []
    else match obj.key
      case KeyError(_) => []
      case Keyed(key) => [AddCall(KeyItem(key))]
  }

  /** The queue calls of the Delete handler: a Forget of the key of a keyable, non-ignored ingress. */
  function OnDeleteCalls(obj: IngressObject): (calls: seq<QueueCall>)
    ensures !obj.ignored && obj.key.Keyed? ==> calls == [ForgetCall(KeyItem(obj.key.key))]
    ensures obj.ignored || obj.key.KeyError? ==> calls == []
  {
    if obj.ignored then []
    else match obj.key
      case KeyError(_) => []
      case Keyed(key) => [ForgetCall(KeyItem(key))]
  }

  /**
   * The queue calls of the Update handler: an immediate Add of the new
   * object's key when its spec or a tracked annotation changed, unless the
   * new object is ignored or cannot be keyed.
   */
  function OnUpdateCalls(prev: IngressObject, cur: IngressObject): (calls: seq<QueueCall>)
    ensures calls != [] <==>
      (prev.spec != cur.spec || AnnotationsDiffer(prev.annotations, cur.annotations, TrackedAnnotations))
      && !cur.ignored && cur.key.Keyed?
    ensures calls != [] ==> calls == [AddCall(KeyItem(cur.key.key))]
  {
    var shouldForceProcess := AnnotationsDiffer(prev.annotations, cur.annotations, TrackedAnnotations);
    if prev.spec != cur.spec || shouldForceProcess then OnAddCalls(cur) else []
  }

  /** Handles a created ingress. */
  method OnAdd(q: WorkQueue, addIng: IngressObject)
    modifies q
    ensures q.calls == old(q.calls) + OnAddCalls(addIng)
  {
    if addIng.ignored {
      return;
    }
    match addIng.key {
      case KeyError(_) =>
        return;
      case Keyed(key) =>
        q.Add(KeyItem(key));
    }
  }

  /** Handles a deleted ingress: the key is forgotten, never queued. */
  method OnDelete(q: WorkQueue, delIng: IngressObject)
    modifies q
    ensures q.calls == old(q.calls) + OnDeleteCalls(delIng)
  {
    if delIng.ignored {
      return;
    }
    match delIng.key {
      case KeyError(_) =>
        return;
      case Keyed(key) =>
        q.Forget(KeyItem(key));
    }
  }

  /** Handles an updated ingress. */
  method OnUpdate(q: WorkQueue, oldIng: IngressObject, upIng: IngressObject)
    modifies q
    ensures q.calls == old(q.calls) + OnUpdateCalls(oldIng, upIng)
  {
    var shouldForceProcess := AnyDifferent(oldIng.annotations, upIng.annotations, TrackedAnnotations);
    if oldIng.spec != upIng.spec || shouldForceProcess {
      if upIng.ignored {
        return;
      }
      match upIng.key {
        case KeyError(_) =>
          return;
        case Keyed(key) =>
          q.Add(KeyItem(key));
      }
    }
  }

  /** A created ingress is never queued through the rate limiter. */
  lemma OnAddNeverRateLimited(obj: IngressObject)
    ensures forall c | c in OnAddCalls(obj) :: c.AddCall?
  {
  }

  /** A deleted ingress is never queued. */
  lemma OnDeleteNeverQueues(obj: IngressObject)
    ensures forall c | c in OnDeleteCalls(obj) :: c.ForgetCall?
  {
  }

  /**
   * With both annotation maps present, changing the ingress-class annotation
   * of a keyable, non-ignored ingress queues it at once.
   */
  lemma ClassChangeQueues(prev: IngressObject, cur: IngressObject)
    requires prev.annotations.Present? && cur.annotations.Present?
    requires Lookup(prev.annotations.entries, AnnotationIngressClass)
          != Lookup(cur.annotations.entries, AnnotationIngressClass)
    requires !cur.ignored && cur.key.Keyed?
    ensures OnUpdateCalls(prev, cur) == [AddCall(KeyItem(cur.key.key))]
  {
    TrackedAnnotationsListed();
  }

  /**
   * An update that leaves the spec and every tracked annotation as they
   * were (a metadata-only change, such as a new resource version) queues nothing.
   */
  lemma MetadataOnlyUpdateIsIgnored(prev: IngressObject, cur: IngressObject)
    requires prev.annotations.Present? && cur.annotations.Present?
    requires prev.spec == cur.spec
    requires forall k | k in TrackedAnnotations ::
      Lookup(prev.annotations.entries, k) == Lookup(cur.annotations.entries, k)
    ensures OnUpdateCalls(prev, cur) == []
  {
    UnlistedKeysIgnored(prev.annotations.entries, cur.annotations.entries, TrackedAnnotations);
  }

  /**
   * A non-ignored, keyable ingress without annotations, before and after, is
   * queued on every update, even when nothing about it changed: two nil maps count as a
   * difference.
   */
  lemma NilAnnotationsAlwaysQueue(prev: IngressObject, cur: IngressObject)
    requires prev.annotations.NilMap? && cur.annotations.NilMap?
    requires !cur.ignored && cur.key.Keyed?
    ensures OnUpdateCalls(prev, cur) == [AddCall(KeyItem(cur.key.key))]
  {
    BothNilDiffer(TrackedAnnotations);
  }

  /** Whether the old object was ignored or keyable plays no part in an update. */
  lemma OnUpdateIgnoresOldObjectFlags(prev: IngressObject, cur: IngressObject, ignored: bool, key: KeyResult)
    ensures OnUpdateCalls(prev, cur) == OnUpdateCalls(prev.(ignored := ignored, key := key), cur)
  {
  }

  // ---------------------------------------------------------------------------
  // Worker
  // ---------------------------------------------------------------------------

  /** How the processing of one dequeued item ended. */
  datatype Outcome =
    | InvalidItem              // the item is not a string
    | InvalidKey               // the key does not split into namespace and name
    | NoIngress                // no ingress exists under the key
    | Reconciled(err: Configure.Status)  // reconfigure ran and returned `err`

  /**
   * The queue calls that follow the processing of `item`: AddRateLimited of
   * the key when reconfigure failed, Forget otherwise; Done in every case.
   */
  function WorkerCalls(item: Item, outcome: Outcome): (calls: seq<QueueCall>)
    ensures |calls| == 2 && calls[1] == DoneCall(item)
    ensures calls[0] == AddRateLimitedCall(item) <==> outcome.Reconciled? && outcome.err != Configure.Nil
    ensures calls[0] != AddRateLimitedCall(item) <==> calls[0] == ForgetCall(item)
  {
    if outcome.Reconciled? && outcome.err != Configure.Nil then
      [AddRateLimitedCall(item), DoneCall(item)]
    else
      [ForgetCall(item), DoneCall(item)]
  }

  /**
   * Processes one dequeued item. `split` stands for
   * `cache.SplitMetaNamespaceKey` and `store` for the ingresses that exist,
   * by namespace and name. The queue receives the calls of `WorkerCalls`;
   * the providers and TLS entries receive the calls of one reconfigure pass
   * when the item names an existing ingress, and none otherwise.
   */
  method WorkerStep(
    q: WorkQueue, w: Configure.World, item: Item,
    split: string -> Option<(string, string)>,
    store: map<(string, string), Configure.Ingress>)
    returns (outcome: Outcome,
             ghost order: seq<string>, ghost deduped: seq<Configure.Tls>,
             ghost providerEvents: seq<Configure.Event>, ghost tlsEvents: seq<Configure.Event>)
    modifies q, w
    ensures q.calls == old(q.calls) + WorkerCalls(item, outcome)
    ensures outcome == InvalidItem <==> item.Foreign?
    ensures outcome == InvalidKey <==> item.KeyItem? && split(item.key).None?
    ensures outcome == NoIngress <==> item.KeyItem? && split(item.key).Some? && split(item.key).value !in store
    ensures outcome.Reconciled? ==>
      item.KeyItem? && split(item.key).Some? && split(item.key).value in store
      && w.trace == old(w.trace) + providerEvents + tlsEvents
      && Configure.IsPass(w.providers, store[split(item.key).value], order, deduped,
                          providerEvents, tlsEvents, outcome.err)
    ensures !outcome.Reconciled? ==> w.trace == old(w.trace)
  {
    order, deduped, providerEvents, tlsEvents := [], [], [], [];
    if item.Foreign? {
      q.Forget(item);
      q.Done(item);
      return InvalidItem, order, deduped, providerEvents, tlsEvents;
    }
    var key := item.key;
    var parts := split(key);
    if parts.None? {
      q.Forget(item);
      q.Done(item);
      return InvalidKey, order, deduped, providerEvents, tlsEvents;
    }
    if parts.value !in store {
      q.Forget(item);
      q.Done(item);
      return NoIngress, order, deduped, providerEvents, tlsEvents;
    }
    var ing := store[parts.value];
    var err;
    err, order, deduped, providerEvents, tlsEvents := Configure.Reconfigure(w, ing);
    outcome := Reconciled(err);
    if err != Configure.Nil {
      q.AddRateLimited(KeyItem(key));
      q.Done(item);
      return;
    }
    q.Forget(item);
    q.Done(item);
  }

  /** Every dequeued item is marked Done exactly once, as the last call of its step. */
  lemma WorkerDoneOnce(item: Item, outcome: Outcome)
    ensures multiset(WorkerCalls(item, outcome))[DoneCall(item)] == 1
    ensures WorkerCalls(item, outcome)[|WorkerCalls(item, outcome)| - 1] == DoneCall(item)
  {
  }

  /**
   * An item naming an existing ingress is requeued through the rate limiter
   * iff some provider or TLS call of its reconfigure pass failed; otherwise
   * it is forgotten.
   */
  lemma WorkerRequeuesIffPassFailed(
    item: Item, providers: set<string>, ing: Configure.Ingress, order: seq<string>, deduped: seq<Configure.Tls>,
    providerEvents: seq<Configure.Event>, tlsEvents: seq<Configure.Event>, err: Configure.Status)
    requires Configure.IsPass(providers, ing, order, deduped, providerEvents, tlsEvents, err)
    ensures WorkerCalls(item, Reconciled(err))[0] == AddRateLimitedCall(item)
        <==> exists e | e in providerEvents + tlsEvents :: !e.ok
    ensures WorkerCalls(item, Reconciled(err))[0] == ForgetCall(item)
        <==> forall e | e in providerEvents + tlsEvents :: e.ok
  {
    Configure.PassSucceedsIffAllCallsSucceed(providers, ing, order, deduped, providerEvents, tlsEvents, err);
  }

  /** An ignored ingress is always forgotten: its pass makes no call and cannot fail. */
  lemma WorkerForgetsIgnored(
    item: Item, providers: set<string>, ing: Configure.Ingress, order: seq<string>, deduped: seq<Configure.Tls>,
    providerEvents: seq<Configure.Event>, tlsEvents: seq<Configure.Event>, err: Configure.Status)
    requires Configure.IsPass(providers, ing, order, deduped, providerEvents, tlsEvents, err)
    requires ing.ignore
    ensures WorkerCalls(item, Reconciled(err)) == [ForgetCall(item), DoneCall(item)]
    ensures providerEvents == [] && tlsEvents == []
  {
  }

  // ---------------------------------------------------------------------------
  // requestReconfigure
  // ---------------------------------------------------------------------------

  /** The result of listing every ingress. */
  datatype ListResult = Listed(items: seq<IngressObject>) | ListFailed(msg: string)

  /** The keys of the leading ingresses of `items`, up to the first that cannot be keyed. */
  function LeadingKeys(items: seq<IngressObject>): (keys: seq<string>)
    ensures |keys| <= |items|
    ensures forall i | 0 <= i < |keys| :: items[i].key == Keyed(keys[i])
    ensures |keys| < |items| ==> items[|keys|].key.KeyError?
  {
    if items == [] then []
    else match items[0].key
      case KeyError(_) => []
      case Keyed(key) => [key] + LeadingKeys(items[1..])
  }

  /** One rate-limited Add per key, in order. */
  function RateLimitedAdds(keys: seq<string>): (calls: seq<QueueCall>)
    ensures |calls| == |keys|
    ensures forall i | 0 <= i < |keys| :: calls[i] == AddRateLimitedCall(KeyItem(keys[i]))
  {
    if keys == [] then [] else RateLimitedAdds(keys[..|keys| - 1]) + [AddRateLimitedCall(KeyItem(keys[|keys| - 1]))]
  }

  /**
   * Queues every ingress through the rate limiter, in list order. A failed
   * listing is returned at once; a key error is returned at the first
   * ingress that cannot be keyed, keeping the adds already made.
   */
  method RequestReconfigure(q: WorkQueue, all: ListResult) returns (err: Option<string>)
    modifies q
    ensures all.ListFailed? ==> err == Some(all.msg) && q.calls == old(q.calls)
    ensures all.Listed? ==>
      var keys := LeadingKeys(all.items);
      q.calls == old(q.calls) + RateLimitedAdds(keys)
      && (err == None <==> |keys| == |all.items|)
      && (err != None ==> err == Some(all.items[|keys|].key.msg))
  {
    if all.ListFailed? {
      return Some(all.msg);
    }
    var allIng := all.items;
    ghost var keys: seq<string> := [];
    for i := 0 to |allIng|
      invariant |LeadingKeys(allIng)| >= i
      invariant keys == LeadingKeys(allIng)[..i]
      invariant q.calls == old(q.calls) + RateLimitedAdds(keys)
    {
      match allIng[i].key {
        case KeyError(msg) =>
          KeyErrorEndsKeys(allIng, i);
          return Some(msg);
        case Keyed(key) =>
          LeadingKeysStep(allIng, i);
          RateLimitedAddsSnoc(keys, key);
          q.AddRateLimited(KeyItem(key));
          keys := keys + [key];
      }
    }
    assert LeadingKeys(allIng)[..|allIng|] == LeadingKeys(allIng);
    return None;
  }

  lemma RateLimitedAddsSnoc(keys: seq<string>, key: string)
    ensures RateLimitedAdds(keys + [key]) == RateLimitedAdds(keys) + [AddRateLimitedCall(KeyItem(key))]
  {
    assert (keys + [key])[..|keys|] == keys;
  }

  /** The `i`-th ingress, keyable and preceded by `i` keyable ones, contributes the `i`-th key. */
  lemma LeadingKeysStep(items: seq<IngressObject>, i: nat)
    requires i < |items| && |LeadingKeys(items)| >= i && items[i].key.Keyed?
    ensures |LeadingKeys(items)| > i
    ensures LeadingKeys(items)[..i + 1] == LeadingKeys(items)[..i] + [items[i].key.key]
  {
  }

  /** The `i`-th ingress, preceded by `i` keyable ones but not keyable itself, ends the keys. */
  lemma KeyErrorEndsKeys(items: seq<IngressObject>, i: nat)
    requires i < |items| && |LeadingKeys(items)| >= i && items[i].key.KeyError?
    ensures |LeadingKeys(items)| == i
    ensures LeadingKeys(items)[..i] == LeadingKeys(items)
  {
  }
}
