/**
 * One reconciliation pass over an ingress (pkg/kubelego/configure.go):
 * the per-secret deduplication of TLS entries, the Reset/Process/Finalize
 * protocol over every registered provider, and the processing of the
 * surviving TLS entries.
 *
 * Providers and TLS entries are external, stateful collaborators. Every call
 * made to them goes through a `World`, which records the call and whether it
 * failed; the contracts below say exactly which calls a pass makes, in which
 * order, and which errors it returns.
 */
module Configure {

  // ---------------------------------------------------------------------------
  // Data model
  // ---------------------------------------------------------------------------

  /** A TLS entry of an ingress: the secret it targets, the ingress it comes from, its hosts. */
  datatype Tls = Tls(
    secretNamespace: string,
    secretName: string,
    ingressNamespace: string,
    ingressName: string,
    hosts: seq<string>)

  /**
   * The internal view of an ingress. `ignore`, `provider` and `tls` stand for
   * the results of `Ignore()`, `IngressProvider()` and `Tls()`, whose code is
   * not part of this model.
   */
  datatype Ingress = Ingress(
    namespace: string,
    name: string,
    ignore: bool,
    provider: string,
    tls: seq<Tls>)

  /** A call made to an external collaborator. */
  datatype Call =
    | Reset(provider: string)
    | ProviderProcess(provider: string, ing: Ingress)
    | Finalize(provider: string)
    | TlsProcess(tls: Tls)

  /** A call together with its outcome: `ok` is false when the call returned a non-nil error. */
  datatype Event = Event(call: Call, ok: bool)

  /** The error returned by a failed call. */
  datatype Err = Failed(call: Call)

  /** A Go `error` built by `utilerrors.NewAggregate`: nil, or the list of errors it aggregates. */
  datatype Status = Nil | Aggregate(errs: seq<Err>)

  /** `utilerrors.NewAggregate`: an empty list aggregates to nil. */
  function NewAggregate(errs: seq<Err>): (status: Status)
    ensures status == Nil <==> errs == []
    ensures status.Aggregate? ==> status.errs == errs
  {
    if errs == [] then Nil else Aggregate(errs)
  }

  /**
   * The external collaborators of a pass: the names of the registered
   * providers, and the record of every call made to a provider or to a TLS
   * entry. Whether a call fails is decided outside the model.
   */
  class World {
    const providers: set<string>
    var trace: seq<Event>

    constructor (providers: set<string>)
      ensures this.providers == providers && trace == []
    {
      this.providers := providers;
      trace := [];
    }

    /** Performs `c`; the outcome is arbitrary and is recorded with the call. */
    method Invoke(c: Call) returns (ok: bool)
      modifies this
      ensures trace == old(trace) + [Event(c, ok)]
    {
      ok := *;
      trace := trace + [Event(c, ok)];
    }
  }

  // ---------------------------------------------------------------------------
  // Calls and failures of a sequence of events
  // ---------------------------------------------------------------------------

  /** The calls of `events`, in order. */
  function CallsOf(events: seq<Event>): (calls: seq<Call>)
    ensures |calls| == |events|
  {
    if events == [] then [] else CallsOf(events[..|events| - 1]) + [events[|events| - 1].call]
  }

  /** The `i`-th call is the call of the `i`-th event. */
  lemma {:induction false} CallsOfIndex(events: seq<Event>, i: int)
    requires 0 <= i < |events|
    ensures CallsOf(events)[i] == events[i].call
  {
    if i < |events| - 1 {
      CallsOfIndex(events[..|events| - 1], i);
    }
  }

  /** The errors collected from `events`: one per failed call, in call order. */
  function Failures(events: seq<Event>): (errs: seq<Err>)
    ensures |errs| <= |events|
  {
    if events == [] then []
    else
      var e := events[|events| - 1];
      Failures(events[..|events| - 1]) + (if e.ok then [] else [Failed(e.call)])
  }

  /** No error is collected exactly when every call succeeded. */
  lemma {:induction false} NoFailuresIffAllOk(events: seq<Event>)
    ensures Failures(events) == [] <==> forall e | e in events :: e.ok
  {
    if events != [] {
      var init, last := events[..|events| - 1], events[|events| - 1];
      NoFailuresIffAllOk(init);
      assert events == init + [last];
    }
  }

  lemma {:induction false} CallsOfAppend(a: seq<Event>, b: seq<Event>)
    ensures CallsOf(a + b) == CallsOf(a) + CallsOf(b)
  {
    if b != [] {
      var init := b[..|b| - 1];
      CallsOfAppend(a, init);
      assert (a + b)[..|a + b| - 1] == a + init;
      assert (a + b)[|a + b| - 1] == b[|b| - 1];
      assert CallsOf(a + b) == CallsOf(a + init) + [b[|b| - 1].call];
      assert CallsOf(b) == CallsOf(init) + [b[|b| - 1].call];
    } else {
      assert a + b == a;
    }
  }

  lemma {:induction false} FailuresAppend(a: seq<Event>, b: seq<Event>)
    ensures Failures(a + b) == Failures(a) + Failures(b)
  {
    if b != [] {
      var init := b[..|b| - 1];
      FailuresAppend(a, init);
      var last := b[|b| - 1];
      assert (a + b)[..|a + b| - 1] == a + init;
      assert (a + b)[|a + b| - 1] == last;
      assert Failures(a + b) == Failures(a + init) + (if last.ok then [] else [Failed(last.call)]);
      assert Failures(b) == Failures(init) + (if last.ok then [] else [Failed(last.call)]);
    } else {
      assert a + b == a;
    }
  }

  /** The calls and failures of `events` extended by one event. */
  lemma Record(events: seq<Event>, e: Event)
    ensures CallsOf(events + [e]) == CallsOf(events) + [e.call]
    ensures Failures(events + [e]) == Failures(events) + (if e.ok then [] else [Failed(e.call)])
  {
    assert (events + [e])[..|events|] == events;
  }

  lemma {:induction false} FailuresAreFailedCalls(events: seq<Event>, err: Err)
    ensures err in Failures(events) <==> exists i | 0 <= i < |events| :: !events[i].ok && err == Failed(events[i].call)
  {
    if events != [] {
      var init := events[..|events| - 1];
      FailuresAreFailedCalls(init, err);
      if err in Failures(init) {
        var i :| 0 <= i < |init| && !init[i].ok && err == Failed(init[i].call);
        assert events[i] == init[i];
      }
      if exists i | 0 <= i < |events| :: !events[i].ok && err == Failed(events[i].call) {
        var i :| 0 <= i < |events| && !events[i].ok && err == Failed(events[i].call);
        if i < |init| {
          assert init[i] == events[i];
        }
      }
    }
  }

  // ---------------------------------------------------------------------------
  // TlsIgnoreDuplicatedSecrets
  // ---------------------------------------------------------------------------

  /** The grouping key of an entry: its secret's "namespace/name". */
  function SecretKey(t: Tls): string
  {
    t.secretNamespace + "/" + t.secretName
  }

  /** In a key whose namespace has no slash, the first slash sits right after the namespace. */
  lemma FirstSlash(t: Tls)
    requires '/' !in t.secretNamespace
    ensures |t.secretNamespace| < |SecretKey(t)| && SecretKey(t)[|t.secretNamespace|] == '/'
    ensures forall j | 0 <= j < |t.secretNamespace| :: SecretKey(t)[j] != '/'
    ensures SecretKey(t)[..|t.secretNamespace|] == t.secretNamespace
    ensures SecretKey(t)[|t.secretNamespace| + 1..] == t.secretName
  {
    forall j | 0 <= j < |t.secretNamespace|
      ensures SecretKey(t)[j] != '/'
    {
      assert SecretKey(t)[j] == t.secretNamespace[j];
    }
  }

  /**
   * Namespaces never contain a slash, so two entries share a key exactly
   * when they target the same secret.
   */
  lemma SecretKeyIdentifiesSecret(a: Tls, b: Tls)
    requires '/' !in a.secretNamespace && '/' !in b.secretNamespace
    ensures SecretKey(a) == SecretKey(b) <==>
      a.secretNamespace == b.secretNamespace && a.secretName == b.secretName
  {
    FirstSlash(a);
    FirstSlash(b);
  }

  /** The entries of `s` whose secret key is `k`, in order. */
  function WithKey(s: seq<Tls>, k: string): (r: seq<Tls>)
    ensures |r| <= |s|
    ensures forall t | t in r :: t in s && SecretKey(t) == k
  {
    if s == [] then []
    else WithKey(s[..|s| - 1], k) + (if SecretKey(s[|s| - 1]) == k then [s[|s| - 1]] else [])
  }

  /** How many entries of `s` target the secret `k`. */
  function KeyCount(s: seq<Tls>, k: string): nat
  {
    |WithKey(s, k)|
  }

  /** The secret keys that occur in `s`. */
  function SecretKeys(s: seq<Tls>): set<string>
  {
    set t | t in s :: SecretKey(t)
  }

  /** The entries of `s` whose key is in `keys` and occurs exactly once in `all`, in order. */
  function KeepUnique(all: seq<Tls>, s: seq<Tls>, keys: set<string>): seq<Tls>
  {
    if s == [] then []
    else
      var t := s[|s| - 1];
      KeepUnique(all, s[..|s| - 1], keys)
        + (if SecretKey(t) in keys && KeyCount(all, SecretKey(t)) == 1 then [t] else [])
  }

  /** The reference result of deduplication: the entries whose secret key occurs exactly once. */
  function Deduplicated(s: seq<Tls>): seq<Tls>
  {
    KeepUnique(s, s, SecretKeys(s))
  }

  lemma {:induction false} OccurrencesBounded(s: seq<Tls>, t: Tls)
    ensures multiset(s)[t] <= |s|
  {
    if s != [] {
      OccurrencesBounded(s[..|s| - 1], t);
      assert s == s[..|s| - 1] + [s[|s| - 1]];
    }
  }

  /** An entry occurs among the entries with key `k` as often as in `s` if its key is `k`, else never. */
  lemma {:induction false} WithKeyMultiplicity(s: seq<Tls>, k: string, t: Tls)
    ensures multiset(WithKey(s, k))[t] == if SecretKey(t) == k then multiset(s)[t] else 0
  {
    if s != [] {
      WithKeyMultiplicity(s[..|s| - 1], k, t);
      assert s == s[..|s| - 1] + [s[|s| - 1]];
    }
  }

  lemma {:induction false} KeepUniqueMultiplicity(all: seq<Tls>, s: seq<Tls>, keys: set<string>, t: Tls)
    ensures multiset(KeepUnique(all, s, keys))[t]
         == if SecretKey(t) in keys && KeyCount(all, SecretKey(t)) == 1 then multiset(s)[t] else 0
  {
    if s != [] {
      KeepUniqueMultiplicity(all, s[..|s| - 1], keys, t);
      assert s == s[..|s| - 1] + [s[|s| - 1]];
    }
  }

  /** An entry whose key occurs once occurs once. */
  lemma UniqueKeyUniqueEntry(s: seq<Tls>, t: Tls)
    requires KeyCount(s, SecretKey(t)) == 1
    ensures multiset(s)[t] <= 1
  {
    WithKeyMultiplicity(s, SecretKey(t), t);
    OccurrencesBounded(WithKey(s, SecretKey(t)), t);
  }

  /**
   * Each entry is kept exactly once when its secret key occurs once in the
   * input, and dropped otherwise.
   */
  lemma DeduplicatedMultiplicity(s: seq<Tls>, t: Tls)
    ensures multiset(Deduplicated(s))[t] == if t in s && KeyCount(s, SecretKey(t)) == 1 then 1 else 0
  {
    KeepUniqueMultiplicity(s, s, SecretKeys(s), t);
    if t in s && KeyCount(s, SecretKey(t)) == 1 {
      assert SecretKey(t) in SecretKeys(s);
      UniqueKeyUniqueEntry(s, t);
    }
  }

  /** An entry survives iff it is in the input and no other entry targets its secret. */
  lemma DeduplicatedMembership(s: seq<Tls>, t: Tls)
    ensures t in Deduplicated(s) <==> t in s && KeyCount(s, SecretKey(t)) == 1
  {
    DeduplicatedMultiplicity(s, t);
  }

  /** A secret targeted two or more times loses every one of its entries. */
  lemma DeduplicatedDropsAllShared(s: seq<Tls>, k: string)
    requires KeyCount(s, k) >= 2
    ensures KeyCount(Deduplicated(s), k) == 0
  {
    var d := Deduplicated(s);
    if WithKey(d, k) != [] {
      var t := WithKey(d, k)[0];
      DeduplicatedMembership(s, t);
    }
  }

  /** A secret targeted exactly once keeps its entry unchanged. */
  lemma DeduplicatedKeepsSingle(s: seq<Tls>, k: string)
    requires KeyCount(s, k) == 1
    ensures multiset(WithKey(Deduplicated(s), k)) == multiset(WithKey(s, k))
  {
    forall t
      ensures multiset(WithKey(Deduplicated(s), k))[t] == multiset(WithKey(s, k))[t]
    {
      DeduplicatedMultiplicity(s, t);
      WithKeyMultiplicity(Deduplicated(s), k, t);
      WithKeyMultiplicity(s, k, t);
      if SecretKey(t) == k {
        UniqueKeyUniqueEntry(s, t);
      }
    }
  }

  /** The deduplicated entries are a sub-multiset of the input. */
  lemma DeduplicatedSubMultiset(s: seq<Tls>)
    ensures multiset(Deduplicated(s)) <= multiset(s)
  {
    forall t | t in multiset(Deduplicated(s))
      ensures multiset(Deduplicated(s))[t] <= multiset(s)[t]
    {
      DeduplicatedMultiplicity(s, t);
    }
  }

  lemma TwoPositionsTwoOccurrences(s: seq<Tls>, i: int, j: int)
    requires 0 <= i < j < |s| && s[i] == s[j]
    ensures multiset(s)[s[i]] >= 2
  {
    assert s == s[..j] + s[j..];
    assert s[i] in s[..j];
    assert s[j] in s[j..];
  }

  /** No two deduplicated entries target the same secret. */
  lemma DeduplicatedDistinctKeys(s: seq<Tls>)
    ensures forall i, j | 0 <= i < j < |Deduplicated(s)| ::
      SecretKey(Deduplicated(s)[i]) != SecretKey(Deduplicated(s)[j])
  {
    var d := Deduplicated(s);
    forall i, j | 0 <= i < j < |d|
      ensures SecretKey(d[i]) != SecretKey(d[j])
    {
      if SecretKey(d[i]) == SecretKey(d[j]) {
        var k := SecretKey(d[i]);
        DeduplicatedMembership(s, d[i]);
        DeduplicatedMembership(s, d[j]);
        WithKeyMultiplicity(s, k, d[i]);
        WithKeyMultiplicity(s, k, d[j]);
        assert d[i] in WithKey(s, k) && d[j] in WithKey(s, k);
        assert d[i] == d[j];
        TwoPositionsTwoOccurrences(d, i, j);
        DeduplicatedMultiplicity(s, d[i]);
      }
    }
  }

  lemma KeyCountOfPermutation(a: seq<Tls>, b: seq<Tls>, k: string)
    requires multiset(a) == multiset(b)
    ensures KeyCount(a, k) == KeyCount(b, k)
  {
    forall t
      ensures multiset(WithKey(a, k))[t] == multiset(WithKey(b, k))[t]
    {
      WithKeyMultiplicity(a, k, t);
      WithKeyMultiplicity(b, k, t);
    }
    assert multiset(WithKey(a, k)) == multiset(WithKey(b, k));
    assert |multiset(WithKey(a, k))| == |multiset(WithKey(b, k))|;
  }

  /** Deduplication does not depend on the order of the input entries. */
  lemma DeduplicatedOrderIndependent(a: seq<Tls>, b: seq<Tls>)
    requires multiset(a) == multiset(b)
    ensures multiset(Deduplicated(a)) == multiset(Deduplicated(b))
  {
    forall t
      ensures multiset(Deduplicated(a))[t] == multiset(Deduplicated(b))[t]
    {
      DeduplicatedMultiplicity(a, t);
      DeduplicatedMultiplicity(b, t);
      KeyCountOfPermutation(a, b, SecretKey(t));
      assert t in a <==> t in multiset(a);
      assert t in b <==> t in multiset(b);
    }
  }

  /** A key that no entry carries selects nothing. */
  lemma KeyAbsent(s: seq<Tls>, k: string)
    requires forall t | t in s :: SecretKey(t) != k
    ensures WithKey(s, k) == []
  {
    if WithKey(s, k) != [] {
      assert WithKey(s, k)[0] in WithKey(s, k);
    }
  }

  /** A key that some entry carries selects at least that entry. */
  lemma KeyPresent(s: seq<Tls>, k: string)
    requires k in SecretKeys(s)
    ensures KeyCount(s, k) >= 1
  {
    var t :| t in s && SecretKey(t) == k;
    WithKeyMultiplicity(s, k, t);
  }

  lemma {:induction false} DistinctKeysCountAtMostOne(s: seq<Tls>, k: string)
    requires forall i, j | 0 <= i < j < |s| :: SecretKey(s[i]) != SecretKey(s[j])
    ensures KeyCount(s, k) <= 1
  {
    if s != [] {
      var init := s[..|s| - 1];
      DistinctKeysCountAtMostOne(init, k);
      if SecretKey(s[|s| - 1]) == k {
        forall t | t in init
          ensures SecretKey(t) != k
        {
          var i :| 0 <= i < |init| && init[i] == t;
          assert s[i] == t;
        }
        KeyAbsent(init, k);
      }
    }
  }

  /** When every entry targets its own secret, all entries pass through. */
  lemma DeduplicatedKeepsDistinct(s: seq<Tls>)
    requires forall i, j | 0 <= i < j < |s| :: SecretKey(s[i]) != SecretKey(s[j])
    ensures multiset(Deduplicated(s)) == multiset(s)
  {
    forall t
      ensures multiset(Deduplicated(s))[t] == multiset(s)[t]
    {
      DeduplicatedMultiplicity(s, t);
      if t in s {
        DistinctKeysCountAtMostOne(s, SecretKey(t));
        WithKeyMultiplicity(s, SecretKey(t), t);
        OccurrencesBounded(WithKey(s, SecretKey(t)), t);
      }
    }
  }

  lemma KeepUniqueAddKey(all: seq<Tls>, s: seq<Tls>, keys: set<string>, k: string)
    requires k !in keys
    ensures multiset(KeepUnique(all, s, keys + {k}))
         == multiset(KeepUnique(all, s, keys)) + multiset(if KeyCount(all, k) == 1 then WithKey(s, k) else [])
  {
    forall t
      ensures multiset(KeepUnique(all, s, keys + {k}))[t]
           == multiset(KeepUnique(all, s, keys))[t] + multiset(if KeyCount(all, k) == 1 then WithKey(s, k) else [])[t]
    {
      KeepUniqueMultiplicity(all, s, keys + {k}, t);
      KeepUniqueMultiplicity(all, s, keys, t);
      WithKeyMultiplicity(s, k, t);
    }
  }

  /** `bySecret` groups the first `i` entries of `s` by secret key, in order. */
  ghost predicate Grouped(s: seq<Tls>, i: nat, bySecret: map<string, seq<Tls>>)
    requires i <= |s|
  {
    bySecret.Keys == SecretKeys(s[..i])
    && forall k | k in bySecret :: bySecret[k] == WithKey(s[..i], k)
  }

  /** Once every entry is grouped, the map holds exactly the entries of each key of `s`. */
  lemma GroupedAll(s: seq<Tls>, bySecret: map<string, seq<Tls>>)
    requires Grouped(s, |s|, bySecret)
    ensures bySecret.Keys == SecretKeys(s)
    ensures forall k | k in bySecret :: bySecret[k] == WithKey(s, k)
  {
    assert s[..|s|] == s;
  }

  lemma WithKeySnoc(s: seq<Tls>, x: Tls, k: string)
    ensures WithKey(s + [x], k) == WithKey(s, k) + (if SecretKey(x) == k then [x] else [])
  {
    assert (s + [x])[..|s|] == s;
  }

  lemma GroupStep(s: seq<Tls>, i: nat, bySecret: map<string, seq<Tls>>)
    requires i < |s| && Grouped(s, i, bySecret)
    ensures var key := SecretKey(s[i]);
      Grouped(s, i + 1, bySecret[key := (if key in bySecret then bySecret[key] else []) + [s[i]]])
  {
    var key := SecretKey(s[i]);
    var next := bySecret[key := (if key in bySecret then bySecret[key] else []) + [s[i]]];
    assert s[..i + 1] == s[..i] + [s[i]];
    forall k | k in next
      ensures next[k] == WithKey(s[..i + 1], k)
    {
      WithKeySnoc(s[..i], s[i], k);
      if k == key && key !in bySecret {
        forall t | t in s[..i]
          ensures SecretKey(t) != key
        {
          assert SecretKey(t) in SecretKeys(s[..i]);
        }
        KeyAbsent(s[..i], key);
      }
    }
    assert SecretKeys(s[..i + 1]) == SecretKeys(s[..i]) + {key};
  }

  /**
   * The keys in `done` have been emitted: `output` holds their unique
   * entries, no two with the same key, and `warned` the keys among them
   * that occur more than once.
   */
  ghost predicate Emitted(s: seq<Tls>, done: set<string>, output: seq<Tls>, warned: set<string>)
  {
    multiset(output) == multiset(KeepUnique(s, s, done))
    && (forall j | 0 <= j < |output| :: SecretKey(output[j]) in done)
    && (forall j, l | 0 <= j < l < |output| :: SecretKey(output[j]) != SecretKey(output[l]))
    && (forall k :: k in warned <==> k in done && KeyCount(s, k) >= 2)
  }

  /** A key none of whose entries has been emitted yet, carried by a single entry, emits that entry. */
  lemma EmitSingle(s: seq<Tls>, done: set<string>, output: seq<Tls>, warned: set<string>, key: string)
    requires Emitted(s, done, output, warned) && key !in done && KeyCount(s, key) == 1
    ensures Emitted(s, done + {key}, output + WithKey(s, key), warned)
  {
    var slice := WithKey(s, key);
    var next := output + slice;
    KeepUniqueAddKey(s, s, done, key);
    assert slice[0] in slice;
    assert next[|output|] == slice[0];
    assert forall j | 0 <= j < |output| :: next[j] == output[j];
  }

  /** A key carried by two or more entries emits nothing and is warned about. */
  lemma EmitDrop(s: seq<Tls>, done: set<string>, output: seq<Tls>, warned: set<string>, key: string)
    requires Emitted(s, done, output, warned) && key !in done && KeyCount(s, key) >= 2
    ensures Emitted(s, done + {key}, output, warned + {key})
  {
    KeepUniqueAddKey(s, s, done, key);
  }

  /** One visit of the emitting loop: the group of `key` is emitted if it has one entry, warned about otherwise. */
  lemma EmitNext(s: seq<Tls>, bySecret: map<string, seq<Tls>>,
                 done: set<string>, output: seq<Tls>, warned: set<string>, key: string)
    requires Grouped(s, |s|, bySecret) && key in bySecret
    requires Emitted(s, done, output, warned) && key !in done
    ensures |bySecret[key]| == 1 ==> Emitted(s, done + {key}, output + bySecret[key], warned)
    ensures |bySecret[key]| != 1 ==> Emitted(s, done + {key}, output, warned + {key})
  {
    GroupedAll(s, bySecret);
    KeyPresent(s, key);
    if |bySecret[key]| == 1 {
      EmitSingle(s, done, output, warned, key);
    } else {
      EmitDrop(s, done, output, warned, key);
    }
  }

  /** Nothing is emitted before any key is visited. */
  lemma {:induction false} KeepUniqueNoKeys(all: seq<Tls>, s: seq<Tls>)
    ensures KeepUnique(all, s, {}) == []
  {
    if s != [] {
      KeepUniqueNoKeys(all, s[..|s| - 1]);
    }
  }

  lemma EmitDone(s: seq<Tls>, output: seq<Tls>, warned: set<string>)
    requires Emitted(s, SecretKeys(s), output, warned)
    ensures multiset(output) == multiset(Deduplicated(s))
    ensures forall k :: k in warned <==> KeyCount(s, k) >= 2
  {
    forall k | KeyCount(s, k) >= 2
      ensures k in SecretKeys(s)
    {
      assert WithKey(s, k)[0] in WithKey(s, k);
    }
  }

  /**
   * Groups the entries by secret key in a map and emits, in the map's
   * (unspecified) iteration order, the groups of exactly one entry; every
   * other key is warned about (`warned`) and its entries are dropped.
   */
  method TlsIgnoreDuplicatedSecrets(tlsSlice: seq<Tls>) returns (output: seq<Tls>, ghost warned: set<string>)
    ensures multiset(output) == multiset(Deduplicated(tlsSlice))
    ensures forall i, j | 0 <= i < j < |output| :: SecretKey(output[i]) != SecretKey(output[j])
    ensures forall k :: k in warned <==> KeyCount(tlsSlice, k) >= 2
  {
    var tlsBySecret: map<string, seq<Tls>> := map[];
    for i := 0 to |tlsSlice|
      invariant Grouped(tlsSlice, i, tlsBySecret)
    {
      var elm := tlsSlice[i];
      var key := elm.secretNamespace + "/" + elm.secretName;
      GroupStep(tlsSlice, i, tlsBySecret);
      tlsBySecret := tlsBySecret[key := (if key in tlsBySecret then tlsBySecret[key] else []) + [elm]];
    }
    output := [];
    warned := {};
    var remaining := tlsBySecret.Keys;
    ghost var done: set<string> := {};
    KeepUniqueNoKeys(tlsSlice, tlsSlice);
    while remaining != {}
      invariant remaining + done == tlsBySecret.Keys && remaining !! done
      invariant Emitted(tlsSlice, done, output, warned)
      decreases remaining
    {
      var key :| key in remaining;
      var slice := tlsBySecret[key];
      EmitNext(tlsSlice, tlsBySecret, done, output, warned, key);
      if |slice| == 1 {
        output := output + slice;
      } else {
        warned := warned + {key};
      }
      remaining := remaining - {key};
      done := done + {key};
    }
    GroupedAll(tlsSlice, tlsBySecret);
    EmitDone(tlsSlice, output, warned);
  }

  // ---------------------------------------------------------------------------
  // processProvider
  // ---------------------------------------------------------------------------

  /** No provider name occurs twice. */
  predicate Distinct(order: seq<string>)
  {
    forall i, j | 0 <= i < j < |order| :: order[i] != order[j]
  }

  /** `order` lists every element of `providers` exactly once: one iteration order of the registry. */
  ghost predicate IsOrdering(order: seq<string>, providers: set<string>)
  {
    Distinct(order) && forall p :: p in order <==> p in providers
  }

  /** The calls made on provider `p`: Reset, then Process if `p` is the ingress's provider, then Finalize. */
  function ProviderBlock(p: string, ing: Ingress): seq<Call>
  {
    [Reset(p)] + (if p == ing.provider then [ProviderProcess(p, ing)] else []) + [Finalize(p)]
  }

  /** The calls made on the providers, visited in `order`. */
  function ProviderCalls(order: seq<string>, ing: Ingress): seq<Call>
  {
    if order == [] then []
    else ProviderCalls(order[..|order| - 1], ing) + ProviderBlock(order[|order| - 1], ing)
  }

  /** A provider's block starts with Reset, ends with Finalize, and holds Process iff the provider is selected. */
  lemma ProviderBlockShape(p: string, ing: Ingress)
    ensures 2 <= |ProviderBlock(p, ing)| <= 3
    ensures ProviderBlock(p, ing)[0] == Reset(p)
    ensures ProviderBlock(p, ing)[|ProviderBlock(p, ing)| - 1] == Finalize(p)
    ensures ProviderProcess(p, ing) in ProviderBlock(p, ing) <==> p == ing.provider
  {
  }

  /** A pass over n providers makes between 2n and 3n calls: at most one Process beside each Reset and Finalize. */
  lemma {:induction false} ProviderCallsLength(order: seq<string>, ing: Ingress)
    ensures 2 * |order| <= |ProviderCalls(order, ing)| <= 3 * |order|
  {
    if order != [] {
      ProviderCallsLength(order[..|order| - 1], ing);
    }
  }

  lemma LastNotInInit(order: seq<string>)
    requires Distinct(order) && order != []
    ensures Distinct(order[..|order| - 1]) && order[|order| - 1] !in order[..|order| - 1]
  {
  }

  lemma SnocMembership(order: seq<string>, p: string)
    requires order != []
    ensures p in order <==> p in order[..|order| - 1] || p == order[|order| - 1]
  {
    assert order == order[..|order| - 1] + [order[|order| - 1]];
  }

  lemma ProviderCallsSnoc(order: seq<string>, p: string, ing: Ingress)
    ensures ProviderCalls(order + [p], ing) == ProviderCalls(order, ing) + ProviderBlock(p, ing)
  {
    assert (order + [p])[..|order|] == order;
  }

  lemma ProviderCallsSnocCount(order: seq<string>, ing: Ingress, c: Call)
    requires order != []
    ensures multiset(ProviderCalls(order, ing))[c]
         == multiset(ProviderCalls(order[..|order| - 1], ing))[c] + multiset(ProviderBlock(order[|order| - 1], ing))[c]
  {
  }

  lemma BlockCount(p: string, ing: Ingress, c: Call)
    ensures multiset(ProviderBlock(p, ing))[c]
         == (if c == Reset(p) then 1 else 0) + (if c == Finalize(p) then 1 else 0)
          + (if p == ing.provider && c == ProviderProcess(p, ing) then 1 else 0)
  {
  }

  /**
   * Over a visit of distinct providers, each visited provider is Reset once
   * and Finalized once, and only the ingress's own provider is asked to
   * Process it, once.
   */
  lemma {:induction false} ProviderCallCounts(order: seq<string>, ing: Ingress, p: string)
    requires Distinct(order)
    ensures multiset(ProviderCalls(order, ing))[Reset(p)] == if p in order then 1 else 0
    ensures multiset(ProviderCalls(order, ing))[Finalize(p)] == if p in order then 1 else 0
    ensures multiset(ProviderCalls(order, ing))[ProviderProcess(p, ing)]
         == if p in order && p == ing.provider then 1 else 0
  {
    if order != [] {
      var init := order[..|order| - 1];
      var last := order[|order| - 1];
      LastNotInInit(order);
      ProviderCallCounts(init, ing, p);
      SnocMembership(order, p);
      ProviderCallsSnocCount(order, ing, Reset(p));
      ProviderCallsSnocCount(order, ing, Finalize(p));
      ProviderCallsSnocCount(order, ing, ProviderProcess(p, ing));
      BlockCount(last, ing, Reset(p));
      BlockCount(last, ing, Finalize(p));
      BlockCount(last, ing, ProviderProcess(p, ing));
    }
  }

  /** A provider pass calls Process only for the ingress's own provider and never touches a TLS entry. */
  lemma {:induction false} ProviderCallsOnlySelected(order: seq<string>, ing: Ingress)
    ensures forall c | c in ProviderCalls(order, ing) ::
      !c.TlsProcess? && (c.ProviderProcess? ==> c == ProviderProcess(ing.provider, ing))
  {
    if order != [] {
      ProviderCallsOnlySelected(order[..|order| - 1], ing);
    }
  }

  /**
   * The body of the provider loop for one provider: Reset, Process when it
   * is the ingress's provider, Finalize; every failure is collected.
   */
  lemma BlockEvents(r: Event, mid: seq<Event>, f: Event)
    ensures CallsOf([r] + mid + [f]) == [r.call] + CallsOf(mid) + [f.call]
    ensures Failures([r] + mid + [f]) == Failures([r]) + Failures(mid) + Failures([f])
  {
    CallsOfAppend([r] + mid, [f]);
    CallsOfAppend([r], mid);
    FailuresAppend([r] + mid, [f]);
    FailuresAppend([r], mid);
  }

  method ProviderLifecycle(w: World, providerName: string, ing: Ingress)
    returns (errs: seq<Err>, ghost events: seq<Event>)
    modifies w
    ensures w.trace == old(w.trace) + events
    ensures CallsOf(events) == ProviderBlock(providerName, ing)
    ensures errs == Failures(events)
  {
    errs := [];
    var okReset := w.Invoke(Reset(providerName));
    if !okReset {
      errs := errs + [Failed(Reset(providerName))];
    }
    ghost var mid: seq<Event> := [];
    if providerName == ing.provider {
      var okProcess := w.Invoke(ProviderProcess(providerName, ing));
      mid := [Event(ProviderProcess(providerName, ing), okProcess)];
      if !okProcess {
        errs := errs + [Failed(ProviderProcess(providerName, ing))];
      }
    }
    var okFinalize := w.Invoke(Finalize(providerName));
    if !okFinalize {
      errs := errs + [Failed(Finalize(providerName))];
    }
    events := [Event(Reset(providerName), okReset)] + mid + [Event(Finalize(providerName), okFinalize)];
    BlockEvents(Event(Reset(providerName), okReset), mid, Event(Finalize(providerName), okFinalize));
  }

  /** Visiting one more provider extends the calls and failures of the pass by its block. */
  lemma ProviderStep(order: seq<string>, events: seq<Event>, p: string, block: seq<Event>, ing: Ingress)
    requires CallsOf(events) == ProviderCalls(order, ing)
    requires CallsOf(block) == ProviderBlock(p, ing)
    ensures CallsOf(events + block) == ProviderCalls(order + [p], ing)
    ensures Failures(events + block) == Failures(events) + Failures(block)
  {
    CallsOfAppend(events, block);
    FailuresAppend(events, block);
    ProviderCallsSnoc(order, p, ing);
  }

  lemma DistinctSnoc(order: seq<string>, p: string)
    requires Distinct(order) && p !in order
    ensures Distinct(order + [p])
  {
  }

  /**
   * Runs the lifecycle of every registered provider, in the registry's
   * iteration order, and aggregates every error; nothing stops the pass early.
   */
  method ProcessProvider(w: World, ing: Ingress) returns (err: Status, ghost order: seq<string>, ghost events: seq<Event>)
    modifies w
    ensures w.trace == old(w.trace) + events
    ensures IsOrdering(order, w.providers)
    ensures CallsOf(events) == ProviderCalls(order, ing)
    ensures err == NewAggregate(Failures(events))
  {
    var errs: seq<Err> := [];
    var remaining := w.providers;
    order, events := [], [];
    while remaining != {}
      invariant forall p :: p in w.providers <==> p in order || p in remaining
      invariant forall p | p in order :: p !in remaining
      invariant Distinct(order)
      invariant w.trace == old(w.trace) + events
      invariant CallsOf(events) == ProviderCalls(order, ing)
      invariant errs == Failures(events)
      decreases remaining
    {
      var providerName :| providerName in remaining;
      var providerErrs;
      ghost var block;
      providerErrs, block := ProviderLifecycle(w, providerName, ing);
      ProviderStep(order, events, providerName, block, ing);
      DistinctSnoc(order, providerName);
      errs := errs + providerErrs;
      events := events + block;
      order := order + [providerName];
      remaining := remaining - {providerName};
    }
    err := NewAggregate(errs);
  }

  // ---------------------------------------------------------------------------
  // TlsProcessHosts
  // ---------------------------------------------------------------------------

  /** One Process call per entry of `s`, in order. */
  function TlsCalls(s: seq<Tls>): (calls: seq<Call>)
    ensures |calls| == |s|
    ensures forall i | 0 <= i < |s| :: calls[i] == TlsProcess(s[i])
  {
    if s == [] then [] else TlsCalls(s[..|s| - 1]) + [TlsProcess(s[|s| - 1])]
  }

  /** Each entry is processed as many times as it occurs. */
  lemma {:induction false} TlsCallsMultiplicity(s: seq<Tls>, t: Tls)
    ensures multiset(TlsCalls(s))[TlsProcess(t)] == multiset(s)[t]
  {
    if s != [] {
      TlsCallsMultiplicity(s[..|s| - 1], t);
      assert s == s[..|s| - 1] + [s[|s| - 1]];
    }
  }

  lemma TlsCallsSnoc(s: seq<Tls>, t: Tls)
    ensures TlsCalls(s + [t]) == TlsCalls(s) + [TlsProcess(t)]
  {
    assert (s + [t])[..|s|] == s;
  }

  /** Calls Process on every entry, in order, and returns the errors of the failed calls, in order. */
  method TlsProcessHosts(w: World, tlsSlice: seq<Tls>) returns (errs: seq<Err>, ghost events: seq<Event>)
    modifies w
    ensures w.trace == old(w.trace) + events
    ensures CallsOf(events) == TlsCalls(tlsSlice)
    ensures errs == Failures(events)
  {
    errs := [];
    events := [];
    for i := 0 to |tlsSlice|
      invariant w.trace == old(w.trace) + events
      invariant CallsOf(events) == TlsCalls(tlsSlice[..i])
      invariant errs == Failures(events)
    {
      var tlsElem := tlsSlice[i];
      var ok := w.Invoke(TlsProcess(tlsElem));
      Record(events, Event(TlsProcess(tlsElem), ok));
      TlsCallsSnoc(tlsSlice[..i], tlsElem);
      assert tlsSlice[..i + 1] == tlsSlice[..i] + [tlsElem];
      events := events + [Event(TlsProcess(tlsElem), ok)];
      if !ok {
        errs := errs + [Failed(TlsProcess(tlsElem))];
      }
    }
    assert tlsSlice[..|tlsSlice|] == tlsSlice;
  }

  // ---------------------------------------------------------------------------
  // reconfigure
  // ---------------------------------------------------------------------------

  /**
   * What one reconfigure pass over `ing` may do: nothing for an ignored
   * ingress; otherwise the provider pass (`providerEvents`, providers visited
   * in `order`) and, only when none of its calls failed, one Process call
   * per deduplicated entry (`tlsEvents`, entries in the order `deduped`).
   * The result is the provider errors if there are any, else the TLS errors.
   */
  ghost predicate IsPass(
    providers: set<string>, ing: Ingress, order: seq<string>, deduped: seq<Tls>,
    providerEvents: seq<Event>, tlsEvents: seq<Event>, err: Status)
  {
    if ing.ignore then providerEvents == [] && tlsEvents == [] && err == Nil
    else
      IsOrdering(order, providers)
      && CallsOf(providerEvents) == ProviderCalls(order, ing)
      && if Failures(providerEvents) != [] then
           tlsEvents == [] && err == Aggregate(Failures(providerEvents))
         else
           multiset(deduped) == multiset(Deduplicated(ing.tls))
           && CallsOf(tlsEvents) == TlsCalls(deduped)
           && err == NewAggregate(Failures(tlsEvents))
  }

  /**
   * Reconciles one ingress: nothing if it is ignored; otherwise the provider
   * pass, returning its error at once if it failed, and then the processing
   * of the deduplicated TLS entries, aggregating their errors.
   */
  method Reconfigure(w: World, ing: Ingress)
    returns (err: Status, ghost order: seq<string>, ghost deduped: seq<Tls>,
             ghost providerEvents: seq<Event>, ghost tlsEvents: seq<Event>)
    modifies w
    ensures w.trace == old(w.trace) + providerEvents + tlsEvents
    ensures IsPass(w.providers, ing, order, deduped, providerEvents, tlsEvents, err)
  {
    order, deduped, providerEvents, tlsEvents := [], [], [], [];
    if ing.ignore {
      return Nil, order, deduped, providerEvents, tlsEvents;
    }
    err, order, providerEvents := ProcessProvider(w, ing);
    if err != Nil {
      return;
    }

    var tlsSlice;
    ghost var warned;
    tlsSlice, warned := TlsIgnoreDuplicatedSecrets(ing.tls);
    deduped := tlsSlice;

    var errs;
    errs, tlsEvents := TlsProcessHosts(w, tlsSlice);
    if |errs| > 0 {
      err := NewAggregate(errs);
      return;
    }
    err := Nil;
  }

  lemma NoTlsCallsInProviderPass(order: seq<string>, ing: Ingress, events: seq<Event>)
    requires CallsOf(events) == ProviderCalls(order, ing)
    ensures forall e | e in events :: !e.call.TlsProcess?
  {
    ProviderCallsOnlySelected(order, ing);
    forall e | e in events
      ensures !e.call.TlsProcess?
    {
      var i :| 0 <= i < |events| && events[i] == e;
      CallsOfIndex(events, i);
    }
  }

  lemma OnlyTlsCallsInTlsPass(deduped: seq<Tls>, events: seq<Event>)
    requires CallsOf(events) == TlsCalls(deduped)
    ensures forall e | e in events :: e.call.TlsProcess?
  {
    forall e | e in events
      ensures e.call.TlsProcess?
    {
      var i :| 0 <= i < |events| && events[i] == e;
      CallsOfIndex(events, i);
    }
  }

  /** A pass succeeds iff every call it made succeeded. */
  lemma PassSucceedsIffAllCallsSucceed(
    providers: set<string>, ing: Ingress, order: seq<string>, deduped: seq<Tls>,
    providerEvents: seq<Event>, tlsEvents: seq<Event>, err: Status)
    requires IsPass(providers, ing, order, deduped, providerEvents, tlsEvents, err)
    ensures err == Nil <==> forall e | e in providerEvents + tlsEvents :: e.ok
  {
    FailuresAppend(providerEvents, tlsEvents);
    NoFailuresIffAllOk(providerEvents + tlsEvents);
  }

  /** When a provider call fails, the pass makes no TLS Process call at all. */
  lemma PassSkipsTlsOnProviderFailure(
    providers: set<string>, ing: Ingress, order: seq<string>, deduped: seq<Tls>,
    providerEvents: seq<Event>, tlsEvents: seq<Event>, err: Status)
    requires IsPass(providers, ing, order, deduped, providerEvents, tlsEvents, err)
    ensures (exists e | e in providerEvents + tlsEvents :: !e.call.TlsProcess? && !e.ok)
        ==> forall e | e in providerEvents + tlsEvents :: !e.call.TlsProcess?
  {
    if !ing.ignore {
      NoTlsCallsInProviderPass(order, ing, providerEvents);
      NoFailuresIffAllOk(providerEvents);
      if Failures(providerEvents) == [] {
        OnlyTlsCallsInTlsPass(deduped, tlsEvents);
      }
    }
  }

  /**
   * When every provider call succeeded, each TLS entry is processed exactly
   * as many times as it occurs in the deduplicated entries.
   */
  lemma PassProcessesDeduplicated(
    providers: set<string>, ing: Ingress, order: seq<string>, deduped: seq<Tls>,
    providerEvents: seq<Event>, tlsEvents: seq<Event>, err: Status, t: Tls)
    requires IsPass(providers, ing, order, deduped, providerEvents, tlsEvents, err)
    requires !ing.ignore
    requires forall e | e in providerEvents :: e.ok
    ensures multiset(CallsOf(providerEvents + tlsEvents))[TlsProcess(t)] == multiset(Deduplicated(ing.tls))[t]
  {
    NoFailuresIffAllOk(providerEvents);
    CallsOfAppend(providerEvents, tlsEvents);
    ProviderCallsOnlySelected(order, ing);
    assert TlsProcess(t) !in CallsOf(providerEvents);
    TlsCallsMultiplicity(deduped, t);
  }
}
