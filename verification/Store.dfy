/**
 The tenant store: one bucket per tenant, its keys kept in byte order. Bucket keys are
 strings whose characters stand for bytes. The prefix scan seeks the first key not below
 the prefix and stops at the first key without it.
 */
module Store {

  // ----- byte-lexicographic order

  predicate Leq(a: string, b: string) {
    if a == [] then true
    else if b == [] then false
    else a[0] < b[0] || (a[0] == b[0] && Leq(a[1..], b[1..]))
  }

  /** The order, place by place: one is a prefix of the other, or smaller where they first differ. */
  lemma {:induction false} LeqIsLexicographic(a: string, b: string)
    ensures Leq(a, b) <==> a <= b || exists n :: 0 <= n < |a| && n < |b| && a[..n] == b[..n] && a[n] < b[n]
  {
    if a != [] && b != [] && a[0] == b[0] {
      LeqIsLexicographic(a[1..], b[1..]);
      assert a == [a[0]] + a[1..] && b == [b[0]] + b[1..];
      if n :| 0 <= n < |a[1..]| && n < |b[1..]| && a[1..][..n] == b[1..][..n] && a[1..][n] < b[1..][n] {
        assert a[..n + 1] == [a[0]] + a[1..][..n] && b[..n + 1] == [b[0]] + b[1..][..n];
        assert a[n + 1] < b[n + 1];
      }
      if n :| 0 <= n < |a| && n < |b| && a[..n] == b[..n] && a[n] < b[n] {
        assert a[1..][..n - 1] == a[..n][1..] && b[1..][..n - 1] == b[..n][1..];
        assert a[1..][n - 1] < b[1..][n - 1];
      }
    } else if a != [] && b != [] {
      assert a[..0] == b[..0];
      forall n | 0 < n <= |a| && n <= |b| ensures a[..n] != b[..n] {
        DifferentStart(a, b, n);
      }
    }
  }

  lemma DifferentStart(a: string, b: string, n: nat)
    requires 0 < n <= |a| && n <= |b| && a[0] != b[0]
    ensures a[..n] != b[..n]
  {
    assert a[..n][0] == a[0] && b[..n][0] == b[0];
  }

  lemma LeqTotal(a: string, b: string)
    ensures Leq(a, b) || Leq(b, a)
  {
  }

  lemma {:induction false} LeqAntisymmetric(a: string, b: string)
    requires Leq(a, b) && Leq(b, a)
    ensures a == b
  {
    if a != [] {
      LeqAntisymmetric(a[1..], b[1..]);
      assert a == [a[0]] + a[1..] && b == [b[0]] + b[1..];
    }
  }

  lemma {:induction false} LeqTransitive(a: string, b: string, c: string)
    requires Leq(a, b) && Leq(b, c)
    ensures Leq(a, c)
  {
    if a != [] && a[0] == b[0] == c[0] {
      LeqTransitive(a[1..], b[1..], c[1..]);
    }
  }

  lemma {:induction false} LeqReflexive(a: string)
    ensures Leq(a, a)
  {
    if a != [] { LeqReflexive(a[1..]); }
  }

  lemma {:induction false} PrefixIsBelow(p: string, k: string)
    requires p <= k
    ensures Leq(p, k)
  {
    if p != [] {
      assert p[0] == k[0] && p[1..] <= k[1..];
      PrefixIsBelow(p[1..], k[1..]);
    }
  }

  /** Between a prefix and a key that has it lie only keys that have it. */
  lemma {:induction false} PrefixIsConvex(p: string, a: string, b: string)
    requires Leq(p, a) && Leq(a, b) && p <= b
    ensures p <= a
  {
    if p != [] {
      assert p[0] == b[0] && p[1..] <= b[1..];
      PrefixIsConvex(p[1..], a[1..], b[1..]);
      assert p == [p[0]] + p[1..] && a == [a[0]] + a[1..];
    }
  }

  // ----- buckets

  datatype Entry<+V> = Entry(key: string, value: V)

  ghost predicate Sorted<V>(b: seq<Entry<V>>) {
    forall i, j :: 0 <= i < j < |b| ==> Leq(b[i].key, b[j].key) && b[i].key != b[j].key
  }

  function Contents<V>(b: seq<Entry<V>>): map<string, V> {
    if b == [] then map[] else Contents(b[1..])[b[0].key := b[0].value]
  }

  lemma {:induction false} ContentsAt<V>(b: seq<Entry<V>>, i: nat)
    requires Sorted(b) && i < |b|
    ensures b[i].key in Contents(b) && Contents(b)[b[i].key] == b[i].value
  {
    if i > 0 {
      assert b[1..][i - 1] == b[i];
      ContentsAt(b[1..], i - 1);
    }
  }

  function Put<V>(b: seq<Entry<V>>, key: string, value: V): seq<Entry<V>> {
    if b == [] then [Entry(key, value)]
    else if b[0].key == key then [Entry(key, value)] + b[1..]
    else if Leq(key, b[0].key) then [Entry(key, value)] + b
    else [b[0]] + Put(b[1..], key, value)
  }

  function Delete<V>(b: seq<Entry<V>>, key: string): seq<Entry<V>> {
    if b == [] then []
    else if b[0].key == key then b[1..]
    else [b[0]] + Delete(b[1..], key)
  }

  /** Every key of the bucket is above `low` and different from it. */
  ghost predicate Above<V>(low: string, b: seq<Entry<V>>) {
    forall i :: 0 <= i < |b| ==> Leq(low, b[i].key) && low != b[i].key
  }

  lemma SortedCons<V>(e: Entry<V>, b: seq<Entry<V>>)
    ensures Sorted([e] + b) <==> Sorted(b) && Above(e.key, b)
  {
    var c := [e] + b;
    if Sorted(c) {
      forall i, j | 0 <= i < j < |b| ensures Leq(b[i].key, b[j].key) && b[i].key != b[j].key {
        assert b[i] == c[i + 1] && b[j] == c[j + 1];
      }
      forall i | 0 <= i < |b| ensures Leq(e.key, b[i].key) && e.key != b[i].key {
        assert c[0] == e && b[i] == c[i + 1];
      }
    }
  }

  lemma {:induction false} PutAbove<V>(low: string, b: seq<Entry<V>>, key: string, value: V)
    requires Above(low, b) && Leq(low, key) && low != key
    ensures Above(low, Put(b, key, value))
  {
    if b != [] && b[0].key != key && !Leq(key, b[0].key) {
      PutAbove(low, b[1..], key, value);
    }
  }

  lemma {:induction false} PutRefinesUpdate<V>(b: seq<Entry<V>>, key: string, value: V)
    requires Sorted(b)
    ensures Sorted(Put(b, key, value))
    ensures Contents(Put(b, key, value)) == Contents(b)[key := value]
  {
    if b != [] {
      assert b == [b[0]] + b[1..];
      SortedCons(b[0], b[1..]);
      if b[0].key == key {
        SortedCons(Entry(key, value), b[1..]);
      } else if Leq(key, b[0].key) {
        forall i | 0 <= i < |b| ensures Leq(key, b[i].key) && key != b[i].key {
          if i > 0 {
            LeqTransitive(key, b[0].key, b[i].key);
            if key == b[i].key { LeqAntisymmetric(key, b[0].key); }
          }
        }
        SortedCons(Entry(key, value), b);
      } else {
        LeqTotal(key, b[0].key);
        PutRefinesUpdate(b[1..], key, value);
        PutAbove(b[0].key, b[1..], key, value);
        SortedCons(b[0], Put(b[1..], key, value));
      }
    }
  }

  lemma {:induction false} DeleteKeepsAbove<V>(low: string, b: seq<Entry<V>>, key: string)
    requires Above(low, b)
    ensures Above(low, Delete(b, key))
  {
    if b != [] && b[0].key != key {
      DeleteKeepsAbove(low, b[1..], key);
    }
  }

  lemma {:induction false} AboveIsAbsent<V>(low: string, b: seq<Entry<V>>)
    requires Above(low, b)
    ensures low !in Contents(b)
  {
    if b != [] {
      AboveIsAbsent(low, b[1..]);
    }
  }

  lemma {:induction false} DeleteRefinesRemoval<V>(b: seq<Entry<V>>, key: string)
    requires Sorted(b)
    ensures Sorted(Delete(b, key))
    ensures Contents(Delete(b, key)) == Contents(b) - {key}
  {
    if b != [] {
      assert b == [b[0]] + b[1..];
      SortedCons(b[0], b[1..]);
      if b[0].key == key {
        AboveIsAbsent(key, b[1..]);
      } else {
        DeleteRefinesRemoval(b[1..], key);
        DeleteKeepsAbove(b[0].key, b[1..], key);
        SortedCons(b[0], Delete(b[1..], key));
      }
    }
  }

  // ----- the prefix scan

  /** Reference: the entries whose key has the prefix, in bucket order. */
  function WithPrefix<V>(b: seq<Entry<V>>, prefix: string): seq<Entry<V>> {
    if b == [] then []
    else (if prefix <= b[0].key then [b[0]] else []) + WithPrefix(b[1..], prefix)
  }

  /** The entries handed to a callback that stops the scan at its first failure. */
  function UpToFailure<V>(b: seq<Entry<V>>, fails: Entry<V> -> bool): seq<Entry<V>> {
    if b == [] then []
    else if fails(b[0]) then [b[0]]
    else [b[0]] + UpToFailure(b[1..], fails)
  }

  lemma {:induction false} NoneWithPrefix<V>(b: seq<Entry<V>>, prefix: string)
    requires forall i :: 0 <= i < |b| ==> !(prefix <= b[i].key)
    ensures WithPrefix(b, prefix) == []
  {
    if b != [] {
      NoneWithPrefix(b[1..], prefix);
    }
  }

  lemma {:induction false} WithPrefixSplits<V>(b: seq<Entry<V>>, i: nat, prefix: string)
    requires i <= |b|
    ensures WithPrefix(b, prefix) == WithPrefix(b[..i], prefix) + WithPrefix(b[i..], prefix)
  {
    if i == 0 {
      assert b[..0] == [] && b[0..] == b;
    } else {
      assert b[..i][1..] == b[1..][..i - 1];
      assert b[1..][i - 1..] == b[i..];
      WithPrefixSplits(b[1..], i - 1, prefix);
    }
  }

  /** No key below the seek position has the prefix. */
  lemma NoneBeforeSeek<V>(b: seq<Entry<V>>, prefix: string, i: nat)
    requires i <= |b| && forall j :: 0 <= j < i ==> !Leq(prefix, b[j].key)
    ensures WithPrefix(b[..i], prefix) == []
  {
    forall j | 0 <= j < i ensures !(prefix <= b[j].key) {
      if prefix <= b[j].key { PrefixIsBelow(prefix, b[j].key); }
    }
    NoneWithPrefix(b[..i], prefix);
  }

  /** From the first key without the prefix on, no key has it. */
  lemma NoneAfterStop<V>(b: seq<Entry<V>>, prefix: string, seek: nat, i: nat)
    requires Sorted(b) && seek <= i < |b| && Leq(prefix, b[seek].key) && !(prefix <= b[i].key)
    ensures WithPrefix(b[i..], prefix) == []
  {
    if seek < i { LeqTransitive(prefix, b[seek].key, b[i].key); }
    forall j | i <= j < |b| ensures !(prefix <= b[j].key) {
      if prefix <= b[j].key && i < j { PrefixIsConvex(prefix, b[i].key, b[j].key); }
    }
    NoneWithPrefix(b[i..], prefix);
  }

  lemma ScanTurn<V>(b: seq<Entry<V>>, prefix: string, i: nat, fails: Entry<V> -> bool)
    requires i < |b| && prefix <= b[i].key
    ensures UpToFailure(WithPrefix(b[i..], prefix), fails) ==
            [b[i]] + if fails(b[i]) then [] else UpToFailure(WithPrefix(b[i + 1..], prefix), fails)
  {
    assert b[i..][1..] == b[i + 1..];
    assert WithPrefix(b[i..], prefix) == [b[i]] + WithPrefix(b[i + 1..], prefix);
  }

  /** The cursor's seek: the first key not below the prefix, before which nothing has it. */
  method Seek<V>(b: seq<Entry<V>>, prefix: string) returns (i: nat)
    ensures i <= |b|
    ensures forall j :: 0 <= j < i ==> !Leq(prefix, b[j].key)
    ensures i < |b| ==> Leq(prefix, b[i].key)
    ensures WithPrefix(b[i..], prefix) == WithPrefix(b, prefix)
  {
    i := 0;
    while i < |b| && !Leq(prefix, b[i].key)
      invariant i <= |b| && forall j :: 0 <= j < i ==> !Leq(prefix, b[j].key)
    {
      i := i + 1;
    }
    NoneBeforeSeek(b, prefix, i);
    WithPrefixSplits(b, i, prefix);
  }

  class KVStore<V> {
    var buckets: map<string, seq<Entry<V>>>

    ghost predicate Valid()
      reads this
    {
      "" !in buckets && forall t :: t in buckets ==> Sorted(buckets[t])
    }

    /** What the buckets hold, order forgotten. */
    ghost function View(): map<string, map<string, V>>
      reads this
    {
      map t | t in buckets :: Contents(buckets[t])
    }

    constructor ()
      ensures Valid() && View() == map[]
    {
      buckets := map[];
    }

    /** A bucket must have a name, so a write for the empty tenant is refused. */
    method PutKV(tenant: string, key: string, value: V) returns (ok: bool)
      requires Valid()
      modifies this
      ensures Valid() && ok == (tenant != "")
      ensures View() == if ok
                        then old(View())[tenant := BucketOf(old(View()), tenant)[key := value]]
                        else old(View())
    {
      if tenant == "" { return false; }
      ok := true;
      var b := if tenant in buckets then buckets[tenant] else [];
      PutRefinesUpdate(b, key, value);
      buckets := buckets[tenant := Put(b, key, value)];
    }

    method DeleteKV(tenant: string, key: string)
      requires Valid()
      modifies this
      ensures Valid()
      ensures View() == if tenant in old(View())
                        then old(View())[tenant := old(View())[tenant] - {key}]
                        else old(View())
    {
      if tenant !in buckets { return; }
      DeleteRefinesRemoval(buckets[tenant], key);
      buckets := buckets[tenant := Delete(buckets[tenant], key)];
    }

    /** The cursor loop: seek, then call back while the key has the prefix. `fails` says on
        which entries the callback reports an error, which ends the scan. */
    method ScanPrefix(tenant: string, prefix: string, fails: Entry<V> -> bool) returns (visited: seq<Entry<V>>)
      requires Valid()
      ensures visited ==
              if tenant in buckets then UpToFailure(WithPrefix(buckets[tenant], prefix), fails) else []
    {
      if tenant !in buckets { return []; }
      visited := Visit(buckets[tenant], prefix, fails);
    }
  }

  method Visit<V>(b: seq<Entry<V>>, prefix: string, fails: Entry<V> -> bool) returns (visited: seq<Entry<V>>)
    requires Sorted(b)
    ensures visited == UpToFailure(WithPrefix(b, prefix), fails)
  {
    hide *;
    var i := Seek(b, prefix);
    ghost var seek := i;
    visited := [];
    while i < |b| && prefix <= b[i].key
      invariant seek <= i <= |b|
      invariant UpToFailure(WithPrefix(b, prefix), fails) == visited + UpToFailure(WithPrefix(b[i..], prefix), fails)
    {
      ScanTurn(b, prefix, i, fails);
      ghost var rest := if fails(b[i]) then [] else UpToFailure(WithPrefix(b[i + 1..], prefix), fails);
      assert visited + ([b[i]] + rest) == visited + [b[i]] + rest;
      visited := visited + [b[i]];
      if fails(b[i]) { return; }
      i := i + 1;
    }
    NothingLeft(b, prefix, seek, i, fails);
  }

  lemma NothingLeft<V>(b: seq<Entry<V>>, prefix: string, seek: nat, i: nat, fails: Entry<V> -> bool)
    requires Sorted(b) && seek <= i <= |b|
    requires i < |b| ==> Leq(prefix, b[seek].key) && !(prefix <= b[i].key)
    ensures UpToFailure(WithPrefix(b[i..], prefix), fails) == []
  {
    if i < |b| { NoneAfterStop(b, prefix, seek, i); }
  }

  ghost function BucketOf<V>(view: map<string, map<string, V>>, tenant: string): map<string, V> {
    if tenant in view then view[tenant] else map[]
  }

  // ----- the record namespaces that share a bucket

  const RECORD_PREFIXES: seq<string> :=
    ["job_", "sched_", "grp_", "pipeline_", "prun_", "notify_", "billing_key_"]

  const FIXED_KEYS: set<string> := {"blocks", "routes", "billing_profile"}

  lemma {:induction false} NeverFailing<V>(b: seq<Entry<V>>)
    ensures UpToFailure(b, _ => false) == b
  {
    if b != [] { NeverFailing(b[1..]); }
  }

  lemma {:induction false} WithPrefixMember<V>(b: seq<Entry<V>>, prefix: string, e: Entry<V>)
    ensures e in WithPrefix(b, prefix) <==> e in b && prefix <= e.key
  {
    if b != [] {
      WithPrefixMember(b[1..], prefix, e);
      assert e in b <==> e == b[0] || e in b[1..];
    }
  }

  lemma {:induction false} WithPrefixSorted<V>(b: seq<Entry<V>>, prefix: string)
    requires Sorted(b)
    ensures Sorted(WithPrefix(b, prefix))
  {
    if b != [] {
      assert b == [b[0]] + b[1..];
      SortedCons(b[0], b[1..]);
      WithPrefixSorted(b[1..], prefix);
      if prefix <= b[0].key {
        var w := WithPrefix(b[1..], prefix);
        forall i | 0 <= i < |w| ensures Leq(b[0].key, w[i].key) && b[0].key != w[i].key {
          WithPrefixMember(b[1..], prefix, w[i]);
        }
        SortedCons(b[0], w);
      }
    }
  }

  /** No key belongs to two record namespaces, and the fixed keys belong to none. */
  lemma NamespacesAreDisjoint(i: nat, j: nat, key: string)
    requires i < |RECORD_PREFIXES| && j < |RECORD_PREFIXES| && RECORD_PREFIXES[i] <= key
    ensures RECORD_PREFIXES[j] <= key ==> i == j
    ensures key !in FIXED_KEYS
  {
    var p, q := RECORD_PREFIXES[i], RECORD_PREFIXES[j];
    assert key[0] == p[0] && key[1] == p[1];
    if q <= key {
      assert key[0] == q[0] && key[1] == q[1];
    }
    if i == 6 { assert key[8] == p[8]; }
  }
}
