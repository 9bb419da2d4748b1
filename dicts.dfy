/** Python dicts as the scripts use them: a mapping plus the order in which
    keys were first inserted. `d[k] = v` keeps an existing key's position and
    appends a new key at the end. */
module Dicts {
  import opened Wrappers

  datatype Dict<K, V> = Dict(keys: seq<K>, entries: map<K, V>)

  /** The keys are distinct and are exactly the mapping's domain. */
  ghost predicate Valid<K, V>(d: Dict<K, V>) {
    && (forall i, j :: 0 <= i < j < |d.keys| ==> d.keys[i] != d.keys[j])
    && d.entries.Keys == set k | k in d.keys
  }

  function Empty<K, V>(): (d: Dict<K, V>)
    ensures Valid(d) && d.keys == []
  {
    Dict([], map[])
  }

  /** d.get(k, default). */
  function GetOr<K, V>(d: Dict<K, V>, k: K, default: V): V {
    if k in d.entries then d.entries[k] else default
  }

  /** d[k] = v. */
  function Put<K, V>(d: Dict<K, V>, k: K, v: V): (r: Dict<K, V>)
    ensures r.entries == d.entries[k := v]
    ensures Valid(d) ==> Valid(r)
    ensures Valid(d) ==> r.keys == if k in d.entries then d.keys else d.keys + [k]
  {
    if k in d.entries then Dict(d.keys, d.entries[k := v])
    else Dict(d.keys + [k], d.entries[k := v])
  }

  /** d[k] += 1 on a key already present: the key order stays as it is. */
  function Increment<K>(d: Dict<K, nat>, k: K): (r: Dict<K, nat>)
    requires k in d.entries
    ensures r.keys == d.keys && r.entries == d.entries[k := d.entries[k] + 1]
    ensures Valid(d) ==> Valid(r)
  {
    Dict(d.keys, d.entries[k := d.entries[k] + 1])
  }

  /** Two assignments to one key leave only the second value. */
  lemma PutTwice<K, V>(d: Dict<K, V>, k: K, v: V, w: V)
    ensures Put(Put(d, k, v), k, w) == Put(d, k, w)
  {
    assert d.entries[k := v][k := w] == d.entries[k := w];
  }

  /** list(d.items()), in insertion order. */
  function Items<K, V>(d: Dict<K, V>): (items: seq<(K, V)>)
    requires Valid(d)
    ensures |items| == |d.keys|
    ensures forall i :: 0 <= i < |d.keys| ==> items[i] == (d.keys[i], d.entries[d.keys[i]])
  {
    seq(|d.keys|, i requires 0 <= i < |d.keys| => (d.keys[i], d.entries[d.keys[i]]))
  }

  /** Sum of the counts stored under the keys ks. */
  function SumOver<K>(ks: seq<K>, m: map<K, nat>): nat {
    if ks == [] then 0 else (if ks[0] in m then m[ks[0]] else 0) + SumOver(ks[1..], m)
  }

  /** sum(d.values()) for a dict of counts. */
  function Total<K>(d: Dict<K, nat>): nat {
    SumOver(d.keys, d.entries)
  }

  lemma {:induction false} SumOverAppend<K>(ks: seq<K>, k: K, m: map<K, nat>)
    ensures SumOver(ks + [k], m) == SumOver(ks, m) + (if k in m then m[k] else 0)
  {
    if ks != [] {
      assert (ks + [k])[1..] == ks[1..] + [k];
      SumOverAppend(ks[1..], k, m);
    }
  }

  lemma {:induction false} SumOverUpdate<K>(ks: seq<K>, k: K, v: nat, m: map<K, nat>)
    requires forall i, j :: 0 <= i < j < |ks| ==> ks[i] != ks[j]
    ensures k !in ks ==> SumOver(ks, m[k := v]) == SumOver(ks, m)
    ensures k in ks ==> SumOver(ks, m[k := v]) + (if k in m then m[k] else 0) == SumOver(ks, m) + v
  {
    if ks != [] {
      SumOverUpdate(ks[1..], k, v, m);
      if ks[0] == k {
        assert k !in ks[1..] by {
          forall j | 0 <= j < |ks[1..]| ensures ks[1..][j] != k {
            assert ks[1..][j] == ks[j + 1];
          }
        }
      }
    }
  }

  /** Writing v over the count at key k changes the sum by v minus the old count. */
  lemma TotalPut<K>(d: Dict<K, nat>, k: K, v: nat)
    requires Valid(d)
    ensures Total(Put(d, k, v)) + GetOr(d, k, 0) == Total(d) + v
  {
    SumOverUpdate(d.keys, k, v, d.entries);
    if k !in d.entries {
      SumOverAppend(d.keys, k, d.entries[k := v]);
    }
  }

  /** counts[k] = counts.get(k, 0) + 1 adds one to the sum. */
  lemma TotalIncrement<K>(d: Dict<K, nat>, k: K)
    requires Valid(d)
    ensures Total(Put(d, k, GetOr(d, k, 0) + 1)) == Total(d) + 1
  {
    TotalPut(d, k, GetOr(d, k, 0) + 1);
  }
}

/** The counting idiom `counts[x] = counts.get(x, 0) + 1` over a list. */
module Tally {
  import opened Wrappers
  import opened Dicts

  /** Counts of each element of s, keys in order of first occurrence. */
  function Tally<T>(s: seq<T>): Dict<T, nat> {
    if s == [] then Empty()
    else
      var d := Tally(s[..|s| - 1]);
      var x := s[|s| - 1];
      Put(d, x, GetOr(d, x, 0) + 1)
  }

  lemma {:induction false} TallyValid<T>(s: seq<T>)
    ensures Valid(Tally(s))
  {
    if s != [] {
      TallyValid(s[..|s| - 1]);
    }
  }

  /** Exactly the elements of s are keys. */
  lemma {:induction false} TallyKeys<T>(s: seq<T>)
    ensures Valid(Tally(s))
    ensures forall x :: x in Tally(s).entries <==> x in s
  {
    if s != [] {
      var p := s[..|s| - 1];
      assert s == p + [s[|s| - 1]];
      TallyKeys(p);
    }
  }

  /** Exactly the elements of s are keys, each with its number of occurrences. */
  lemma {:induction false} TallyCounts<T>(s: seq<T>)
    ensures Valid(Tally(s))
    ensures forall x :: x in Tally(s).entries <==> x in s
    ensures forall x :: x in s ==> Tally(s).entries[x] == multiset(s)[x]
  {
    TallyKeys(s);
    if s != [] {
      var p := s[..|s| - 1];
      assert s == p + [s[|s| - 1]];
      TallyCounts(p);
    }
  }

  /** The counts add up to the length of the list. */
  lemma {:induction false} TallyTotal<T>(s: seq<T>)
    ensures Total(Tally(s)) == |s|
  {
    if s != [] {
      var p := s[..|s| - 1];
      TallyTotal(p);
      TallyValid(p);
      TotalIncrement(Tally(p), s[|s| - 1]);
    }
  }

  /** A non-empty list of one repeated value tallies to that value alone. */
  lemma TallyOfConstant<T>(s: seq<T>, x: T)
    requires |s| > 0
    requires forall i :: 0 <= i < |s| ==> s[i] == x
    ensures forall t :: t in Tally(s).entries <==> t == x
  {
    TallyCounts(s);
    assert s[0] == x;
  }

  /** The loop `for x in s: counts[x] = counts.get(x, 0) + 1`. */
  method CountEach<T>(s: seq<T>) returns (counts: Dict<T, nat>)
    ensures counts == Tally(s)
    ensures Valid(counts)
    ensures Total(counts) == |s|
    ensures forall x :: x in counts.entries <==> x in s
    ensures forall x :: x in s ==> counts.entries[x] == multiset(s)[x]
  {
    counts := Empty();
    for i := 0 to |s|
      invariant counts == Tally(s[..i])
    {
      assert s[..i + 1][..i] == s[..i];
      counts := Put(counts, s[i], GetOr(counts, s[i], 0) + 1);
    }
    assert s[..|s|] == s;
    TallyTotal(s);
    TallyCounts(s);
  }

  /** The percentage column: count / n * 100 for each key, in key order. */
  function Shares<K>(d: Dict<K, nat>, n: nat): (r: seq<(K, real)>)
    requires Valid(d) && n > 0
    ensures |r| == |d.keys|
    ensures forall i :: 0 <= i < |r| ==> r[i] == (d.keys[i], d.entries[d.keys[i]] as real / n as real * 100.0)
  {
    SharesOver(d.keys, d.entries, n)
  }

  function RealTotal<K>(s: seq<(K, real)>): real {
    if s == [] then 0.0 else s[0].1 + RealTotal(s[1..])
  }

  /** Because each percentage divides by the whole batch size, the percentages
      of a complete tally add up to 100. */
  lemma SharesSumTo100<K>(d: Dict<K, nat>, n: nat)
    requires Valid(d) && n > 0 && Total(d) == n
    ensures RealTotal(Shares(d, n)) == 100.0
  {
    var x := n as real;
    SharesScale(d.keys, d.entries, n);
    assert RealTotal(Shares(d, n)) == x / x * 100.0;
    DivSelf(x);
  }

  lemma DivSelf(x: real)
    requires x != 0.0
    ensures x / x == 1.0
  {
  }

  function SharesOver<K>(ks: seq<K>, m: map<K, nat>, n: nat): (r: seq<(K, real)>)
    requires n > 0 && forall k :: k in ks ==> k in m
    ensures |r| == |ks|
    ensures forall i :: 0 <= i < |ks| ==> r[i] == (ks[i], m[ks[i]] as real / n as real * 100.0)
  {
    seq(|ks|, i requires 0 <= i < |ks| => (ks[i], m[ks[i]] as real / n as real * 100.0))
  }

  lemma {:induction false} SharesScale<K>(ks: seq<K>, m: map<K, nat>, n: nat)
    requires n > 0 && forall k :: k in ks ==> k in m
    ensures RealTotal(SharesOver(ks, m, n)) == SumOver(ks, m) as real / n as real * 100.0
  {
    if ks != [] {
      SharesScale(ks[1..], m, n);
      assert SharesOver(ks, m, n)[1..] == SharesOver(ks[1..], m, n);
      var a, b := m[ks[0]] as real, SumOver(ks[1..], m) as real;
      DivAdd(a, b, n as real);
    }
  }

  lemma DivAdd(a: real, b: real, x: real)
    requires x != 0.0
    ensures a / x * 100.0 + b / x * 100.0 == (a + b) / x * 100.0
  {
    assert a / x + b / x == (a + b) / x;
  }
}
