/**
 * Counting with dictionaries from keys to integers: how many times a key is
 * listed, the keys of a list in order of first occurrence, and a counter
 * dictionary that gains an amount for every listing of a key.
 */
module Counting {

  /** The number of times x is listed among the first n entries of xs (a Counter's count). */
  function Occurrences<K(==)>(xs: seq<K>, n: nat, x: K): nat
    requires n <= |xs|
  {
    if n == 0 then 0 else Occurrences(xs, n - 1, x) + if xs[n - 1] == x then 1 else 0
  }

  /** Counting among the first n entries looks only at those entries. */
  lemma {:induction false} OccurrencesPrefix<K>(xs: seq<K>, ys: seq<K>, n: nat, x: K)
    requires n <= |xs| && n <= |ys| && xs[..n] == ys[..n]
    ensures Occurrences(xs, n, x) == Occurrences(ys, n, x)
  {
    if n > 0 {
      assert xs[..n - 1] == xs[..n][..n - 1] && ys[..n - 1] == ys[..n][..n - 1];
      assert xs[n - 1] == xs[..n][n - 1] && ys[n - 1] == ys[..n][n - 1];
      OccurrencesPrefix(xs, ys, n - 1, x);
    }
  }

  /** Appending an entry adds one occurrence of it and none of anything else. */
  lemma OccurrencesAppend<K>(xs: seq<K>, x: K, y: K)
    ensures Occurrences(xs + [x], |xs| + 1, y) == Occurrences(xs, |xs|, y) + if x == y then 1 else 0
  {
    assert (xs + [x])[..|xs|] == xs[..|xs|];
    OccurrencesPrefix(xs + [x], xs, |xs|, y);
  }

  /** A list's multiset holds each entry as often as the list lists it (a Counter's count). */
  lemma {:induction false} MultisetOccurrences<K>(xs: seq<K>, y: K)
    ensures multiset(xs)[y] == Occurrences(xs, |xs|, y)
  {
    if xs != [] {
      var front, x := xs[..|xs| - 1], xs[|xs| - 1];
      assert xs == front + [x];
      MultisetOccurrences(front, y);
      OccurrencesAppend(front, x, y);
    }
  }

  /** No entry is listed twice. */
  predicate NoRepeats<K(==)>(xs: seq<K>) {
    forall i, j :: 0 <= i < j < |xs| ==> xs[i] != xs[j]
  }

  /**
   * The entries of xs in order of first occurrence, each once: the keys of
   * a Counter, or of a dict built from a list.
   */
  function Distinct<K(==,!new)>(xs: seq<K>): (d: seq<K>)
    ensures forall x :: x in d <==> x in xs
    ensures NoRepeats(d)
  {
    if xs == [] then []
    else
      var d := Distinct(xs[..|xs| - 1]);
      var x := xs[|xs| - 1];
      if x in d then d else d + [x]
  }

  /** In a list without repeats, the entry at position k occurs once if k is among the first n. */
  lemma {:induction false} OccursOnce<K>(keys: seq<K>, n: nat, k: nat)
    requires NoRepeats(keys) && n <= |keys| && k < |keys|
    ensures Occurrences(keys, n, keys[k]) == if k < n then 1 else 0
  {
    if n > 0 {
      OccursOnce(keys, n - 1, k);
    }
  }

  /** An absent entry does not occur. */
  lemma {:induction false} OccursNever<K>(keys: seq<K>, n: nat, x: K)
    requires n <= |keys| && x !in keys
    ensures Occurrences(keys, n, x) == 0
  {
    if n > 0 {
      OccursNever(keys, n - 1, x);
    }
  }

  /** k times x, by repeated addition. */
  function Times(k: nat, x: nat): nat {
    if k == 0 then 0 else Times(k - 1, x) + x
  }

  lemma {:induction false} TimesAdd(k: nat, x: nat, y: nat)
    ensures Times(k, x + y) == Times(k, x) + Times(k, y)
  {
    if k > 0 {
      TimesAdd(k - 1, x, y);
    }
  }

  lemma {:induction false} TimesMono(k: nat, x: nat, y: nat)
    requires x <= y
    ensures Times(k, x) <= Times(k, y)
  {
    if k > 0 {
      TimesMono(k - 1, x, y);
    }
  }

  lemma {:induction false} TimesZero(k: nat)
    ensures Times(k, 0) == 0
  {
    if k > 0 {
      TimesZero(k - 1);
    }
  }

  /** A key's count; zero for a key the dictionary does not hold. */
  function At<K>(counts: map<K, nat>, key: K): nat {
    if key in counts then counts[key] else 0
  }

  /** Every listed key with count zero (`{k: 0 for k in keys}`). */
  function Zeros<K(==,!new)>(keys: seq<K>): (z: map<K, nat>)
    ensures forall key :: At(z, key) == 0
  {
    map key | key in keys :: 0
  }

  /** Every listed key has a count. */
  ghost predicate Covers<K>(counts: map<K, nat>, keys: seq<K>) {
    forall i :: 0 <= i < |keys| ==> keys[i] in counts
  }

  /** The counts after adding amount(k) to k for each of the first j listings k of keys. */
  function AddListings<K>(keys: seq<K>, j: nat, counts: map<K, nat>, amount: K -> nat): map<K, nat>
    requires j <= |keys|
  {
    if j == 0 then counts
    else
      var c := AddListings(keys, j - 1, counts, amount);
      c[keys[j - 1] := At(c, keys[j - 1]) + amount(keys[j - 1])]
  }

  /**
   * One more listing: the counts after j listings with the key of listing j
   * set to its count plus its amount are the counts after j + 1 listings.
   */
  lemma AddListingsNext<K>(keys: seq<K>, j: nat, counts: map<K, nat>, amount: K -> nat, c: map<K, nat>, v: nat)
    requires j < |keys| && c == AddListings(keys, j, counts, amount)
    requires v == At(c, keys[j]) + amount(keys[j])
    ensures c[keys[j] := v] == AddListings(keys, j + 1, counts, amount)
    ensures Covers(c, keys) ==> Covers(c[keys[j] := v], keys)
  {
  }

  /** One more listing, seen from one key: it gains its amount and one occurrence, or neither. */
  lemma ListingStep<K>(keys: seq<K>, j: nat, counts: map<K, nat>, amount: K -> nat, key: K)
    requires 0 < j <= |keys|
    ensures keys[j - 1] == key ==>
              At(AddListings(keys, j, counts, amount), key) == At(AddListings(keys, j - 1, counts, amount), key) + amount(key)
              && Occurrences(keys, j, key) == Occurrences(keys, j - 1, key) + 1
    ensures keys[j - 1] != key ==>
              At(AddListings(keys, j, counts, amount), key) == At(AddListings(keys, j - 1, counts, amount), key)
              && Occurrences(keys, j, key) == Occurrences(keys, j - 1, key)
  {
  }

  /** After the first j listings, a key has gained its amount once per listing. */
  lemma {:induction false} AddListingsValue<K>(keys: seq<K>, j: nat, counts: map<K, nat>, amount: K -> nat, key: K)
    requires j <= |keys|
    ensures At(AddListings(keys, j, counts, amount), key) == At(counts, key) + Times(Occurrences(keys, j, key), amount(key))
  {
    if j > 0 {
      AddListingsValue(keys, j - 1, counts, amount, key);
      ListingStep(keys, j, counts, amount, key);
    }
  }
}
