/**
 * The `Record<string, number>` count tables of the analytics engine
 * (`toolCounts`, `taskCounts` in src/lib/analytics.ts). A table is kept as its
 * `Object.entries` view: a sequence of key/count pairs in key-insertion order.
 */
module CountTable {
  import opened Seqs

  datatype Count = Count(key: string, n: nat)

  function Keys(t: seq<Count>): (ks: seq<string>)
    ensures |ks| == |t| && forall i :: 0 <= i < |t| ==> ks[i] == t[i].key
  {
    seq(|t|, i requires 0 <= i < |t| => t[i].key)
  }

  /** `counts[k] = (counts[k] || 0) + 1`: bump an existing key in place, or add it at the end with 1. */
  function Bump(t: seq<Count>, k: string): seq<Count> {
    if t == [] then [Count(k, 1)]
    else if t[0].key == k then [Count(k, t[0].n + 1)] + t[1..]
    else [t[0]] + Bump(t[1..], k)
  }

  /** The table after counting `keys` one by one, starting from an empty table. */
  function Tally(keys: seq<string>): seq<Count> {
    if keys == [] then [] else Bump(Tally(keys[..|keys| - 1]), keys[|keys| - 1])
  }

  /** `keys` with every repetition of an earlier key removed: the order in which keys first occur. */
  function FirstOccurrences(keys: seq<string>): seq<string> {
    if keys == [] then []
    else
      var d := FirstOccurrences(keys[..|keys| - 1]);
      if keys[|keys| - 1] in d then d else d + [keys[|keys| - 1]]
  }

  function Total(t: seq<Count>): nat {
    if t == [] then 0 else t[0].n + Total(t[1..])
  }

  lemma TallySnoc(keys: seq<string>, k: string)
    ensures Tally(keys + [k]) == Bump(Tally(keys), k)
  {
    assert (keys + [k])[..|keys|] == keys;
  }

  /** The index of the first entry keyed `k`, or `|t|` when there is none. */
  function FindKey(t: seq<Count>, k: string): (j: nat)
    ensures j <= |t|
    ensures forall i :: 0 <= i < j ==> t[i].key != k
    ensures j < |t| ==> t[j].key == k
  {
    if t == [] then 0 else if t[0].key == k then 0 else 1 + FindKey(t[1..], k)
  }

  /** Bump in the form the loop performs it: in place at the key's entry, or appended. */
  lemma {:induction false} BumpAt(t: seq<Count>, k: string)
    ensures var j := FindKey(t, k);
      && (j < |t| ==> Bump(t, k) == t[j := Count(k, t[j].n + 1)])
      && (j == |t| ==> Bump(t, k) == t + [Count(k, 1)])
  {
    if t != [] && t[0].key != k {
      BumpAt(t[1..], k);
    }
  }

  lemma {:induction false} TotalUpdate(t: seq<Count>, j: nat, c: Count)
    requires j < |t|
    ensures Total(t[j := c]) + t[j].n == Total(t) + c.n
  {
    if j > 0 {
      assert t[j := c][1..] == t[1..][j - 1 := c];
      TotalUpdate(t[1..], j - 1, c);
    }
  }

  lemma {:induction false} TotalSnoc(t: seq<Count>, c: Count)
    ensures Total(t + [c]) == Total(t) + c.n
  {
    if t != [] {
      assert (t + [c])[1..] == t[1..] + [c];
      TotalSnoc(t[1..], c);
    }
  }

  /** What one bump does: the key list grows only by a new key, only that key's count grows, by one. */
  lemma BumpSpec(t: seq<Count>, k: string)
    requires Distinct(Keys(t))
    ensures var r := Bump(t, k);
      && Keys(r) == (if k in Keys(t) then Keys(t) else Keys(t) + [k])
      && (forall i :: 0 <= i < |t| ==> r[i].n == t[i].n + (if t[i].key == k then 1 else 0))
      && (k !in Keys(t) ==> r[|t|].n == 1)
      && Total(r) == Total(t) + 1
  {
    BumpAt(t, k);
    if FindKey(t, k) < |t| {
      BumpExisting(t, k);
    } else {
      BumpNew(t, k);
    }
  }

  lemma BumpExisting(t: seq<Count>, k: string)
    requires Distinct(Keys(t)) && FindKey(t, k) < |t|
    ensures var r := t[FindKey(t, k) := Count(k, t[FindKey(t, k)].n + 1)];
      && k in Keys(t)
      && Keys(r) == Keys(t)
      && (forall i :: 0 <= i < |t| ==> r[i].n == t[i].n + (if t[i].key == k then 1 else 0))
      && Total(r) == Total(t) + 1
  {
    var j := FindKey(t, k);
    var r := t[j := Count(k, t[j].n + 1)];
    assert Keys(t)[j] == k;
    TotalUpdate(t, j, Count(k, t[j].n + 1));
    forall i | 0 <= i < |t| && i != j ensures t[i].key != k {
      assert Keys(t)[i] != Keys(t)[j];
    }
  }

  lemma BumpNew(t: seq<Count>, k: string)
    requires FindKey(t, k) == |t|
    ensures var r := t + [Count(k, 1)];
      && k !in Keys(t)
      && Keys(r) == Keys(t) + [k]
      && (forall i :: 0 <= i < |t| ==> r[i].n == t[i].n + (if t[i].key == k then 1 else 0))
      && r[|t|].n == 1
      && Total(r) == Total(t) + 1
  {
    TotalSnoc(t, Count(k, 1));
  }

  lemma {:induction false} FirstOccurrencesSpec(keys: seq<string>)
    ensures Distinct(FirstOccurrences(keys))
    ensures forall k :: k in FirstOccurrences(keys) <==> k in keys
  {
    if keys != [] {
      var init := keys[..|keys| - 1];
      FirstOccurrencesSpec(init);
      assert keys == init + [keys[|keys| - 1]];
    }
  }

  lemma {:induction false} TallyOrder(keys: seq<string>)
    ensures Keys(Tally(keys)) == FirstOccurrences(keys)
  {
    if keys != [] {
      var init, k := keys[..|keys| - 1], keys[|keys| - 1];
      TallyOrder(init);
      FirstOccurrencesSpec(init);
      BumpSpec(Tally(init), k);
    }
  }

  lemma {:induction false} TallyTotal(keys: seq<string>)
    ensures Total(Tally(keys)) == |keys|
  {
    if keys != [] {
      var init, k := keys[..|keys| - 1], keys[|keys| - 1];
      TallyTotal(init);
      TallyOrder(init);
      FirstOccurrencesSpec(init);
      BumpSpec(Tally(init), k);
    }
  }

  lemma {:induction false} TallyCounts(keys: seq<string>)
    ensures var t := Tally(keys); forall i :: 0 <= i < |t| ==> t[i].n == multiset(keys)[t[i].key]
  {
    if keys != [] {
      var init, k := keys[..|keys| - 1], keys[|keys| - 1];
      assert keys == init + [k];
      TallyCounts(init);
      forall i | 0 <= i < |Tally(keys)| ensures Tally(keys)[i].n == multiset(keys)[Tally(keys)[i].key] {
        TallyCountsStep(init, k, i);
      }
    }
  }

  lemma TallyCountsStep(init: seq<string>, k: string, i: nat)
    requires var t0 := Tally(init); forall i :: 0 <= i < |t0| ==> t0[i].n == multiset(init)[t0[i].key]
    requires i < |Tally(init + [k])|
    ensures Tally(init + [k])[i].n == multiset(init + [k])[Tally(init + [k])[i].key]
  {
    var keys := init + [k];
    assert keys[..|keys| - 1] == init;
    assert multiset(keys) == multiset(init) + multiset{k};
    TallyOrder(init);
    FirstOccurrencesSpec(init);
    var t0 := Tally(init);
    BumpSpec(t0, k);
    var t := Tally(keys);
    if i < |t0| {
      assert t[i].key == t0[i].key by { assert Keys(t)[i] == Keys(t0)[i]; }
    } else {
      assert Keys(t)[i] == k;
      assert k !in Keys(t0);
      assert k !in init;
    }
  }

  /**
   * The counted table lists each distinct key once, in the order keys first
   * occur, with the number of times it occurs; the counts add up to the
   * number of keys counted.
   */
  lemma TallySpec(keys: seq<string>)
    ensures var t := Tally(keys);
      && Keys(t) == FirstOccurrences(keys)
      && (forall i :: 0 <= i < |t| ==> t[i].n == multiset(keys)[t[i].key])
      && Total(t) == |keys|
  {
    TallyOrder(keys);
    TallyCounts(keys);
    TallyTotal(keys);
  }

  /** Corollary: the counted keys are distinct, each occurs at least once, and every key occurring is counted. */
  lemma TallyKeys(keys: seq<string>)
    ensures var t := Tally(keys);
      && Distinct(Keys(t))
      && (forall i :: 0 <= i < |t| ==> t[i].n >= 1)
      && (forall k :: k in Keys(t) <==> k in keys)
  {
    var t := Tally(keys);
    TallySpec(keys);
    FirstOccurrencesSpec(keys);
    forall i | 0 <= i < |t| ensures t[i].n >= 1 {
      assert Keys(t)[i] in keys;
    }
  }
}
