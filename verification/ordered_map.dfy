/** PHP arrays with string keys: an insertion-ordered map in which every key
    occurs once. Assigning to an existing key keeps its position; assigning to
    a new key appends it. */
module OrderedMap {
  import opened Wrappers

  predicate KeysUnique<V>(s: seq<(string, V)>) {
    forall i, j :: 0 <= i < j < |s| ==> s[i].0 != s[j].0
  }

  type OMap<V> = s: seq<(string, V)> | KeysUnique(s) witness []

  /** The keys in order. */
  function Keys<V>(m: seq<(string, V)>): (ks: seq<string>)
    ensures |ks| == |m|
    ensures forall i :: 0 <= i < |m| ==> ks[i] == m[i].0
  {
    if |m| == 0 then [] else [m[0].0] + Keys(m[1..])
  }

  predicate Has<V>(m: seq<(string, V)>, k: string) {
    k in Keys(m)
  }

  /** The position of key `k`, if present. */
  function IndexOf<V>(m: seq<(string, V)>, k: string): (r: Option<nat>)
    ensures r.Some? ==> r.value < |m| && m[r.value].0 == k
    ensures r.None? <==> !Has(m, k)
  {
    if |m| == 0 then None
    else if m[0].0 == k then Some(0)
    else match IndexOf(m[1..], k)
      case Some(i) => Some(i + 1)
      case None => None
  }

  /** `$m[$k] ?? null`. */
  function Get<V>(m: OMap<V>, k: string): (r: Option<V>)
    ensures r.Some? <==> Has(m, k)
    ensures forall i :: 0 <= i < |m| && m[i].0 == k ==> r == Some(m[i].1)
  {
    match IndexOf(m, k)
    case Some(i) => Some(m[i].1)
    case None => None
  }

  /** `$m[$k] = $v`. */
  function Put<V>(m: OMap<V>, k: string, v: V): (r: OMap<V>)
    ensures Get(r, k) == Some(v)
    ensures forall j :: j != k ==> Get(r, j) == Get(m, j)
    ensures Has(m, k) ==> Keys(r) == Keys(m)
    ensures !Has(m, k) ==> Keys(r) == Keys(m) + [k]
  {
    match IndexOf(m, k)
    case Some(i) =>
      PutAt(m, i, k, v);
      m[i := (k, v)]
    case None =>
      PutNew(m, k, v);
      m + [(k, v)]
  }

  /** Overwriting the entry at position `i` keeps every key where it is. */
  lemma PutAt<V>(m: OMap<V>, i: nat, k: string, v: V)
    requires i < |m| && m[i].0 == k
    ensures KeysUnique(m[i := (k, v)])
    ensures Keys(m[i := (k, v)]) == Keys(m)
    ensures Get(m[i := (k, v)], k) == Some(v)
    ensures forall j :: j != k ==> Get(m[i := (k, v)], j) == Get(m, j)
  {
    var r := m[i := (k, v)];
    assert forall p :: 0 <= p < |r| ==> r[p].0 == m[p].0;
    assert Keys(r) == Keys(m);
    forall j | j != k
      ensures Get(r, j) == Get(m, j)
    {
      SameAtKey(m, r, j);
    }
  }

  /** Appending an entry for a missing key. */
  lemma PutNew<V>(m: OMap<V>, k: string, v: V)
    requires !Has(m, k)
    ensures KeysUnique(m + [(k, v)])
    ensures Keys(m + [(k, v)]) == Keys(m) + [k]
    ensures Get(m + [(k, v)], k) == Some(v)
    ensures forall j :: j != k ==> Get(m + [(k, v)], j) == Get(m, j)
  {
    var r := m + [(k, v)];
    assert forall p :: 0 <= p < |m| ==> Keys(m)[p] == m[p].0;
    assert KeysUnique(r);
    assert Keys(r) == Keys(m) + [k];
    forall j | j != k
      ensures Get(r, j) == Get(m, j)
    {
      if Has(r, j) {
        var p :| 0 <= p < |r| && Keys(r)[p] == j;
        assert p < |m| && m[p] == r[p];
      }
      if Has(m, j) {
        var p :| 0 <= p < |m| && Keys(m)[p] == j;
        assert r[p] == m[p];
      }
    }
  }

  /** Two maps that agree, key by key, wherever key `j` occurs in either give
      the same lookup for `j`. */
  lemma SameAtKey<V>(m: OMap<V>, r: OMap<V>, j: string)
    requires |r| == |m|
    requires forall p :: 0 <= p < |m| && (m[p].0 == j || r[p].0 == j) ==> r[p] == m[p]
    ensures Get(r, j) == Get(m, j)
  {
    if Has(r, j) {
      var p :| 0 <= p < |r| && Keys(r)[p] == j;
      assert r[p] == m[p];
    }
    if Has(m, j) {
      var p :| 0 <= p < |m| && Keys(m)[p] == j;
      assert r[p] == m[p];
    }
  }

  /** The keys of `ks` that do not occur in `seen`, in order. */
  function Unseen(ks: seq<string>, seen: seq<string>): seq<string> {
    if |ks| == 0 then []
    else (if ks[0] in seen then [] else [ks[0]]) + Unseen(ks[1..], seen)
  }

  /** `array_merge($a, $b)` for string keys: entries of `b` override those of
      `a`; `a`'s keys keep their order and `b`'s new keys follow in order. */
  function Merge<V>(a: OMap<V>, b: OMap<V>): (r: OMap<V>)
    ensures forall k :: Get(r, k) == if Has(b, k) then Get(b, k) else Get(a, k)
    ensures Keys(r) == Keys(a) + Unseen(Keys(b), Keys(a))
    decreases |b|
  {
    if |b| == 0 then a
    else
      MergeStepKeys(a, b);
      MergeStepGet(a, b);
      Merge(Put(a, b[0].0, b[0].1), b[1..])
  }

  lemma MergeStepKeys<V>(a: OMap<V>, b: OMap<V>)
    requires |b| > 0
    ensures var a' := Put(a, b[0].0, b[0].1);
      Keys(a') + Unseen(Keys(b[1..]), Keys(a')) == Keys(a) + Unseen(Keys(b), Keys(a))
  {
    var a' := Put(a, b[0].0, b[0].1);
    MergeStep(a, b);
    var added := PutKeys(a, b[0].0, b[0].1);
    Regroup(Keys(a), Keys(a'), added, Unseen(Keys(b[1..]), Keys(a')), Unseen(Keys(b), Keys(a)));
  }

  lemma Regroup(ka: seq<string>, ka': seq<string>, added: seq<string>, rest: seq<string>, unseen: seq<string>)
    requires ka' == ka + added && unseen == added + rest
    ensures ka' + rest == ka + unseen
  {
  }

  /** The keys after `Put`: those before, then `k` if it is new. */
  lemma PutKeys<V>(a: OMap<V>, k: string, v: V) returns (added: seq<string>)
    ensures added == if Has(a, k) then [] else [k]
    ensures Keys(Put(a, k, v)) == Keys(a) + added
  {
    added := if Has(a, k) then [] else [k];
  }

  lemma MergeStepGet<V>(a: OMap<V>, b: OMap<V>)
    requires |b| > 0
    ensures var a' := Put(a, b[0].0, b[0].1);
      forall k :: (if Has(b[1..], k) then Get(b[1..], k) else Get(a', k)) ==
                  (if Has(b, k) then Get(b, k) else Get(a, k))
  {
    forall k {
      GetTail(b, k);
    }
  }

  /** Looking a key up in `b` agrees with looking it up past `b`'s first entry. */
  lemma GetTail<V>(b: OMap<V>, k: string)
    requires |b| > 0
    ensures Has(b, k) <==> k == b[0].0 || Has(b[1..], k)
    ensures k != b[0].0 ==> Get(b, k) == Get(b[1..], k)
    ensures k == b[0].0 ==> !Has(b[1..], k) && Get(b, k) == Some(b[0].1)
  {
    if k != b[0].0 && Has(b, k) {
      var i :| 0 <= i < |b| && b[i].0 == k;
      assert b[1..][i - 1].0 == k;
    }
  }

  lemma MergeStep<V>(a: OMap<V>, b: OMap<V>)
    requires |b| > 0
    ensures Unseen(Keys(b), Keys(a)) ==
      (if Has(a, b[0].0) then [] else [b[0].0]) + Unseen(Keys(b[1..]), Keys(Put(a, b[0].0, b[0].1)))
  {
    assert Keys(b)[1..] == Keys(b[1..]);
    forall k | k in Keys(b[1..]) ensures k in Keys(a) <==> k in Keys(Put(a, b[0].0, b[0].1)) {
    }
    UnseenAgree(Keys(b[1..]), Keys(a), Keys(Put(a, b[0].0, b[0].1)));
  }

  lemma {:induction false} UnseenAgree(ks: seq<string>, s1: seq<string>, s2: seq<string>)
    requires forall k :: k in ks ==> (k in s1 <==> k in s2)
    ensures Unseen(ks, s1) == Unseen(ks, s2)
  {
    if |ks| > 0 {
      UnseenAgree(ks[1..], s1, s2);
    }
  }

  /** The merged array has exactly the keys of both arrays. */
  lemma MergeHas<V>(a: OMap<V>, b: OMap<V>)
    ensures forall k :: Has(Merge(a, b), k) <==> Has(a, k) || Has(b, k)
  {
    forall k ensures Has(Merge(a, b), k) <==> Has(a, k) || Has(b, k) {
      assert Get(Merge(a, b), k).Some? <==> Has(Merge(a, b), k);
    }
  }
}
