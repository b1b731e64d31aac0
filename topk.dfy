/** The top-k job (`src/top_k.py`): per key, the k largest `(score, token)` values
    in Python's tuple order, once in the combiner and again in the reducer. */
module TopKJob {
  import opened Common
  import opened Ranking

  /** `TopK.combiner`: the group's k largest values, re-emitted one by one under
      the key, largest first. */
  function Combiner(key: string, data: seq<Scored>, k: int): (out: seq<(string, Scored)>)
    ensures k >= 0 ==> |out| == MinNat(k, |data|)
    ensures forall i :: 0 <= i < |out| ==> out[i].0 == key && out[i].1 in multiset(data)
    ensures SecondsOf(out) == TopK(data, k)
  {
    var top := TopK(data, k);
    TopKShape(data, k);
    assert forall i :: 0 <= i < |top| ==> top[i] in multiset(top);
    seq(|top|, i requires 0 <= i < |top| => (key, top[i]))
  }

  /** `TopK.reducer`: the key with the tuple of its group's k largest values. For
      k >= 0 it has min(k, |data|) of the group's values in non-increasing order. */
  function Reducer(key: string, data: seq<Scored>, k: int): (out: (string, seq<Scored>))
    ensures out.0 == key
    ensures k >= 0 ==> |out.1| == MinNat(k, |data|)
    ensures Descending(out.1)
    ensures multiset(out.1) <= multiset(data)
    ensures k == 0 ==> out.1 == []
  {
    TopKShape(data, k);
    (key, TopK(data, k))
  }

  /** The values a group receives after every part went through the combiner. */
  function Combined(key: string, parts: seq<seq<Scored>>, k: int): (r: seq<seq<Scored>>)
    ensures |r| == |parts|
    ensures forall i :: 0 <= i < |parts| ==> r[i] == SecondsOf(Combiner(key, parts[i], k))
  {
    seq(|parts|, i requires 0 <= i < |parts| => SecondsOf(Combiner(key, parts[i], k)))
  }

  /** The combiner is safe for k >= 0: however the group is split into parts, the
      reducer of the combined parts returns what it returns on the whole group. */
  lemma CombinerSafe(key: string, parts: seq<seq<Scored>>, k: int)
    requires k >= 0
    ensures Reducer(key, Flatten(Combined(key, parts, k)), k) == Reducer(key, Flatten(parts), k)
  {
    assert Combined(key, parts, k) == TopKEach(parts, k);
    TopKOfParts(parts, k);
  }

  /** The reducer does not depend on the order in which the values arrive. */
  lemma ReducerAnyOrder(key: string, a: seq<Scored>, b: seq<Scored>, k: int)
    requires multiset(a) == multiset(b)
    ensures Reducer(key, a, k) == Reducer(key, b, k)
  {
    TopKPermutation(a, b, k);
  }
}
