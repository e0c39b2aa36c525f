/**
 * A Python `dict` with string keys, as the list of its items in insertion
 * order. The JSON objects of the chatbot (the page catalog, the bundle of page
 * contents, the bodies of its replies) are all dicts.
 */
module PyDict {
  import opened Wrappers

  datatype Dict<V> = Dict(items: seq<(string, V)>) {

    /** No key appears twice. */
    ghost predicate Valid()
    {
      forall i, j :: 0 <= i < j < |items| ==> items[i].0 != items[j].0
    }

    /** The position of key `k`, if it is present. */
    function IndexOf(k: string): (r: Option<nat>)
      ensures r.Some? ==> r.value < |items| && items[r.value].0 == k
      ensures r.None? <==> forall i :: 0 <= i < |items| ==> items[i].0 != k
    {
      FindKey(items, k)
    }

    /** Python's `k in d`. */
    predicate HasKey(k: string)
    {
      IndexOf(k).Some?
    }

    /** Python's `d[k]` on a present key. */
    function Get(k: string): V
      requires HasKey(k)
    {
      items[IndexOf(k).value].1
    }

    /**
     * Python's `d[k] = v`: a new key goes to the end, an existing key keeps its
     * place and only its value changes.
     */
    function Put(k: string, v: V): (d: Dict<V>)
      ensures IndexOf(k).None? ==> d.items == items + [(k, v)]
      ensures IndexOf(k).Some? ==> d.items == items[IndexOf(k).value := (k, v)]
    {
      match IndexOf(k)
      case None => Dict(items + [(k, v)])
      case Some(i) => Dict(items[i := (k, v)])
    }
  }

  /**
   * After `d[k] = v` the keys are those of `d` together with `k`, still
   * without repetition, and `d[k]` is `v`.
   */
  lemma PutSemantics<V>(d: Dict<V>, k: string, v: V)
    ensures d.Valid() ==> d.Put(k, v).Valid()
    ensures forall k' :: d.Put(k, v).HasKey(k') <==> d.HasKey(k') || k' == k
    ensures d.Put(k, v).HasKey(k) && d.Put(k, v).Get(k) == v
  {
    match d.IndexOf(k)
    case None => AppendKeys(d.items, k, v);
    case Some(i) => ReplaceKeys(d.items, i, k, v);
  }

  /** The first position of `k` among the keys of `items`. */
  function FindKey<V>(items: seq<(string, V)>, k: string): (r: Option<nat>)
    ensures r.Some? ==> r.value < |items| && items[r.value].0 == k
    ensures r.None? <==> forall i :: 0 <= i < |items| ==> items[i].0 != k
    ensures r.Some? ==> forall i :: 0 <= i < r.value ==> items[i].0 != k
  {
    if items == [] then None
    else if items[0].0 == k then Some(0)
    else
      match FindKey(items[1..], k)
      case None => None
      case Some(i) => Some(i + 1)
  }

  /** Appending a new item adds exactly its key, which is then found at the end. */
  lemma AppendKeys<V>(items: seq<(string, V)>, k: string, v: V)
    requires FindKey(items, k).None?
    ensures forall k' :: FindKey(items + [(k, v)], k').Some? <==> FindKey(items, k').Some? || k' == k
    ensures FindKey(items + [(k, v)], k) == Some(|items|)
  {
    var longer := items + [(k, v)];
    forall k' ensures FindKey(longer, k').Some? <==> FindKey(items, k').Some? || k' == k {
      if FindKey(items, k').Some? {
        var j := FindKey(items, k').value;
        assert longer[j].0 == k';
      }
      if k' == k {
        assert longer[|items|].0 == k;
      }
    }
    assert longer[|items|].0 == k;
  }

  /** Replacing the value of a present key keeps the set of keys and the key's position. */
  lemma ReplaceKeys<V>(items: seq<(string, V)>, i: nat, k: string, v: V)
    requires i < |items| && FindKey(items, k) == Some(i)
    ensures forall k' :: FindKey(items[i := (k, v)], k').Some? <==> FindKey(items, k').Some?
    ensures FindKey(items[i := (k, v)], k) == Some(i)
  {
    var updated := items[i := (k, v)];
    forall k' ensures FindKey(updated, k').Some? <==> FindKey(items, k').Some? {
      if FindKey(items, k').Some? {
        var j := FindKey(items, k').value;
        assert updated[j].0 == k';
      }
      if FindKey(updated, k').Some? {
        var j := FindKey(updated, k').value;
        assert items[j].0 == k';
      }
    }
    assert updated[i].0 == k;
  }

  /** `{}` */
  function Empty<V>(): (d: Dict<V>)
    ensures d.Valid() && d.items == []
  {
    Dict([])
  }

  /** `{k: v}` */
  function Single<V>(k: string, v: V): (d: Dict<V>)
    ensures d.Valid() && d.items == [(k, v)]
    ensures d.HasKey(k) && d.Get(k) == v
  {
    PutSemantics(Empty(), k, v);
    Empty().Put(k, v)
  }

  /**
   * A dict display `{k0: v0, k1: v1, ...}`: the pairs are stored left to
   * right, so a repeated key keeps its first position and its last value.
   */
  function FromPairs<V>(pairs: seq<(string, V)>): (d: Dict<V>)
    ensures d.Valid()
    ensures |pairs| > 0 ==> d.HasKey(pairs[|pairs| - 1].0) && d.Get(pairs[|pairs| - 1].0) == pairs[|pairs| - 1].1
    decreases |pairs|
  {
    if pairs == [] then Empty()
    else
      var last := pairs[|pairs| - 1];
      PutSemantics(FromPairs(pairs[..|pairs| - 1]), last.0, last.1);
      FromPairs(pairs[..|pairs| - 1]).Put(last.0, last.1)
  }

  /**
   * A display that names one key twice is the one-entry dict of the second
   * value: the first value is lost without an error.
   */
  lemma RepeatedKeyKeepsLastValue<V>(k: string, first: V, second: V)
    ensures FromPairs([(k, first), (k, second)]) == Single(k, second)
  {
    assert [(k, first), (k, second)][..1] == [(k, first)];
    assert [(k, first)][..0] == [];
    assert FromPairs([(k, first)]) == Single(k, first);
  }
}
