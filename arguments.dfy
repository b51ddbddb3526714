/**
 * The argument bag handed to every hook and to the destination of a
 * pipeline: named values kept in insertion order, each name at most once.
 * Writing a name that is already present overwrites its value in place;
 * nothing is ever removed.
 */
module Arguments {
  import opened Wrappers

  datatype Error = KeyNotFound(key: string) | EmptyContainer

  datatype Bag<V> = Bag(entries: seq<(string, V)>)

  /** The names of `entries`, in order. */
  function KeysOf<V>(entries: seq<(string, V)>): (r: seq<string>)
    ensures |r| == |entries|
    ensures forall i :: 0 <= i < |r| ==> r[i] == entries[i].0
  {
    seq(|entries|, i requires 0 <= i < |entries| => entries[i].0)
  }

  ghost predicate UniqueKeys<V>(entries: seq<(string, V)>) {
    forall i, j :: 0 <= i < j < |entries| ==> entries[i].0 != entries[j].0
  }

  /** The invariant every bag keeps: no name occurs twice. */
  ghost predicate Valid<V>(b: Bag<V>) {
    UniqueKeys(b.entries)
  }

  /** The position of the first entry named `key`, if any. */
  function Find<V>(entries: seq<(string, V)>, key: string): (r: Option<nat>)
    ensures r.Some? ==> r.value < |entries| && entries[r.value].0 == key
    ensures r.Some? ==> forall j :: 0 <= j < r.value ==> entries[j].0 != key
    ensures r.None? <==> key !in KeysOf(entries)
    decreases |entries|
  {
    if entries == [] then None
    else if entries[0].0 == key then Some(0)
    else
      match Find(entries[1..], key)
      case Some(i) => Some(i + 1)
      case None => None
  }

  /** `get`: the value stored under `key`, or `KeyNotFound`. */
  function Get<V>(b: Bag<V>, key: string): (r: Result<V, Error>)
    ensures r.Success? <==> key in KeysOf(b.entries)
    ensures r.Success? ==> (key, r.value) in b.entries
    ensures r.Failure? ==> r.error == KeyNotFound(key)
  {
    match Find(b.entries, key)
    case Some(i) => Success(b.entries[i].1)
    case None => Failure(KeyNotFound(key))
  }

  /** `get` with a fallback, for callers that cannot fail. */
  function GetOr<V>(b: Bag<V>, key: string, default: V): V {
    match Get(b, key)
    case Success(v) => v
    case Failure(_) => default
  }

  /**
   * `set`: overwrite the value of an existing name where it stands, or
   * append a new name at the end.
   */
  function Set<V>(b: Bag<V>, key: string, value: V): (r: Bag<V>)
    ensures Get(r, key) == Success(value)
    ensures forall k :: k != key ==> Get(r, k) == Get(b, k)
    ensures KeysOf(r.entries) ==
              if key in KeysOf(b.entries) then KeysOf(b.entries) else KeysOf(b.entries) + [key]
    ensures Valid(b) ==> Valid(r)
  {
    match Find(b.entries, key)
    case Some(i) =>
      var r := Bag(b.entries[i := (key, value)]);
      SameKeysSameFind(b.entries, r.entries);
      r
    case None =>
      var r := Bag(b.entries + [(key, value)]);
      AppendedFind(b.entries, (key, value));
      r
  }

  /** Two entry lists with the same names, in the same order, answer every lookup alike. */
  lemma SameKeysSameFind<V>(e1: seq<(string, V)>, e2: seq<(string, V)>)
    requires KeysOf(e1) == KeysOf(e2)
    ensures forall k :: Find(e1, k) == Find(e2, k)
  {
    forall k ensures Find(e1, k) == Find(e2, k) {
      if e1 != [] {
        assert KeysOf(e1[1..]) == KeysOf(e1)[1..];
        assert KeysOf(e2[1..]) == KeysOf(e2)[1..];
        SameKeysSameFind(e1[1..], e2[1..]);
      }
    }
  }

  /** Appending an entry leaves every lookup of another name unchanged. */
  lemma AppendedFind<V>(e: seq<(string, V)>, x: (string, V))
    ensures KeysOf(e + [x]) == KeysOf(e) + [x.0]
    ensures forall k :: k != x.0 ==> Find(e + [x], k) == Find(e, k)
  {
    assert KeysOf(e + [x]) == KeysOf(e) + [x.0];
    forall k | k != x.0 ensures Find(e + [x], k) == Find(e, k) {
      if e != [] {
        assert (e + [x])[1..] == e[1..] + [x];
        AppendedFind(e[1..], x);
      }
    }
  }

  /** `new ArgumentBag($params)`: the entries of `params` set one after another. */
  function Of<V>(params: seq<(string, V)>): (r: Bag<V>)
    ensures Valid(r)
    ensures UniqueKeys(params) ==> r.entries == params
    decreases |params|
  {
    if params == [] then Bag([])
    else
      var n := |params| - 1;
      var prefix := Of(params[..n]);
      FreshLastKey(params);
      Set(prefix, params[n].0, params[n].1)
  }

  /** With unique names, the last name of `params` is not among the earlier ones. */
  lemma FreshLastKey<V>(params: seq<(string, V)>)
    requires params != []
    ensures UniqueKeys(params) ==> UniqueKeys(params[..|params| - 1])
    ensures UniqueKeys(params) ==> params[|params| - 1].0 !in KeysOf(params[..|params| - 1])
  {
  }

  /** A bag built from one entry holds that entry alone, and `get` of its name finds the value. */
  lemma SingleEntry<V>(name: string, value: V)
    ensures Of([(name, value)]).entries == [(name, value)]
    ensures Get(Of([(name, value)]), name) == Success(value)
  {
    assert UniqueKeys([(name, value)]);
    assert Find([(name, value)], name) == Some(0);
  }

  /** A bag built from two distinct names holds each name's value. */
  lemma TwoEntries<V>(n1: string, v1: V, n2: string, v2: V)
    requires n1 != n2
    ensures Get(Of([(n1, v1), (n2, v2)]), n1) == Success(v1)
    ensures Get(Of([(n1, v1), (n2, v2)]), n2) == Success(v2)
  {
    var params := [(n1, v1), (n2, v2)];
    assert UniqueKeys(params);
    assert Find(Of(params).entries, n1) == Some(0);
    assert Find(Of(params).entries, n2) == Some(1);
  }

  /**
   * `all`: a snapshot of the entries, names in insertion order, each with
   * the value `get` returns for it.
   */
  function All<V>(b: Bag<V>): (r: seq<(string, V)>)
    ensures KeysOf(r) == KeysOf(b.entries)
    ensures Valid(b) ==> forall i :: 0 <= i < |r| ==> Get(b, r[i].0) == Success(r[i].1)
  {
    UniqueFind(b.entries);
    b.entries
  }

  /** With unique names, the entry at each position is the one found for its name. */
  lemma UniqueFind<V>(entries: seq<(string, V)>)
    ensures UniqueKeys(entries) ==> forall i :: 0 <= i < |entries| ==> Find(entries, entries[i].0) == Some(i)
  {
  }

  /** `isEmpty`: true exactly when no name can be read from the bag. */
  function IsEmpty<V>(b: Bag<V>): (r: bool)
    ensures r ==> forall k :: Get(b, k).Failure?
    ensures !r ==> |b.entries| > 0 && Get(b, KeysOf(b.entries)[0]).Success?
  {
    |b.entries| == 0
  }

  /** `first`: the value under the first name inserted. */
  function First<V>(b: Bag<V>): (r: Result<V, Error>)
    ensures r.Failure? <==> IsEmpty(b)
    ensures r.Failure? ==> r.error == EmptyContainer
    ensures r.Success? ==> r == Get(b, KeysOf(b.entries)[0])
  {
    if b.entries == [] then Failure(EmptyContainer) else Success(b.entries[0].1)
  }

  /** `last`: the value under the most recently inserted name. */
  function Last<V>(b: Bag<V>): (r: Result<V, Error>)
    ensures r.Failure? <==> IsEmpty(b)
    ensures r.Failure? ==> r.error == EmptyContainer
    ensures r.Success? && Valid(b) ==> r == Get(b, KeysOf(b.entries)[|b.entries| - 1])
  {
    if b.entries == [] then Failure(EmptyContainer) else Success(b.entries[|b.entries| - 1].1)
  }

  /** The bag the argument-bag tests build: three names in insertion order. */
  function SampleParams(): seq<(string, string)> {
    [("foo", "bar"), ("faz", "baz"), ("fux", "blox")]
  }

  /**
   * The argument-bag tests: emptiness, get, overwrite, first and last, and
   * the full snapshot in insertion order.
   */
  lemma SampleBagBehaviour()
    ensures !IsEmpty(Of(SampleParams())) && IsEmpty(Of<string>([]))
    ensures Get(Of(SampleParams()), "foo") == Success("bar")
    ensures Get(Of(SampleParams()), "faz") == Success("baz")
    ensures Get(Set(Of(SampleParams()), "foo", "baz"), "foo") == Success("baz")
    ensures First(Of(SampleParams())) == Success("bar")
    ensures Last(Of(SampleParams())) == Success("blox")
    ensures All(Of(SampleParams())) == SampleParams()
  {
    var ps := SampleParams();
    assert UniqueKeys(ps);
    var bag := Of(ps);
    assert bag.entries == ps;
    assert Find(ps, "foo") == Some(0);
    assert Find(ps, "faz") == Some(1);
  }
}
