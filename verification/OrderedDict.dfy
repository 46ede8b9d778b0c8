/** A Python dict: a map that remembers the order in which its keys were first inserted. */
module OrderedDict {
  import opened Wrappers

  datatype Dict<V> = Dict(keys: seq<string>, vals: map<string, V>)

  function Empty<V>(): Dict<V> {
    Dict([], map[])
  }

  ghost predicate Valid<V>(d: Dict<V>) {
    Distinct(d.keys) && forall k :: k in d.keys <==> k in d.vals
  }

  /** Assignment keeps the place of a key that is already there and appends one that is not. */
  function Put<V>(d: Dict<V>, key: string, v: V): Dict<V> {
    Dict(if key in d.vals then d.keys else d.keys + [key], d.vals[key := v])
  }

  function Get<V>(d: Dict<V>, key: string): Option<V> {
    if key in d.vals then Some(d.vals[key]) else None
  }

  function Filter(keys: seq<string>, out: string): seq<string> {
    if keys == [] then []
    else if keys[0] == out then Filter(keys[1..], out)
    else [keys[0]] + Filter(keys[1..], out)
  }

  function Remove<V>(d: Dict<V>, key: string): Dict<V> {
    Dict(Filter(d.keys, key), d.vals - {key})
  }

  lemma {:induction false} FilterMembers(keys: seq<string>, out: string)
    ensures forall k :: k in Filter(keys, out) <==> k in keys && k != out
  {
    if keys != [] {
      FilterMembers(keys[1..], out);
      assert keys == [keys[0]] + keys[1..];
    }
  }

  lemma {:induction false} FilterKeepsPlaces(keys: seq<string>, out: string, i: nat, j: nat) returns (p: nat, q: nat)
    requires i < j < |Filter(keys, out)|
    ensures p < q < |keys| && keys[p] == Filter(keys, out)[i] && keys[q] == Filter(keys, out)[j]
  {
    var rest := Filter(keys[1..], out);
    if keys[0] == out {
      p, q := FilterKeepsPlaces(keys[1..], out, i, j);
      p, q := p + 1, q + 1;
    } else if i == 0 {
      FilterMembers(keys[1..], out);
      assert rest[j - 1] in rest;
      var k :| 0 <= k < |keys[1..]| && keys[1..][k] == rest[j - 1];
      p, q := 0, k + 1;
    } else {
      p, q := FilterKeepsPlaces(keys[1..], out, i - 1, j - 1);
      p, q := p + 1, q + 1;
    }
  }

  lemma {:induction false} FilterDistinct(keys: seq<string>, out: string)
    requires Distinct(keys)
    ensures Distinct(Filter(keys, out))
  {
    if keys != [] {
      FilterDistinct(keys[1..], out);
      FilterMembers(keys[1..], out);
      var rest := Filter(keys[1..], out);
      forall j | 0 <= j < |rest| ensures keys[0] != rest[j] {
        var k := rest[j];
        assert k in rest;
        assert k in keys[1..];
      }
    }
  }

  lemma {:induction false} FilterOfOther(keys: seq<string>, out: string)
    requires out !in keys
    ensures Filter(keys, out) == keys
  {
    if keys != [] {
      var head := keys[0];
      assert head in keys;
      FilterOfOther(keys[1..], out);
    }
  }

  lemma {:induction false} FilterAppend(a: seq<string>, b: seq<string>, out: string)
    ensures Filter(a + b, out) == Filter(a, out) + Filter(b, out)
  {
    if a == [] {
      assert a + b == b;
      assert Filter(a, out) + Filter(b, out) == Filter(b, out);
    } else {
      FilterAppend(a[1..], b, out);
      assert (a + b)[1..] == a[1..] + b;
      if a[0] != out {
        assert [a[0]] + (Filter(a[1..], out) + Filter(b, out)) == [a[0]] + Filter(a[1..], out) + Filter(b, out);
      }
    }
  }

  lemma PutIsValid<V>(d: Dict<V>, key: string, v: V)
    requires Valid(d)
    ensures Valid(Put(d, key, v))
  {
  }

  lemma RemoveIsValid<V>(d: Dict<V>, key: string)
    requires Valid(d)
    ensures Valid(Remove(d, key))
  {
    FilterMembers(d.keys, key);
    FilterDistinct(d.keys, key);
  }
}
