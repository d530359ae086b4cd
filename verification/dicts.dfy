/**
 * The dictionary idiom `make` is written in: a run of statements
 * `if value is not None: d[key] = value`, each one an optional field laid
 * over the dictionary built so far.
 */
module Dicts {
  import opened Wrappers

  /** One optional field: its key and the value, None when the argument was not given. */
  type Field<V> = (string, Option<V>)

  /** `if value is not None: d[key] = value`. */
  function Put<V>(d: map<string, V>, f: Field<V>): map<string, V> {
    match f.1
    case None => d
    case Some(v) => d[f.0 := v]
  }

  /** The fields laid over d in order, each one set only when given. */
  function Overlay<V>(d: map<string, V>, fields: seq<Field<V>>): map<string, V>
    decreases |fields|
  {
    if fields == [] then d else Overlay(Put(d, fields[0]), fields[1..])
  }

  /** No key is written by two fields. */
  predicate DistinctKeys<V>(fields: seq<Field<V>>) {
    forall i, j :: 0 <= i < j < |fields| ==> fields[i].0 != fields[j].0
  }

  /** Some field of the list with key k is given. */
  predicate GivenKey<V>(fields: seq<Field<V>>, k: string) {
    exists i :: 0 <= i < |fields| && fields[i].0 == k && fields[i].1.Some?
  }

  /** A key none of the fields gives keeps its entry, or its absence. */
  lemma {:induction false} OverlayKeeps<V>(d: map<string, V>, fields: seq<Field<V>>, k: string)
    requires !GivenKey(fields, k)
    ensures k in Overlay(d, fields) <==> k in d
    ensures k in d ==> Overlay(d, fields)[k] == d[k]
    decreases |fields|
  {
    if fields != [] {
      assert fields[0].0 != k || fields[0].1.None?;
      OverlayKeeps(Put(d, fields[0]), fields[1..], k);
    }
  }

  /** A given field of a list without repeated keys is what its key ends up holding. */
  lemma {:induction false} OverlaySets<V>(d: map<string, V>, fields: seq<Field<V>>, i: nat)
    requires DistinctKeys(fields) && i < |fields| && fields[i].1.Some?
    ensures fields[i].0 in Overlay(d, fields) && Overlay(d, fields)[fields[i].0] == fields[i].1.value
    decreases |fields|
  {
    var rest := fields[1..];
    assert DistinctKeys(rest) by {
      forall x, y | 0 <= x < y < |rest| ensures rest[x].0 != rest[y].0 {
        assert rest[x] == fields[x + 1] && rest[y] == fields[y + 1];
      }
    }
    if i == 0 {
      assert !GivenKey(rest, fields[0].0) by {
        forall x | 0 <= x < |rest| ensures rest[x].0 != fields[0].0 {
          assert rest[x] == fields[x + 1];
        }
      }
      OverlayKeeps(Put(d, fields[0]), rest, fields[0].0);
    } else {
      assert rest[i - 1] == fields[i];
      OverlaySets(Put(d, fields[0]), rest, i - 1);
    }
  }

  /** Every key of the result was in d or is given by a field. */
  lemma {:induction false} OverlayKeys<V>(d: map<string, V>, fields: seq<Field<V>>)
    ensures forall k :: k in Overlay(d, fields) <==> k in d || GivenKey(fields, k)
    decreases |fields|
  {
    if fields != [] {
      var rest := fields[1..];
      OverlayKeys(Put(d, fields[0]), rest);
      forall k ensures GivenKey(fields, k) <==> (fields[0].0 == k && fields[0].1.Some?) || GivenKey(rest, k) {
        if i :| 0 <= i < |fields| && fields[i].0 == k && fields[i].1.Some? {
          if i > 0 {
            assert rest[i - 1] == fields[i];
          }
        }
        if i :| 0 <= i < |rest| && rest[i].0 == k && rest[i].1.Some? {
          assert fields[i + 1] == rest[i];
        }
      }
    }
  }

  /** Two fields, written out. */
  lemma Overlay2<V>(d: map<string, V>, f1: Field<V>, f2: Field<V>)
    ensures Overlay(d, [f1, f2]) == Put(Put(d, f1), f2)
  {
    assert [f2][1..] == [];
    assert Overlay(Put(d, f1), [f2]) == Put(Put(d, f1), f2);
    assert [f1, f2][1..] == [f2];
  }

  /** Three fields, written out. */
  lemma Overlay3<V>(d: map<string, V>, f1: Field<V>, f2: Field<V>, f3: Field<V>)
    ensures Overlay(d, [f1, f2, f3]) == Put(Put(Put(d, f1), f2), f3)
  {
    Overlay2(Put(d, f1), f2, f3);
    assert [f1, f2, f3][1..] == [f2, f3];
  }

  /** Four fields, written out. */
  lemma Overlay4<V>(d: map<string, V>, f1: Field<V>, f2: Field<V>, f3: Field<V>, f4: Field<V>)
    ensures Overlay(d, [f1, f2, f3, f4]) == Put(Put(Put(Put(d, f1), f2), f3), f4)
  {
    Overlay3(Put(d, f1), f2, f3, f4);
    assert [f1, f2, f3, f4][1..] == [f2, f3, f4];
  }

  /** Eight fields: four and four. */
  lemma Overlay8<V>(d: map<string, V>, f1: Field<V>, f2: Field<V>, f3: Field<V>, f4: Field<V>,
                    f5: Field<V>, f6: Field<V>, f7: Field<V>, f8: Field<V>)
    ensures Overlay(d, [f1, f2, f3, f4, f5, f6, f7, f8])
      == Put(Put(Put(Put(Put(Put(Put(Put(d, f1), f2), f3), f4), f5), f6), f7), f8)
  {
    OverlayAppend(d, [f1, f2, f3, f4], [f5, f6, f7, f8]);
    assert [f1, f2, f3, f4] + [f5, f6, f7, f8] == [f1, f2, f3, f4, f5, f6, f7, f8];
    Overlay4(d, f1, f2, f3, f4);
    Overlay4(Put(Put(Put(Put(d, f1), f2), f3), f4), f5, f6, f7, f8);
  }

  /** Laying a + b is laying a, then b. */
  lemma {:induction false} OverlayAppend<V>(d: map<string, V>, a: seq<Field<V>>, b: seq<Field<V>>)
    ensures Overlay(d, a + b) == Overlay(Overlay(d, a), b)
    decreases |a|
  {
    if a == [] {
      assert a + b == b;
    } else {
      assert (a + b)[0] == a[0] && (a + b)[1..] == a[1..] + b;
      OverlayAppend(Put(d, a[0]), a[1..], b);
    }
  }

  /** With no repeated keys, a field's key holds its value when given and keeps its entry otherwise. */
  lemma OverlayAt<V>(d: map<string, V>, fields: seq<Field<V>>, i: nat)
    requires DistinctKeys(fields) && i < |fields|
    ensures fields[i].1.Some? ==> fields[i].0 in Overlay(d, fields) && Overlay(d, fields)[fields[i].0] == fields[i].1.value
    ensures fields[i].1.None? ==>
      && (fields[i].0 in Overlay(d, fields) <==> fields[i].0 in d)
      && (fields[i].0 in d ==> Overlay(d, fields)[fields[i].0] == d[fields[i].0])
  {
    if fields[i].1.Some? {
      OverlaySets(d, fields, i);
    } else {
      OverlayKeeps(d, fields, fields[i].0);
    }
  }
}
