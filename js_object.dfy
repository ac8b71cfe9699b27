/** Plain JavaScript objects used as string-keyed dictionaries. An object is an
    association list in insertion order: `Object.assign`, `obj[k] = v` and
    lodash's `_.map(obj, f)` all follow that order. */
module JsObject {
  import opened Wrappers
  import Strings

  type Obj<V> = seq<(string, V)>

  /** `Object.keys(o)` */
  function Keys<V>(o: Obj<V>): (ks: seq<string>)
    ensures |ks| == |o| && forall i :: 0 <= i < |o| ==> ks[i] == o[i].0
  {
    if o == [] then [] else [o[0].0] + Keys(o[1..])
  }

  /** No key is stored twice: what every object built by `Put` satisfies. */
  predicate UniqueKeys<V>(o: Obj<V>)
  {
    forall i, j :: 0 <= i < j < |o| ==> o[i].0 != o[j].0
  }

  /** `o[k]`, with `None` for a missing own property. */
  function Get<V>(o: Obj<V>, k: string): (r: Option<V>)
    ensures r.None? <==> k !in Keys(o)
  {
    if o == [] then None
    else if o[0].0 == k then Some(o[0].1)
    else Get(o[1..], k)
  }

  /** A value found for `k` is the value of an entry with key `k`. */
  lemma {:induction false} GetEntry<V>(o: Obj<V>, k: string)
    requires Get(o, k).Some?
    ensures exists i :: 0 <= i < |o| && o[i] == (k, Get(o, k).value)
  {
    if o[0].0 != k {
      GetEntry(o[1..], k);
      var i :| 0 <= i < |o[1..]| && o[1..][i] == (k, Get(o, k).value);
      assert o[i + 1] == o[1..][i];
    }
  }

  /** `o[k] = v`: an existing key keeps its position, a new key goes last. */
  function Put<V>(o: Obj<V>, k: string, v: V): (r: Obj<V>)
    ensures Get(r, k) == Some(v)
    ensures forall k' :: k' != k ==> Get(r, k') == Get(o, k')
    ensures Keys(r) == if k in Keys(o) then Keys(o) else Keys(o) + [k]
  {
    InsertGet(o, k, v);
    InsertOthers(o, k, v);
    InsertKeys(o, k, v);
    Insert(o, k, v)
  }

  /** The assignment itself: the first entry with key `k` is replaced, or one is appended. */
  function Insert<V>(o: Obj<V>, k: string, v: V): Obj<V>
  {
    if o == [] then [(k, v)]
    else if o[0].0 == k then [(k, v)] + o[1..]
    else [o[0]] + Insert(o[1..], k, v)
  }

  lemma {:induction false} InsertGet<V>(o: Obj<V>, k: string, v: V)
    ensures Get(Insert(o, k, v), k) == Some(v)
  {
    if o != [] && o[0].0 != k {
      var r := Insert(o, k, v);
      assert r[0] == o[0] && r[1..] == Insert(o[1..], k, v);
      InsertGet(o[1..], k, v);
    }
  }

  lemma {:induction false} InsertOthers<V>(o: Obj<V>, k: string, v: V)
    ensures forall k' :: k' != k ==> Get(Insert(o, k, v), k') == Get(o, k')
  {
    var r := Insert(o, k, v);
    if o == [] {
    } else if o[0].0 == k {
      assert r[1..] == o[1..];
    } else {
      assert r[0] == o[0] && r[1..] == Insert(o[1..], k, v);
      InsertOthers(o[1..], k, v);
    }
  }

  lemma {:induction false} InsertKeys<V>(o: Obj<V>, k: string, v: V)
    ensures Keys(Insert(o, k, v)) == if k in Keys(o) then Keys(o) else Keys(o) + [k]
  {
    var r := Insert(o, k, v);
    if o == [] {
    } else if o[0].0 == k {
      assert Keys(r) == [k] + Keys(o[1..]);
    } else {
      var t := Insert(o[1..], k, v);
      assert r[0] == o[0] && r[1..] == t;
      InsertKeys(o[1..], k, v);
      assert Keys(r) == [o[0].0] + Keys(t);
      assert Keys(o) == [o[0].0] + Keys(o[1..]);
    }
  }

  lemma PutKeepsUnique<V>(o: Obj<V>, k: string, v: V)
    requires UniqueKeys(o)
    ensures UniqueKeys(Put(o, k, v))
  {
    var r := Put(o, k, v);
    assert forall i :: 0 <= i < |r| ==> r[i].0 == Keys(r)[i];
    assert forall i :: 0 <= i < |o| ==> o[i].0 == Keys(o)[i];
  }

  /** Putting a key the object does not hold appends it. */
  lemma {:induction false} PutAbsent<V>(o: Obj<V>, k: string, v: V)
    requires k !in Keys(o)
    ensures Put(o, k, v) == o + [(k, v)]
  {
    if o != [] {
      var ks := Keys(o[1..]);
      assert Keys(o) == [o[0].0] + ks;
      assert k !in ks;
      PutAbsent(o[1..], k, v);
      assert o[0].0 != k;
      assert Put(o, k, v) == [o[0]] + Put(o[1..], k, v);
    }
  }

  /** `Object.assign(o, p)`: the properties of `p`, in order, put into `o`. */
  function Assign<V>(o: Obj<V>, p: Obj<V>): Obj<V>
    decreases |p|
  {
    if p == [] then o else Assign(Put(o, p[0].0, p[0].1), p[1..])
  }

  /** The value of the last pair with key `k`: the one a left-to-right sequence of puts leaves. */
  function LastValue<V>(p: Obj<V>, k: string): Option<V>
  {
    if p == [] then None
    else if p[|p| - 1].0 == k then Some(p[|p| - 1].1)
    else LastValue(p[..|p| - 1], k)
  }

  lemma LastValueCons<V>(x: (string, V), p: Obj<V>, k: string)
    ensures LastValue([x] + p, k) == if LastValue(p, k).Some? then LastValue(p, k)
                                     else if x.0 == k then Some(x.1) else None
    decreases |p|
  {
    if p != [] {
      assert ([x] + p)[..|p|] == [x] + p[..|p| - 1];
      LastValueCons(x, p[..|p| - 1], k);
    }
  }

  lemma LastValueHead<V>(p: Obj<V>, k: string)
    requires p != []
    ensures LastValue(p, k) == if LastValue(p[1..], k).Some? then LastValue(p[1..], k)
                                else if p[0].0 == k then Some(p[0].1) else None
  {
    assert [p[0]] + p[1..] == p;
    LastValueCons(p[0], p[1..], k);
  }

  /** In an object without repeated keys the last pair for a key is also the first. */
  lemma {:induction false} LastValueUnique<V>(p: Obj<V>, k: string)
    requires UniqueKeys(p)
    ensures LastValue(p, k) == Get(p, k)
  {
    if p != [] {
      var t := p[1..];
      assert UniqueKeys(t) by {
        forall i, j | 0 <= i < j < |t| ensures t[i].0 != t[j].0 {
          assert t[i] == p[i + 1] && t[j] == p[j + 1];
        }
      }
      LastValueUnique(t, k);
      LastValueCons(p[0], t, k);
      assert [p[0]] + t == p;
      if p[0].0 == k {
        forall i | 0 <= i < |t| ensures Keys(t)[i] != k {
          assert t[i] == p[i + 1];
        }
      }
    }
  }

  /** `Object.assign(o, p)` with `p` an object: a key has its value in `p`, or else in `o`. */
  lemma AssignGetUnique<V>(o: Obj<V>, p: Obj<V>, k: string)
    requires UniqueKeys(p)
    ensures Get(Assign(o, p), k) == if Get(p, k).Some? then Get(p, k) else Get(o, k)
  {
    AssignGet(o, p, k);
    LastValueUnique(p, k);
  }

  /** Assigning properties whose keys are all new appends them in order. */
  lemma {:induction false} AssignFresh<V>(o: Obj<V>, p: Obj<V>)
    requires UniqueKeys(o + p)
    ensures Assign(o, p) == o + p
    decreases |p|
  {
    if p != [] {
      var o' := o + [p[0]];
      FirstNewKey(o, p);
      PutAbsent(o, p[0].0, p[0].1);
      assert Assign(o, p) == Assign(o', p[1..]);
      AppendHead(o, p);
      AssignFresh(o', p[1..]);
    }
  }

  lemma AppendHead<T>(o: seq<T>, p: seq<T>)
    requires p != []
    ensures (o + [p[0]]) + p[1..] == o + p
  {
    assert p == [p[0]] + p[1..];
  }

  lemma FirstNewKey<V>(o: Obj<V>, p: Obj<V>)
    requires UniqueKeys(o + p) && p != []
    ensures p[0].0 !in Keys(o)
  {
    forall i | 0 <= i < |o| ensures Keys(o)[i] != p[0].0 {
      assert (o + p)[i] == o[i] && (o + p)[|o|] == p[0];
    }
  }

  /** After `Object.assign(o, p)` a key has its last value in `p`, or else its value in `o`:
      later assignments win. */
  lemma {:induction false} AssignGet<V>(o: Obj<V>, p: Obj<V>, k: string)
    ensures Get(Assign(o, p), k) == if LastValue(p, k).Some? then LastValue(p, k) else Get(o, k)
    decreases |p|
  {
    if p != [] {
      var o' := Put(o, p[0].0, p[0].1);
      var last := LastValue(p[1..], k);
      assert Assign(o, p) == Assign(o', p[1..]);
      AssignGet(o', p[1..], k);
      LastValueHead(p, k);
      if last.Some? {
        assert LastValue(p, k) == last;
      } else if p[0].0 == k {
        assert LastValue(p, k) == Some(p[0].1) == Get(o', k);
      } else {
        assert LastValue(p, k) == None;
        assert Get(o', k) == Get(o, k);
      }
    }
  }

  /** `Object.assign` keeps the keys already present in their places and appends new ones. */
  lemma {:induction false} AssignKeysPrefix<V>(o: Obj<V>, p: Obj<V>)
    ensures |Keys(Assign(o, p))| >= |Keys(o)| && Keys(Assign(o, p))[..|o|] == Keys(o)
    decreases |p|
  {
    if p != [] {
      var o' := Put(o, p[0].0, p[0].1);
      AssignKeysPrefix(o', p[1..]);
      PutKeysPrefix(o, p[0].0, p[0].1);
      PrefixOfPrefix(Keys(Assign(o', p[1..])), Keys(o'), Keys(o));
    }
  }

  lemma PutKeysPrefix<V>(o: Obj<V>, k: string, v: V)
    ensures |Put(o, k, v)| >= |o| && Keys(Put(o, k, v))[..|o|] == Keys(o)
  {
  }

  lemma PrefixOfPrefix<T>(a: seq<T>, b: seq<T>, c: seq<T>)
    requires |a| >= |b| && a[..|b|] == b && |b| >= |c| && b[..|c|] == c
    ensures a[..|c|] == c
  {
    assert a[..|c|] == a[..|b|][..|c|];
  }

  /** `Object.assign` into an object without repeated keys leaves none. */
  lemma {:induction false} AssignKeepsUnique<V>(o: Obj<V>, p: Obj<V>)
    requires UniqueKeys(o)
    ensures UniqueKeys(Assign(o, p))
    decreases |p|
  {
    if p != [] {
      PutKeepsUnique(o, p[0].0, p[0].1);
      AssignKeepsUnique(Put(o, p[0].0, p[0].1), p[1..]);
    }
  }

  /** lodash `_.split(e, '=', 2)` followed by the `length === 2` filter: a key and a value,
      or nothing when `e` holds no `=`. */
  function PairOf(e: string): Option<(string, string)>
  {
    var parts := Strings.SplitLimit(e, '=', 2);
    if |parts| == 2 then Some((parts[0], parts[1])) else None
  }

  /** An entry is kept iff it holds a `=`; the key is the text before the first `=`, and the
      value the text after it up to the next `=` (the split limit drops the rest). */
  lemma PairOfSpec(e: string)
    ensures PairOf(e).Some? <==> '=' in e
    ensures PairOf(e).Some? ==>
      var (k, v) := PairOf(e).value;
      '=' !in k && '=' !in v && Strings.StartsWith(e, k + "=" + v) &&
      (|e| == |k| + 1 + |v| || e[|k| + 1 + |v|] == '=')
  {
    Strings.SplitHead(e, '=');
    if '=' in e {
      var parts := Strings.Split(e, '=');
      var rest := parts[1..];
      Strings.SplitHead(Strings.Join(rest, "="), '=');
      var tail := Strings.Join(rest, "=");
      assert e == parts[0] + "=" + tail;
      Strings.JoinSplit(tail, '=');
      Strings.SplitJoin(rest, '=');
      assert Strings.Split(tail, '=')[0] == rest[0];
      if '=' in tail {
        assert tail == rest[0] + "=" + Strings.Join(Strings.Split(tail, '=')[1..], "=");
        assert e == parts[0] + "=" + rest[0] + "=" + Strings.Join(Strings.Split(tail, '=')[1..], "=");
        assert e[..|parts[0]| + 1 + |rest[0]|] == parts[0] + "=" + rest[0];
      } else {
        assert tail == rest[0];
      }
    }
  }

  /** A `key=value` entry whose parts hold no `=` reads back as that pair. */
  lemma PairOfFormat(k: string, v: string)
    requires '=' !in k && '=' !in v
    ensures PairOf(k + "=" + v) == Some((k, v))
  {
    Strings.SplitJoin([k, v], '=');
    assert Strings.Join([k, v], "=") == k + "=" + v;
  }

  /** The kept pairs of a list of `key=value` entries, in order. */
  function Pairs(entries: seq<string>): (r: Obj<string>)
    ensures |r| <= |entries|
  {
    if entries == [] then []
    else match PairOf(entries[0])
      case Some(kv) => [kv] + Pairs(entries[1..])
      case None => Pairs(entries[1..])
  }

  /** The object built from `key=value` entries: each entry is split at `=` with a limit of
      two pieces, entries without `=` are dropped, and the pairs are stored left to right. */
  function EntriesToObject(entries: seq<string>): Obj<string>
  {
    Assign([], Pairs(entries))
  }

  /** Every key of the object comes from an entry, and a key holds the value of the last
      entry that names it. */
  lemma EntriesToObjectGet(entries: seq<string>, k: string)
    ensures Get(EntriesToObject(entries), k) == LastValue(Pairs(entries), k)
    ensures UniqueKeys(EntriesToObject(entries))
  {
    AssignGet([], Pairs(entries), k);
    AssignKeepsUnique([], Pairs(entries));
  }
}
