/**
 * Python dicts as the editor uses them: string keys, insertion order kept.
 * A dict is the list of its entries in insertion order; assigning to an
 * existing key keeps its place, assigning to a new key appends it, `del`
 * drops it.
 */
module Dict {
  import opened Wrappers

  datatype Entry<V> = Entry(key: string, val: V)

  /** `list(d)`: the keys in insertion order. */
  function Keys<V>(d: seq<Entry<V>>): (ks: seq<string>)
    ensures |ks| == |d|
  {
    seq(|d|, i requires 0 <= i < |d| => d[i].key)
  }

  /** No key occurs twice: what a Python dict guarantees. */
  predicate UniqueKeys<V>(d: seq<Entry<V>>) {
    forall i, j :: 0 <= i < j < |d| ==> d[i].key != d[j].key
  }

  /** `d.get(k)`: the value stored under `k`, if any. */
  function Get<V>(d: seq<Entry<V>>, k: string): (r: Option<V>)
    ensures r.Some? <==> k in Keys(d)
  {
    if |d| == 0 then None
    else if d[0].key == k then
      assert Keys(d)[0] == k;
      Some(d[0].val)
    else
      assert Keys(d) == [d[0].key] + Keys(d[1..]);
      Get(d[1..], k)
  }

  /** `d[k] = v`. */
  function Put<V>(d: seq<Entry<V>>, k: string, v: V): (r: seq<Entry<V>>)
  {
    if |d| == 0 then [Entry(k, v)]
    else if d[0].key == k then [Entry(k, v)] + d[1..]
    else [d[0]] + Put(d[1..], k, v)
  }

  /** `del d[k]` (a no-op when `k` is absent). */
  function Remove<V>(d: seq<Entry<V>>, k: string): (r: seq<Entry<V>>)
  {
    if |d| == 0 then []
    else if d[0].key == k then Remove(d[1..], k)
    else [d[0]] + Remove(d[1..], k)
  }

  /** With unique keys, the value stored under a key is the one of the entry carrying it. */
  lemma {:induction false} GetAt<V>(d: seq<Entry<V>>, i: nat)
    requires UniqueKeys(d) && i < |d|
    ensures Get(d, d[i].key) == Some(d[i].val)
  {
    if i > 0 {
      assert d[1..][i - 1] == d[i];
      GetAt(d[1..], i - 1);
    }
  }

  /** A value read back from a dict was stored in one of its entries. */
  lemma {:induction false} GetIn<V>(d: seq<Entry<V>>, k: string)
    requires Get(d, k).Some?
    ensures exists i :: 0 <= i < |d| && d[i] == Entry(k, Get(d, k).value)
  {
    if d[0].key != k {
      GetIn(d[1..], k);
      var i :| 0 <= i < |d[1..]| && d[1..][i] == Entry(k, Get(d, k).value);
      assert d[i + 1] == d[1..][i];
    }
  }

  /** After `d[k] = v`, `k` holds `v` and every other key holds what it held. */
  lemma {:induction false} PutGet<V>(d: seq<Entry<V>>, k: string, v: V)
    ensures Get(Put(d, k, v), k) == Some(v)
    ensures forall j :: j != k ==> Get(Put(d, k, v), j) == Get(d, j)
  {
    if |d| > 0 && d[0].key != k {
      PutGet(d[1..], k, v);
      assert Put(d, k, v)[1..] == Put(d[1..], k, v);
    }
    if |d| > 0 && d[0].key == k {
      assert Put(d, k, v)[1..] == d[1..];
    }
  }

  /** `d[k] = v` keeps the key order; a new key goes last. */
  lemma {:induction false} PutKeys<V>(d: seq<Entry<V>>, k: string, v: V)
    ensures k in Keys(d) ==> Keys(Put(d, k, v)) == Keys(d)
    ensures k !in Keys(d) ==> Keys(Put(d, k, v)) == Keys(d) + [k]
  {
    if |d| > 0 && d[0].key != k {
      PutKeys(d[1..], k, v);
      assert Keys(d) == [d[0].key] + Keys(d[1..]);
      assert Keys(Put(d, k, v)) == [d[0].key] + Keys(Put(d[1..], k, v));
    }
    if |d| > 0 && d[0].key == k {
      assert Keys(Put(d, k, v)) == [k] + Keys(d[1..]);
      assert Keys(d) == [k] + Keys(d[1..]);
    }
  }

  /** Keys stay unique under `d[k] = v`. */
  lemma PutUnique<V>(d: seq<Entry<V>>, k: string, v: V)
    requires UniqueKeys(d)
    ensures UniqueKeys(Put(d, k, v))
  {
    PutKeys(d, k, v);
    var r := Put(d, k, v);
    forall i, j | 0 <= i < j < |r| ensures r[i].key != r[j].key {
      assert r[i].key == Keys(r)[i] && r[j].key == Keys(r)[j];
      if j < |d| {
        assert d[i].key == Keys(d)[i] && d[j].key == Keys(d)[j];
      } else {
        assert d[i].key == Keys(d)[i];
      }
    }
  }

  /** After `del d[k]`, `k` is gone and every other key holds what it held. */
  lemma {:induction false} RemoveGet<V>(d: seq<Entry<V>>, k: string)
    ensures Get(Remove(d, k), k) == None
    ensures forall j :: j != k ==> Get(Remove(d, k), j) == Get(d, j)
  {
    if |d| > 0 {
      RemoveGet(d[1..], k);
      if d[0].key != k {
        assert Remove(d, k)[1..] == Remove(d[1..], k);
      }
    }
  }

  /** `del d[k]` on a dict with unique keys drops exactly the entry carrying `k`. */
  lemma {:induction false} RemoveAt<V>(d: seq<Entry<V>>, i: nat)
    requires UniqueKeys(d) && i < |d|
    ensures Remove(d, d[i].key) == d[..i] + d[i + 1..]
  {
    var k := d[i].key;
    if i == 0 {
      RemoveAbsent(d[1..], k);
    } else {
      RemoveAt(d[1..], i - 1);
      assert d[1..][i - 1] == d[i];
      assert d[1..][..i - 1] + d[1..][i..] == d[1..i] + d[i + 1..];
    }
  }

  /** `del d[k]` leaves a dict without `k` as it is. */
  lemma {:induction false} RemoveAbsent<V>(d: seq<Entry<V>>, k: string)
    requires k !in Keys(d)
    ensures Remove(d, k) == d
  {
    if |d| > 0 {
      assert d[0].key == Keys(d)[0];
      assert Keys(d[1..]) == Keys(d)[1..];
      RemoveAbsent(d[1..], k);
    }
  }

  /** Keys stay unique under `del d[k]`. */
  lemma RemoveUnique<V>(d: seq<Entry<V>>, k: string)
    requires UniqueKeys(d)
    ensures UniqueKeys(Remove(d, k))
  {
    if k in Keys(d) {
      var i :| 0 <= i < |d| && Keys(d)[i] == k;
      RemoveAt(d, i);
    } else {
      RemoveAbsent(d, k);
    }
  }

  /** `d[k] = v` with a new key appends the entry. */
  lemma {:induction false} PutAbsent<V>(d: seq<Entry<V>>, k: string, v: V)
    requires k !in Keys(d)
    ensures Put(d, k, v) == d + [Entry(k, v)]
  {
    if |d| > 0 {
      assert d[0].key == Keys(d)[0];
      assert Keys(d[1..]) == Keys(d)[1..];
      PutAbsent(d[1..], k, v);
      assert d == [d[0]] + d[1..];
    }
  }

  /**
   * Entry `i` is the last assignment in `ps` to its key; `None` stands for a
   * step of the loop that assigns nothing.
   */
  predicate IsLastEntry<V>(ps: seq<Option<Entry<V>>>, i: int) {
    && 0 <= i < |ps| && ps[i].Some?
    && forall j :: i < j < |ps| && ps[j].Some? ==> ps[j].value.key != ps[i].value.key
  }

  /** The dict a loop builds from `{}` by doing `d[k] = v` for each `Some(Entry(k, v))` in turn. */
  function FromPairs<V>(ps: seq<Option<Entry<V>>>): seq<Entry<V>>
  {
    if |ps| == 0 then []
    else
      var d := FromPairs(ps[..|ps| - 1]);
      match ps[|ps| - 1]
      case None => d
      case Some(e) => Put(d, e.key, e.val)
  }

  /** One more step of the loop. */
  lemma FromPairsStep<V>(ps: seq<Option<Entry<V>>>, i: nat)
    requires i < |ps|
    ensures FromPairs(ps[..i + 1]) ==
      match ps[i]
      case None => FromPairs(ps[..i])
      case Some(e) => Put(FromPairs(ps[..i]), e.key, e.val)
  {
    assert ps[..i + 1][..i] == ps[..i];
  }

  /** The last assignment in `ps` to `k` assigns `v`. */
  ghost predicate LastAssigns<V>(ps: seq<Option<Entry<V>>>, k: string, v: V) {
    exists i :: IsLastEntry(ps, i) && ps[i] == Some(Entry(k, v))
  }

  /** The last assignment to `k` is the final step when that step assigns `k`, otherwise it is earlier. */
  lemma LastAssignsStep<V>(ps: seq<Option<Entry<V>>>, k: string, v: V)
    requires |ps| > 0
    ensures var n := |ps| - 1;
      LastAssigns(ps, k, v) <==>
        if ps[n].Some? && ps[n].value.key == k then ps[n].value.val == v
        else LastAssigns(ps[..n], k, v)
  {
    var n := |ps| - 1;
    if ps[n].Some? && ps[n].value.key == k {
      LastAssignsFinal(ps, k, v);
    } else {
      LastAssignsEarlier(ps, k, v);
    }
  }

  /** When the final step assigns `k`, it is the last assignment to `k`. */
  lemma LastAssignsFinal<V>(ps: seq<Option<Entry<V>>>, k: string, v: V)
    requires |ps| > 0 && ps[|ps| - 1].Some? && ps[|ps| - 1].value.key == k
    ensures LastAssigns(ps, k, v) <==> ps[|ps| - 1].value.val == v
  {
    var n := |ps| - 1;
    if LastAssigns(ps, k, v) {
      var i :| IsLastEntry(ps, i) && ps[i] == Some(Entry(k, v));
      assert i == n;
    }
    if ps[n].value.val == v {
      assert IsLastEntry(ps, n);
    }
  }

  /** When the final step does not assign `k`, the last assignment to `k` is an earlier one. */
  lemma LastAssignsEarlier<V>(ps: seq<Option<Entry<V>>>, k: string, v: V)
    requires |ps| > 0 && !(ps[|ps| - 1].Some? && ps[|ps| - 1].value.key == k)
    ensures LastAssigns(ps, k, v) <==> LastAssigns(ps[..|ps| - 1], k, v)
  {
    if LastAssigns(ps, k, v) {
      var i :| IsLastEntry(ps, i) && ps[i] == Some(Entry(k, v));
      LastEntryOfInit(ps, i);
    }
    if LastAssigns(ps[..|ps| - 1], k, v) {
      var i :| IsLastEntry(ps[..|ps| - 1], i) && ps[..|ps| - 1][i] == Some(Entry(k, v));
      LastEntryOfWhole(ps, i);
    }
  }

  /** A last entry before a final step that does not assign its key is a last entry of the steps before. */
  lemma LastEntryOfInit<V>(ps: seq<Option<Entry<V>>>, i: nat)
    requires IsLastEntry(ps, i) && !(ps[|ps| - 1].Some? && ps[|ps| - 1].value.key == ps[i].value.key)
    ensures i < |ps| - 1 && IsLastEntry(ps[..|ps| - 1], i) && ps[..|ps| - 1][i] == ps[i]
  {
    var init := ps[..|ps| - 1];
    assert forall j :: i < j < |init| ==> init[j] == ps[j];
  }

  /** A last entry of the steps before stays last when the final step does not assign its key. */
  lemma LastEntryOfWhole<V>(ps: seq<Option<Entry<V>>>, i: nat)
    requires |ps| > 0 && IsLastEntry(ps[..|ps| - 1], i)
    requires !(ps[|ps| - 1].Some? && ps[|ps| - 1].value.key == ps[..|ps| - 1][i].value.key)
    ensures IsLastEntry(ps, i) && ps[i] == ps[..|ps| - 1][i]
  {
    var n := |ps| - 1;
    var init := ps[..n];
    forall j | i < j < |ps| && ps[j].Some? ensures ps[j].value.key != ps[i].value.key {
      if j < n {
        assert ps[j] == init[j];
      }
    }
  }

  /** Later assignments win: a key holds the value of the LAST assignment to it. */
  lemma {:induction false} FromPairsGet<V>(ps: seq<Option<Entry<V>>>, k: string, v: V)
    ensures Get(FromPairs(ps), k) == Some(v) <==> LastAssigns(ps, k, v)
  {
    if |ps| > 0 {
      var n := |ps| - 1;
      var init := ps[..n];
      FromPairsGet(init, k, v);
      LastAssignsStep(ps, k, v);
      if ps[n].Some? {
        PutGet(FromPairs(init), ps[n].value.key, ps[n].value.val);
      }
    }
  }

  /** The dict built by the loop has unique keys: exactly the keys assigned. */
  lemma {:induction false} FromPairsKeys<V>(ps: seq<Option<Entry<V>>>)
    ensures UniqueKeys(FromPairs(ps))
    ensures forall k :: k in Keys(FromPairs(ps)) <==> exists i :: 0 <= i < |ps| && ps[i].Some? && ps[i].value.key == k
  {
    if |ps| > 0 {
      var n := |ps| - 1;
      var init := ps[..n];
      FromPairsKeys(init);
      if ps[n].Some? {
        PutUnique(FromPairs(init), ps[n].value.key, ps[n].value.val);
        PutKeys(FromPairs(init), ps[n].value.key, ps[n].value.val);
      }
      forall k ensures k in Keys(FromPairs(ps)) <==> exists i :: 0 <= i < |ps| && ps[i].Some? && ps[i].value.key == k {
        if exists i :: 0 <= i < |ps| && ps[i].Some? && ps[i].value.key == k {
          var i :| 0 <= i < |ps| && ps[i].Some? && ps[i].value.key == k;
          if i < n {
            assert init[i].Some? && init[i].value.key == k;
          }
        }
        if k in Keys(FromPairs(init)) {
          var i :| 0 <= i < n && init[i].Some? && init[i].value.key == k;
          assert ps[i].Some? && ps[i].value.key == k;
        }
      }
    }
  }

  /** Every entry of the built dict is one of the assignments the loop made. */
  lemma FromPairsEntries<V>(ps: seq<Option<Entry<V>>>)
    ensures forall i :: 0 <= i < |FromPairs(ps)| ==> Some(FromPairs(ps)[i]) in ps
  {
    var d := FromPairs(ps);
    FromPairsKeys(ps);
    forall i | 0 <= i < |d| ensures Some(d[i]) in ps {
      GetAt(d, i);
      FromPairsGet(ps, d[i].key, d[i].val);
      var j :| IsLastEntry(ps, j) && ps[j] == Some(Entry(d[i].key, d[i].val));
    }
  }

  /** Assigning the entries of a dict one by one rebuilds it, order included. */
  lemma {:induction false} FromPairsRebuilds<V>(d: seq<Entry<V>>)
    requires UniqueKeys(d)
    ensures FromPairs(seq(|d|, i requires 0 <= i < |d| => Some(d[i]))) == d
  {
    if |d| > 0 {
      var n := |d| - 1;
      var ps := seq(|d|, i requires 0 <= i < |d| => Some(d[i]));
      var init := d[..n];
      assert ps[..n] == seq(|init|, i requires 0 <= i < |init| => Some(init[i]));
      FromPairsRebuilds(init);
      assert d[n].key !in Keys(init) by {
        forall j | 0 <= j < n ensures Keys(init)[j] != d[n].key {
          assert Keys(init)[j] == d[j].key;
        }
      }
      PutAbsent(init, d[n].key, d[n].val);
      assert init + [d[n]] == d;
    }
  }
}
