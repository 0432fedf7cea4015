/**
 * Python dictionaries with string keys, as the option sets of the core use
 * them: the entries in insertion order, lookup, `d[k] = v`, `d.update(kw)`
 * and `d.pop(k)`.
 */
module OrderedDicts {
  import opened Wrappers
  import opened Values

  /** A dict: its `(key, value)` entries in insertion (= iteration) order. */
  type Dict = seq<(string, Value)>

  function Keys(d: Dict): seq<string> {
    seq(|d|, i requires 0 <= i < |d| => d[i].0)
  }

  /** Dict keys are unique. */
  predicate Distinct(d: Dict) {
    forall i, j :: 0 <= i < j < |d| ==> d[i].0 != d[j].0
  }

  predicate HasKey(d: Dict, k: string) {
    exists i :: 0 <= i < |d| && d[i].0 == k
  }

  /** The position of key `k`. */
  function IndexOf(d: Dict, k: string): (r: nat)
    requires HasKey(d, k)
    ensures r < |d| && d[r].0 == k
    ensures forall j :: 0 <= j < r ==> d[j].0 != k
  {
    if d[0].0 == k then 0
    else
      assert HasKey(d[1..], k) by {
        var i :| 0 <= i < |d| && d[i].0 == k;
        assert d[1..][i - 1].0 == k;
      }
      1 + IndexOf(d[1..], k)
  }

  /** `d[k]`, or `None` where Python raises KeyError. */
  function Get(d: Dict, k: string): (r: Option<Value>)
    ensures r.Some? <==> HasKey(d, k)
    ensures r.Some? ==> r.value == d[IndexOf(d, k)].1
  {
    if HasKey(d, k) then Some(d[IndexOf(d, k)].1) else None
  }

  /** `d[k] = v`: overwrite in place when `k` is present, append otherwise. */
  function Insert(d: Dict, k: string, v: Value): Dict {
    if HasKey(d, k) then d[IndexOf(d, k) := (k, v)] else d + [(k, v)]
  }

  /** `d.update(kw)`: `d[k] = v` for each entry of `kw`, in order. */
  function Update(d: Dict, kw: Dict): Dict
    decreases |kw|
  {
    if kw == [] then d else Update(Insert(d, kw[0].0, kw[0].1), kw[1..])
  }

  /** The entries of `d` other than the one for `k`, in order. */
  function Remove(d: Dict, k: string): Dict
    requires HasKey(d, k)
  {
    d[..IndexOf(d, k)] + d[IndexOf(d, k) + 1..]
  }

  /** `d.pop(k)`: the value and the dict without its entry, or KeyError. */
  function Pop(d: Dict, k: string): (r: Result<(Value, Dict), Error>)
    ensures r.Failure? <==> !HasKey(d, k)
    ensures r.Failure? ==> r.error == KeyError(k)
    ensures r.Success? ==> Some(r.value.0) == Get(d, k) && |r.value.1| == |d| - 1
  {
    if HasKey(d, k) then Success((d[IndexOf(d, k)].1, Remove(d, k))) else Failure(KeyError(k))
  }

  /** The keys of `kw` that `d` does not have, in the order of `kw`. */
  function NewKeys(d: Dict, kw: Dict): seq<string>
    decreases |kw|
  {
    if kw == [] then []
    else (if HasKey(d, kw[0].0) then [] else [kw[0].0]) + NewKeys(d, kw[1..])
  }

  // ---------------------------------------------------------------------------
  // Lemmas

  lemma HasKeyIffInKeys(d: Dict, k: string)
    ensures HasKey(d, k) <==> k in Keys(d)
  {
    if k in Keys(d) {
      var i :| 0 <= i < |Keys(d)| && Keys(d)[i] == k;
      assert d[i].0 == k;
    }
    if HasKey(d, k) {
      var i :| 0 <= i < |d| && d[i].0 == k;
      assert Keys(d)[i] == k;
    }
  }

  /** The first index holding `k` is `IndexOf(d, k)`. */
  lemma IndexOfUnique(d: Dict, k: string, m: nat)
    requires m < |d| && d[m].0 == k
    requires forall j :: 0 <= j < m ==> d[j].0 != k
    ensures IndexOf(d, k) == m
  {
  }

  /** With unique keys, every entry is what lookup of its key yields. */
  lemma GetAt(d: Dict, i: nat)
    requires Distinct(d) && i < |d|
    ensures Get(d, d[i].0) == Some(d[i].1)
  {
    assert HasKey(d, d[i].0);
    IndexOfUnique(d, d[i].0, i);
  }

  /** `d[k] = v` keeps the key order, appending only a new key. */
  lemma InsertKeys(d: Dict, k: string, v: Value)
    ensures Keys(Insert(d, k, v)) == if HasKey(d, k) then Keys(d) else Keys(d) + [k]
    ensures forall k' :: HasKey(Insert(d, k, v), k') <==> HasKey(d, k') || k' == k
  {
    var r := Insert(d, k, v);
    if HasKey(d, k) {
      assert forall j :: 0 <= j < |r| ==> r[j].0 == d[j].0;
      assert Keys(r) == Keys(d);
    } else {
      assert Keys(r) == Keys(d) + [k];
    }
    forall k' ensures HasKey(r, k') <==> HasKey(d, k') || k' == k {
      HasKeyIffInKeys(r, k');
      HasKeyIffInKeys(d, k');
    }
  }

  /** `d[k] = v` leaves every entry under another key in place, and every entry of the result is one of `d` or `(k, v)`. */
  lemma InsertEntries(d: Dict, k: string, v: Value)
    ensures |d| <= |Insert(d, k, v)|
    ensures forall i :: 0 <= i < |d| && d[i].0 != k ==> Insert(d, k, v)[i] == d[i]
    ensures forall i :: 0 <= i < |Insert(d, k, v)| ==> Insert(d, k, v)[i] == (k, v) || (i < |d| && Insert(d, k, v)[i] == d[i])
  {
  }

  /** After `d[k] = v`, `d[k]` is `v` and every other key reads as before. */
  lemma InsertGet(d: Dict, k: string, v: Value, k': string)
    ensures Get(Insert(d, k, v), k') == if k' == k then Some(v) else Get(d, k')
  {
    var r := Insert(d, k, v);
    InsertKeys(d, k, v);
    if HasKey(d, k) {
      var i := IndexOf(d, k);
      if HasKey(d, k') {
        var m := IndexOf(d, k');
        IndexOfUnique(r, k', m);
        assert k' == k <==> m == i;
      }
    } else if k' == k {
      IndexOfUnique(r, k, |d|);
    } else if HasKey(d, k') {
      IndexOfUnique(r, k', IndexOf(d, k'));
    }
  }

  lemma InsertDistinct(d: Dict, k: string, v: Value)
    requires Distinct(d)
    ensures Distinct(Insert(d, k, v))
  {
  }

  lemma NewKeysUnaffected(d: Dict, d': Dict, kw: Dict)
    requires forall i :: 0 <= i < |kw| ==> (HasKey(d, kw[i].0) <==> HasKey(d', kw[i].0))
    ensures NewKeys(d, kw) == NewKeys(d', kw)
    decreases |kw|
  {
    if kw != [] {
      assert HasKey(d, kw[0].0) <==> HasKey(d', kw[0].0);
      NewKeysUnaffected(d, d', kw[1..]);
    }
  }

  lemma NotInRest(kw: Dict)
    requires Distinct(kw) && kw != []
    ensures !HasKey(kw[1..], kw[0].0)
    ensures Distinct(kw[1..])
  {
  }

  /** Inserting a key that `rest` does not name leaves the keys of `rest` new to the dict unchanged. */
  lemma InsertNewKeys(d: Dict, k: string, v: Value, rest: Dict)
    requires !HasKey(rest, k)
    ensures NewKeys(Insert(d, k, v), rest) == NewKeys(d, rest)
  {
    InsertKeys(d, k, v);
    forall i | 0 <= i < |rest| ensures HasKey(d, rest[i].0) <==> HasKey(Insert(d, k, v), rest[i].0) {
      assert rest[i].0 != k;
    }
    NewKeysUnaffected(d, Insert(d, k, v), rest);
  }

  /** One step of `update`: inserting the first entry moves its key, if new, from the new keys to the keys. */
  lemma UpdateKeysStep(d: Dict, kw: Dict)
    requires Distinct(kw) && kw != []
    ensures var d1 := Insert(d, kw[0].0, kw[0].1);
      Keys(d1) + NewKeys(d1, kw[1..]) == Keys(d) + NewKeys(d, kw)
  {
    var k0, v0 := kw[0].0, kw[0].1;
    var rest := kw[1..];
    NotInRest(kw);
    InsertNewKeys(d, k0, v0, rest);
    InsertKeys(d, k0, v0);
    if !HasKey(d, k0) {
      assert NewKeys(d, kw) == [k0] + NewKeys(d, rest);
    }
  }

  /** `d.update(kw)` keeps every key of `d` at its place, then appends the keys new to `d` in the order of `kw`. */
  lemma {:induction false} UpdateKeys(d: Dict, kw: Dict)
    requires Distinct(kw)
    ensures Keys(Update(d, kw)) == Keys(d) + NewKeys(d, kw)
    decreases |kw|
  {
    if kw != [] {
      var d1 := Insert(d, kw[0].0, kw[0].1);
      NotInRest(kw);
      UpdateKeys(d1, kw[1..]);
      UpdateKeysStep(d, kw);
    }
  }

  /** Updating with keys all new to `d` appends the entries of `kw` as they are. */
  lemma {:induction false} UpdateFresh(d: Dict, kw: Dict)
    requires Distinct(kw)
    requires forall i :: 0 <= i < |kw| ==> !HasKey(d, kw[i].0)
    ensures Update(d, kw) == d + kw
    decreases |kw|
  {
    if kw != [] {
      var d1 := d + [kw[0]];
      assert Insert(d, kw[0].0, kw[0].1) == d1;
      FreshTail(d, kw);
      UpdateFresh(d1, kw[1..]);
      SnocRest(d, kw);
    }
  }

  /** After appending the first fresh entry, the remaining keys are still fresh. */
  lemma FreshTail(d: Dict, kw: Dict)
    requires Distinct(kw) && kw != []
    requires forall i :: 0 <= i < |kw| ==> !HasKey(d, kw[i].0)
    ensures Distinct(kw[1..])
    ensures forall i :: 0 <= i < |kw[1..]| ==> !HasKey(d + [kw[0]], kw[1..][i].0)
  {
    NotInRest(kw);
    forall i | 0 <= i < |kw[1..]| ensures !HasKey(d + [kw[0]], kw[1..][i].0) {
      assert kw[1..][i] == kw[i + 1];
      assert kw[0].0 != kw[i + 1].0;
      InsertKeys(d, kw[0].0, kw[0].1);
      assert Insert(d, kw[0].0, kw[0].1) == d + [kw[0]];
    }
  }

  /** Appending the first element and then the rest appends the whole sequence. */
  lemma SnocRest<T>(d: seq<T>, kw: seq<T>)
    requires kw != []
    ensures d + [kw[0]] + kw[1..] == d + kw
  {
    assert [kw[0]] + kw[1..] == kw;
  }

  lemma HasKeyCons(kw: Dict, k: string)
    requires kw != []
    ensures HasKey(kw, k) <==> kw[0].0 == k || HasKey(kw[1..], k)
    ensures HasKey(kw, k) && kw[0].0 != k ==> IndexOf(kw, k) == 1 + IndexOf(kw[1..], k)
  {
    if HasKey(kw, k) && kw[0].0 != k {
      var i :| 0 <= i < |kw| && kw[i].0 == k;
      assert kw[1..][i - 1].0 == k;
    }
    if HasKey(kw[1..], k) {
      var i :| 0 <= i < |kw[1..]| && kw[1..][i].0 == k;
      assert kw[i + 1].0 == k;
    }
  }

  /** After `d.update(kw)` a key of `kw` reads as in `kw`, any other key as in `d`. */
  lemma {:induction false} UpdateGet(d: Dict, kw: Dict, k: string)
    requires Distinct(kw)
    ensures Get(Update(d, kw), k) == if HasKey(kw, k) then Get(kw, k) else Get(d, k)
    decreases |kw|
  {
    if kw != [] {
      var (k0, v0) := kw[0];
      var rest := kw[1..];
      NotInRest(kw);
      UpdateGet(Insert(d, k0, v0), rest, k);
      InsertGet(d, k0, v0, k);
      HasKeyCons(kw, k);
    }
  }

  /** `d.update(kw)` keeps the keys unique. */
  lemma {:induction false} UpdateDistinct(d: Dict, kw: Dict)
    requires Distinct(d)
    ensures Distinct(Update(d, kw))
    decreases |kw|
  {
    if kw != [] {
      InsertDistinct(d, kw[0].0, kw[0].1);
      UpdateDistinct(Insert(d, kw[0].0, kw[0].1), kw[1..]);
    }
  }

  /** After `d.update(kw)` a key of `kw` holds exactly one entry, carrying the value from `kw`. */
  lemma UpdateOverride(d: Dict, kw: Dict, k: string)
    requires Distinct(d) && Distinct(kw) && HasKey(kw, k)
    ensures HasKey(Update(d, kw), k)
    ensures var merged := Update(d, kw);
      var i := IndexOf(merged, k);
      && merged[i] == (k, Get(kw, k).value)
      && (forall j :: 0 <= j < |merged| && j != i ==> merged[j].0 != k)
  {
    UpdateGet(d, kw, k);
    UpdateDistinct(d, kw);
  }

  lemma RemoveAt(d: Dict, k: string)
    requires HasKey(d, k)
    ensures forall j :: 0 <= j < |Remove(d, k)| ==>
      Remove(d, k)[j] == if j < IndexOf(d, k) then d[j] else d[j + 1]
  {
    var i := IndexOf(d, k);
    forall j | 0 <= j < |Remove(d, k)| ensures Remove(d, k)[j] == if j < i then d[j] else d[j + 1] {
      if j < i {
        assert Remove(d, k)[j] == d[..i][j];
      } else {
        assert Remove(d, k)[j] == d[i + 1..][j - i];
      }
    }
  }

  /** `pop(k)` keeps the order of the other keys and keeps them unique. */
  lemma RemoveKeys(d: Dict, k: string)
    requires Distinct(d) && HasKey(d, k)
    ensures Distinct(Remove(d, k))
    ensures !HasKey(Remove(d, k), k)
    ensures Keys(Remove(d, k)) == Keys(d)[..IndexOf(d, k)] + Keys(d)[IndexOf(d, k) + 1..]
  {
    RemoveAt(d, k);
  }

  /** Lookup after `pop(k)`: `k` is gone, every other key reads as before. */
  lemma RemoveGet(d: Dict, k: string, k': string)
    requires Distinct(d) && HasKey(d, k)
    ensures Get(Remove(d, k), k') == if k' == k then None else Get(d, k')
  {
    var i := IndexOf(d, k);
    var r := Remove(d, k);
    RemoveKeys(d, k);
    RemoveAt(d, k);
    if k' != k {
      if HasKey(d, k') {
        var m := IndexOf(d, k');
        var m' := if m < i then m else m - 1;
        assert r[m'] == d[m];
        GetAt(r, m');
        GetAt(d, m);
      }
    }
  }

  /**
   * Popping `k` and assigning it back keeps every key's value, but the key
   * moves to the end of the iteration order.
   */
  lemma PopReinsert(d: Dict, k: string)
    requires Distinct(d) && HasKey(d, k)
    ensures var (v, rest) := Pop(d, k).value;
      && Distinct(Insert(rest, k, v))
      && Insert(rest, k, v) == rest + [(k, v)]
      && (forall k' :: Get(Insert(rest, k, v), k') == Get(d, k'))
  {
    var (v, rest) := Pop(d, k).value;
    forall k' ensures Get(Insert(rest, k, v), k') == Get(d, k') {
      RemoveGet(d, k, k');
      InsertGet(rest, k, v, k');
    }
    RemoveKeys(d, k);
  }
}
