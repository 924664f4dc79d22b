/**
 The contents of the list in walking order, and the map they stand for.
 */
module Rows {
  import opened StoreModel

  datatype Row = Row(key: Key, item: Item)

  /** What walking the rows finds: the first row with a key hides the later ones. */
  ghost function MapOf(rs: seq<Row>): map<Key, Item> {
    if rs == [] then map[] else MapOf(rs[1..])[rs[0].key := rs[0].item]
  }

  ghost predicate NoKey(rs: seq<Row>, k: Key) {
    forall i :: 0 <= i < |rs| ==> rs[i].key != k
  }

  ghost predicate DistinctKeys(rs: seq<Row>) {
    forall i, j :: 0 <= i < j < |rs| ==> rs[i].key != rs[j].key
  }

  /** The sequence without its k-th element, read from the element behind it. */
  ghost function Rotated<T>(s: seq<T>, k: nat): seq<T>
    requires k < |s|
  {
    s[k + 1..] + s[..k]
  }

  lemma {:induction false} MapOfConcat(a: seq<Row>, b: seq<Row>)
    ensures MapOf(a + b) == MapOf(b) + MapOf(a)
  {
    if a == [] {
      assert a + b == b;
    } else {
      assert (a + b)[1..] == a[1..] + b;
      MapOfConcat(a[1..], b);
    }
  }

  /** A key is bound to its first row, or unbound when it has none. */
  lemma {:induction false} MapOfFirst(rs: seq<Row>, k: Key, at: nat)
    requires at <= |rs| && NoKey(rs[..at], k) && (at < |rs| ==> rs[at].key == k)
    ensures if at < |rs| then k in MapOf(rs) && MapOf(rs)[k] == rs[at].item else k !in MapOf(rs)
  {
    if at != 0 {
      assert rs[..at][0] == rs[0];
      assert rs[1..][..at - 1] == rs[..at][1..];
      MapOfFirst(rs[1..], k, at - 1);
    }
  }

  lemma {:induction false} MapOfKeys(rs: seq<Row>, k: Key)
    ensures k !in MapOf(rs) <==> NoKey(rs, k)
  {
    if rs != [] {
      MapOfKeys(rs[1..], k);
      assert forall i :: 0 < i < |rs| ==> rs[i] == rs[1..][i - 1];
    }
  }

  lemma DistinctRotated(rs: seq<Row>, k: nat)
    requires DistinctKeys(rs) && k < |rs|
    ensures DistinctKeys(Rotated(rs, k))
    ensures NoKey(rs[..k], rs[k].key) && NoKey(rs[k + 1..], rs[k].key)
    ensures forall x :: NoKey(rs[..k], x) || NoKey(rs[k + 1..], x)
  {
  }

  lemma MapOfSplit(rs: seq<Row>, k: nat)
    requires k < |rs|
    ensures MapOf(rs) == MapOf(rs[k + 1..])[rs[k].key := rs[k].item] + MapOf(rs[..k])
  {
    assert rs == rs[..k] + rs[k..];
    MapOfConcat(rs[..k], rs[k..]);
    assert rs[k..][1..] == rs[k + 1..];
  }

  /** With distinct keys, dropping one row and reading the rest from behind it removes that key
      and loses no other. */
  lemma MapOfRotated(rs: seq<Row>, k: nat)
    requires DistinctKeys(rs) && k < |rs|
    ensures MapOf(Rotated(rs, k)) == MapOf(rs) - {rs[k].key}
  {
    MapOfSplit(rs, k);
    MapOfConcat(rs[k + 1..], rs[..k]);
    DistinctRotated(rs, k);
    forall x
      ensures x in MapOf(rs[..k]) <==> !NoKey(rs[..k], x)
      ensures x in MapOf(rs[k + 1..]) <==> !NoKey(rs[k + 1..], x)
    {
      MapOfKeys(rs[..k], x);
      MapOfKeys(rs[k + 1..], x);
    }
    MergeSwaps(MapOf(rs[..k]), MapOf(rs[k + 1..]), rs[k].key, rs[k].item);
  }

  lemma MergeSwaps(f: map<Key, Item>, b: map<Key, Item>, k: Key, v: Item)
    requires k !in f && k !in b && f.Keys !! b.Keys
    ensures f + b == b[k := v] + f - {k}
  {
  }

  lemma DistinctAfterPut(r: Row, rs: seq<Row>)
    requires DistinctKeys(rs) && r.key !in MapOf(rs)
    ensures DistinctKeys([r] + rs)
    ensures MapOf([r] + rs) == MapOf(rs)[r.key := r.item]
  {
    MapOfKeys(rs, r.key);
    assert ([r] + rs)[1..] == rs;
  }
}
