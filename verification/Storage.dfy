/**
 The linked-list store: a circular doubly linked list of entries whose root moves.
 */
module Storage {
  import opened Basics
  import opened StoreModel
  import opened Rows

  class Entry {
    const key: Key
    const data: seq<Byte>
    const flags: nat
    const exp: nat
    var cas: nat
    var next: Entry?
    var prev: Entry?

    constructor (key: Key, data: seq<Byte>, flags: nat, exp: nat)
      ensures this.key == key && this.data == data && this.flags == flags && this.exp == exp
    {
      this.key, this.data, this.flags, this.exp := key, data, flags, exp;
      cas, next, prev := 0, null, null;
    }

    ghost function ToRow(): Row
      reads this`cas
    {
      Row(key, Item(data, flags, exp, cas))
    }
  }

  /** Distinct entries, each linked to its neighbours in both directions. */
  ghost predicate Chain(es: seq<Entry>)
    reads es
  {
    && (forall i, j :: 0 <= i < j < |es| ==> es[i] != es[j])
    && (forall i {:trigger es[i].next} :: 0 <= i < |es| - 1 ==> es[i].next == es[i + 1])
    && (forall i {:trigger es[i].prev} :: 1 <= i < |es| ==> es[i].prev == es[i - 1])
  }

  /** A chain whose two ends are linked to each other. */
  ghost predicate Circular(es: seq<Entry>)
    reads es
  {
    Chain(es) && (es != [] ==> es[|es| - 1].next == es[0] && es[0].prev == es[|es| - 1])
  }

  /** A ring is a ring from whichever entry it is read: the others form a chain around that entry. */
  lemma ReadFrom(es: seq<Entry>, k: nat) returns (rest: seq<Entry>)
    requires Circular(es) && k < |es|
    ensures rest == Rotated(es, k)
    ensures Chain(rest) && forall e :: e in rest <==> e in es && e != es[k]
    ensures if rest == [] then es[k].next == es[k]
            else es[k].next == rest[0] && es[k].prev == rest[|rest| - 1] && es[k] != rest[0]
  {
    rest := Rotated(es, k);
    assert es == es[..k] + [es[k]] + es[k + 1..];
  }

  /** The entries hold these rows, in this order. */
  ghost predicate Hold(es: seq<Entry>, rs: seq<Row>)
    reads es`cas
  {
    |rs| == |es| && forall i :: 0 <= i < |es| ==> rs[i] == es[i].ToRow()
  }

  lemma HoldRotated(es: seq<Entry>, rs: seq<Row>, k: nat)
    requires Hold(es, rs) && k < |es|
    ensures Hold(Rotated(es, k), Rotated(rs, k))
  {
  }

  lemma HoldPut(e: Entry, es: seq<Entry>, rs: seq<Row>)
    requires Hold(es, rs)
    ensures Hold([e] + es, [e.ToRow()] + rs)
  {
  }

  class Storage {
    var root: Entry?
    var cas: nat
    ghost var ring: seq<Entry>
    ghost var rows: seq<Row>
    ghost var repr: set<Entry>

    /** The list is a ring that starts at the root, and `rows` is what it holds. */
    ghost predicate Linked()
      reads this, ring
    {
      && cas < TWO_64
      && Circular(ring)
      && (if ring == [] then root == null else root == ring[0])
      && Hold(ring, rows)
      && forall e :: e in ring ==> e in repr
    }

    /** What every handler keeps: a ring in which no key occurs twice. */
    ghost predicate Valid()
      reads this, ring
    {
      Linked() && DistinctKeys(rows)
    }

    ghost function Model(): Store
      reads this
    {
      Store(MapOf(rows), cas)
    }

    constructor ()
      ensures Valid() && ring == [] && Model() == Store(map[], 0)
    {
      root, cas, ring, rows, repr := null, 0, [], [], {};
    }

    /** The first entry from the root on with this key; null exactly when there is none. */
    method GetItem(key: Key) returns (item: Entry?, ghost at: nat)
      requires Linked()
      ensures at <= |ring| && NoKey(rows[..at], key)
      ensures if item == null then at == |ring| else at < |ring| && ring[at] == item && item.key == key
      ensures item != null <==> key in MapOf(rows)
      ensures item != null ==> item.ToRow() == Row(key, MapOf(rows)[key])
    {
      item, at := null, 0;
      var walker := root;
      if root == null {
        return;
      }
      while true
        invariant at < |ring| && walker == ring[at]
        invariant NoKey(rows[..at], key)
        decreases |ring| - at
      {
        if walker.key == key {
          item := walker;
          break;
        }
        walker, at := walker.next, at + 1;
        if walker == root {
          break;
        }
      }
      MapOfFirst(rows, key, at);
    }

    /** Numbers the entry and links it in front of the root.  Nothing here looks for an older entry with
        the same key. */
    method PutItem(entry: Entry)
      requires Linked() && entry !in ring
      modifies this, repr`next, repr`prev, entry
      ensures Linked() && ring == [entry] + old(ring)
      ensures cas == Tick(old(cas)) && entry.cas == cas
      ensures rows == [entry.ToRow()] + old(rows) && repr == old(repr) + {entry}
    {
      cas := (cas + 1) % TWO_64;
      entry.cas := cas;
      repr := repr + {entry};
      LinkFirst(entry, ring);
      HoldPut(entry, ring, rows);
      ring, rows := [entry] + ring, [entry.ToRow()] + rows;
    }

    /** The pointer surgery of put_item. */
    method LinkFirst(entry: Entry, ghost others: seq<Entry>)
      requires Circular(others) && entry !in others && if others == [] then root == null else root == others[0]
      requires entry in repr && forall e :: e in others ==> e in repr
      modifies `root, repr`next, repr`prev
      ensures Circular([entry] + others) && root == entry
    {
      if root == null {
        entry.next, entry.prev := entry, entry;
      } else {
        entry.prev := root.prev;
        entry.next := root;
        entry.prev.next := entry;
        entry.next.prev := entry;
      }
      root := entry;
    }

    /** The pointer surgery of delete_item: takes the entry out of the ring; `rest` is the ring read from behind the
        entry. */
    method Unlink(entry: Entry, ghost rest: seq<Entry>)
      requires Chain(rest) && entry !in rest && forall e :: e in rest ==> e in repr
      requires if rest == [] then entry.next == entry
               else entry.next == rest[0] && entry.prev == rest[|rest| - 1] && entry != rest[0]
      modifies `root, repr`next, repr`prev
      ensures Circular(rest) && if rest == [] then root == null else root == rest[0]
    {
      if entry.next == entry {
        root := null;
      } else {
        assert rest[0] in rest && rest[|rest| - 1] in rest;
        root := entry.next;
        entry.prev.next := entry.next;
        entry.next.prev := entry.prev;
      }
    }

    method UnlinkAt(entry: Entry, ghost at: nat)
      requires Linked() && at < |ring| && ring[at] == entry
      modifies `root, `ring, `rows, `repr, repr`next, repr`prev
      ensures Linked() && ring == Rotated(old(ring), at) && rows == Rotated(old(rows), at)
      ensures repr == old(repr) - {entry}
    {
      ghost var rest := ReadFrom(ring, at);
      HoldRotated(ring, rows, at);
      Unlink(entry, rest);
      ring, rows, repr := rest, Rotated(rows, at), repr - {entry};
    }

    /** Unlinks the first entry with this key.  The root moves to the entry behind it, so the others keep
        their cyclic order but are read from another start. */
    method DeleteItem(key: Key) returns (found: bool, ghost at: nat)
      requires Linked()
      modifies this, repr`next, repr`prev
      ensures Linked() && cas == old(cas)
      ensures found <==> key in MapOf(old(rows))
      ensures !found ==> ring == old(ring) && rows == old(rows)
      ensures repr <= old(repr)
      ensures found ==> at < |old(ring)| && old(ring)[at].key == key
      ensures found ==> ring == Rotated(old(ring), at) && rows == Rotated(old(rows), at)
    {
      var entry;
      entry, at := GetItem(key);
      if entry == null {
        return false, 0;
      }
      UnlinkAt(entry, at);
      found := true;
    }

    // ----- what the handlers see: the same operations on the map -----

    /** create_item and put_item: binds a free key to a new, freshly numbered item. */
    method CreateAndPut(key: Key, data: seq<Byte>, flags: nat, exp: nat)
      requires Valid() && key !in MapOf(rows)
      modifies this, repr`next, repr`prev
      ensures Valid() && Model() == Stored(old(Model()), key, data, flags, exp)
      ensures fresh(repr - old(repr))
    {
      var entry := new Entry(key, data, flags, exp);
      PutItem(entry);
      DistinctAfterPut(entry.ToRow(), old(rows));
    }

    /** delete_item: removes a binding, if there is one. */
    method Remove(key: Key) returns (found: bool)
      requires Valid()
      modifies this, repr`next, repr`prev
      ensures Valid() && Model() == Without(old(Model()), key)
      ensures found <==> key in old(MapOf(rows))
      ensures repr <= old(repr)
    {
      ghost var at;
      found, at := DeleteItem(key);
      if found {
        MapOfRotated(old(rows), at);
        DistinctRotated(old(rows), at);
      }
    }

    /** Cuts the ring open and walks it until it runs out. */
    method Flush(when: nat)
      requires Linked()
      modifies this, repr`next, repr`prev
      ensures Valid() && ring == [] && rows == [] && repr <= old(repr) && cas == old(cas)
    {
      if root == null {
        return;
      }
      root.prev.next := null;
      ghost var i := 0;
      while root != null
        invariant i <= |ring| && root == (if i < |ring| then ring[i] else null)
        invariant forall j {:trigger ring[j].next} :: 0 <= j < |ring| ==>
                    ring[j].next == if j + 1 < |ring| then ring[j + 1] else null
        decreases |ring| - i
        modifies `root
      {
        root := root.next;
        i := i + 1;
      }
      ring, rows, repr := [], [], {};
    }
  }
}
