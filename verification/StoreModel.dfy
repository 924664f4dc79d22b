/**
 The item store seen as a map, and one pure transition per protocol command.

 This is the specification that the linked-list store and both handler sets are
 proved against.  It never mentions entries, links or the position of the root.
 */
module StoreModel {
  import opened Basics

  type Key = seq<Byte>

  /** What the store keeps for one key. */
  datatype Item = Item(data: seq<Byte>, flags: nat, exp: nat, cas: nat)

  /** The whole store: its items and the last CAS number handed out. */
  datatype Store = Store(items: map<Key, Item>, cas: nat)

  /** `Undefined` is the end of a run: the code reads through a null pointer or writes behind a local buffer. */
  datatype Status = Success | KeyEnoent | KeyEexists | Enomem | Undefined

  /** The size of the buffer into which an increment copies its key. */
  const KEY_BUFFER: nat := 1024

  /** `cas` is 0 when the command hands out no CAS number, `found` is empty unless an item is returned. */
  datatype Reply = Reply(status: Status, cas: nat, number: nat, found: seq<Item>)

  /** The commands of the binary protocol that touch the store.  `beyond` holds the eight bytes of
      memory that follow the item's data: the arithmetic commands read eight bytes of any item that has data. */
  datatype Command =
    | Get(key: Key)
    | Add(key: Key, data: seq<Byte>, flags: nat, exp: nat)
    | Set(key: Key, data: seq<Byte>, flags: nat, exp: nat, token: nat)
    | Replace(key: Key, data: seq<Byte>, flags: nat, exp: nat, token: nat)
    | Append(key: Key, data: seq<Byte>, token: nat)
    | Prepend(key: Key, data: seq<Byte>, token: nat)
    | Increment(key: Key, delta: nat, initial: nat, exp: nat, beyond: seq<Byte>)
    | Decrement(key: Key, delta: nat, initial: nat, exp: nat, beyond: seq<Byte>)
    | Delete(key: Key, token: nat)
    | Flush(when: nat)

  /** A command together with whether memory for a new item can be obtained. */
  datatype Event = Event(cmd: Command, memory: bool)

  predicate WellTyped(c: Command) {
    c.Increment? || c.Decrement? ==> c.delta < TWO_64 && c.initial < TWO_64 && |c.beyond| == 8
  }

  function Tick(cas: nat): nat { (cas + 1) % TWO_64 }

  // ----- native 64-bit numbers (little-endian) -----

  function Decode(bs: seq<Byte>): (v: nat) {
    if bs == [] then 0 else bs[0] + 0x100 * Decode(bs[1..])
  }

  function Encode(v: nat, size: nat): (bs: seq<Byte>)
    ensures |bs| == size
  {
    if size == 0 then [] else [v % 0x100] + Encode(v / 0x100, size - 1)
  }

  /** Storing a number and reading it back gives the number. */
  lemma {:induction false} DecodeEncode(v: nat, size: nat)
    requires v < Power256(size)
    ensures Decode(Encode(v, size)) == v
  {
    if size != 0 {
      DecodeEncode(v / 0x100, size - 1);
      assert Encode(v, size)[1..] == Encode(v / 0x100, size - 1);
    }
  }

  /** The lowest byte comes first. */
  lemma {:induction false} EncodeAt(v: nat, size: nat, i: nat)
    requires i < size
    ensures Encode(v, size)[i] == v / Power256(i) % 0x100
    decreases i
  {
    if i > 0 {
      EncodeAt(v / 0x100, size - 1, i - 1);
      DividedTwice(v, Power256(i - 1));
    }
  }

  lemma DividedTwice(v: nat, p: nat)
    requires p > 0
    ensures v / 0x100 / p == v / (0x100 * p)
  {
    var q, r := v / 0x100, v % 0x100;
    var t, u := q / p, q % p;
    assert v == 0x100 * (t * p + u) + r;
    assert v == t * (0x100 * p) + (0x100 * u + r);
    assert 0x100 * u + r < 0x100 * p;
    Quotient(v, 0x100 * p, t, 0x100 * u + r);
  }

  lemma Quotient(v: nat, m: nat, t: nat, r: nat)
    requires v == t * m + r && r < m
    ensures v / m == t
  {
    AtLeast(v / m - t, m);
    assert v == v / m * m + v % m;
    assert (v / m - t) * m == v / m * m - t * m;
  }

  lemma AtLeast(d: int, m: int)
    ensures m > 0 && d >= 1 ==> d * m >= m
    ensures m > 0 && d <= -1 ==> d * m <= -m
  {
    assert m > 0 && d >= 1 ==> (d - 1) * m >= 0;
    assert m > 0 && d <= -1 ==> (d + 1) * m <= 0;
  }

  lemma DecodeEncode64(v: nat)
    requires v < TWO_64
    ensures Decode(Encode(v, 8)) == v
  {
    assert Power256(4) == 0x1_0000_0000;
    assert Power256(6) == 0x1_0000_0000_0000;
    assert Power256(8) == TWO_64;
    DecodeEncode(v, 8);
  }

  /** The number the arithmetic commands see at the front of an item. */
  function Counter(data: seq<Byte>, beyond: seq<Byte>): nat
    requires |beyond| == 8
  {
    Decode((data + beyond)[..8])
  }

  // ----- one transition per command -----

  function Stored(s: Store, key: Key, data: seq<Byte>, flags: nat, exp: nat): Store {
    Store(s.items[key := Item(data, flags, exp, Tick(s.cas))], Tick(s.cas))
  }

  function Without(s: Store, key: Key): Store {
    s.(items := s.items - {key})
  }

  function Status0(st: Status): Reply { Reply(st, 0, 0, []) }

  /** A store that replaces the key's item: when there is no memory the old item is already gone. */
  function Overwrite(s: Store, key: Key, data: seq<Byte>, flags: nat, exp: nat, memory: bool): (Store, Reply) {
    if memory then (Stored(s, key, data, flags, exp), Reply(Success, Tick(s.cas), 0, []))
    else (Without(s, key), Status0(Enomem))
  }

  /** Removing the key first makes no difference to a store that replaces it. */
  lemma OverwriteAfterRemoval(s: Store, key: Key, data: seq<Byte>, flags: nat, exp: nat, memory: bool)
    ensures Overwrite(Without(s, key), key, data, flags, exp, memory) == Overwrite(s, key, data, flags, exp, memory)
    ensures key !in s.items ==> Without(s, key) == s
  {
    var item := Item(data, flags, exp, Tick(s.cas));
    assert (s.items - {key})[key := item] == s.items[key := item];
    assert s.items - {key} - {key} == s.items - {key};
    assert key !in s.items ==> s.items - {key} == s.items;
  }

  predicate Conflict(s: Store, key: Key, token: nat) {
    token != 0 && key in s.items && s.items[key].cas != token
  }

  function Arithmetic(s: Store, c: Command): nat
    requires (c.Increment? || c.Decrement?) && WellTyped(c)
  {
    if c.key !in s.items then c.initial
    else
      var was := Counter(s.items[c.key].data, c.beyond);
      if c.Increment? then (was + c.delta) % TWO_64
      else if c.delta > was then 0 else was - c.delta
  }

  function Apply(s: Store, e: Event): (Store, Reply)
    requires WellTyped(e.cmd)
  {
    var c := e.cmd;
    match c
    case Get(key) =>
      if key in s.items then (s, Reply(Success, 0, 0, [s.items[key]])) else (s, Status0(KeyEnoent))
    case Add(key, data, flags, exp) =>
      if key in s.items then (s, Status0(KeyEexists))
      else Overwrite(s, key, data, flags, exp, e.memory)
    case Set(key, data, flags, exp, token) =>
      if Conflict(s, key, token) then (s, Status0(KeyEexists))
      else Overwrite(s, key, data, flags, exp, e.memory)
    case Replace(key, data, flags, exp, token) =>
      if key !in s.items then (s, Status0(KeyEnoent))
      else if Conflict(s, key, token) then (s, Status0(KeyEexists))
      else Overwrite(s, key, data, flags, exp, e.memory)
    case Append(key, data, token) =>
      Concatenate(s, key, (was: seq<Byte>) => was + data, token, e.memory)
    case Prepend(key, data, token) =>
      Concatenate(s, key, (was: seq<Byte>) => data + was, token, e.memory)
    case Increment(_, _, _, _, _) => ApplyArithmetic(s, e)
    case Decrement(_, _, _, _, _) => ApplyArithmetic(s, e)
    case Delete(key, token) =>
      if key !in s.items then (s, Status0(KeyEnoent))
      else if Conflict(s, key, token) then (s, Status0(KeyEexists))
      else (Without(s, key), Status0(Success))
    case Flush(_) => (s.(items := map[]), Status0(Success))
  }

  /** Append and prepend keep flags and expiry, and keep the old item when there is no memory. */
  function Concatenate(s: Store, key: Key, join: seq<Byte> -> seq<Byte>, token: nat, memory: bool): (Store, Reply) {
    if key !in s.items then (s, Status0(KeyEnoent))
    else if Conflict(s, key, token) then (s, Status0(KeyEexists))
    else if !memory then (s, Status0(Enomem))
    else
      var was := s.items[key];
      Overwrite(s, key, join(was.data), was.flags, was.exp, true)
  }

  /** An empty item has no data to read a number from. */
  predicate ReadsNull(s: Store, c: Command) {
    (c.Increment? || c.Decrement?) && c.key in s.items && s.items[c.key].data == []
  }

  predicate OverrunsBuffer(e: Event) {
    e.cmd.Increment? && e.memory && |e.cmd.key| > KEY_BUFFER
  }

  /** Arithmetic keeps the expiry of an existing item but drops its flags.  An increment overruns its buffer when
      the old item is gone and the new one not yet linked. */
  function ApplyArithmetic(s: Store, e: Event): (Store, Reply)
    requires (e.cmd.Increment? || e.cmd.Decrement?) && WellTyped(e.cmd)
  {
    var c := e.cmd;
    if ReadsNull(s, c) then (s, Status0(Undefined))
    else if OverrunsBuffer(e) then (Without(s, c.key), Status0(Undefined))
    else
      var v := Arithmetic(s, c);
      var exp := if c.key in s.items then s.items[c.key].exp else c.exp;
      var (s', r) := Overwrite(s, c.key, Encode(v, 8), 0, exp, e.memory);
      (s', if e.memory then r.(number := v) else r)
  }

  lemma ArithmeticIs(s: Store, e: Event, v: nat, exp: nat, t: Store, r: Reply)
    requires (e.cmd.Increment? || e.cmd.Decrement?) && WellTyped(e.cmd) && !ReadsNull(s, e.cmd) && !OverrunsBuffer(e)
    requires v == Arithmetic(s, e.cmd) && exp == if e.cmd.key in s.items then s.items[e.cmd.key].exp else e.cmd.exp
    requires (t, r) == Overwrite(s, e.cmd.key, Encode(v, 8), 0, exp, e.memory)
    ensures Apply(s, e) == (t, if e.memory then r.(number := v) else r)
  {
  }

  function Run(s: Store, es: seq<Event>): Store
    requires forall e :: e in es ==> WellTyped(e.cmd)
    decreases |es|
  {
    if es == [] then s else Run(Apply(s, es[0]).0, es[1..])
  }

  lemma {:induction false} RunSnoc(s: Store, es: seq<Event>, e: Event)
    requires forall d :: d in es + [e] ==> WellTyped(d.cmd)
    ensures forall d :: d in es ==> WellTyped(d.cmd)
    ensures WellTyped(e.cmd)
    ensures Run(s, es + [e]) == Apply(Run(s, es), e).0
    decreases |es|
  {
    assert e in es + [e];
    assert forall d :: d in es ==> d in es + [e];
    if es == [] {
      assert (es + [e])[1..] == [];
    } else {
      assert (es + [e])[1..] == es[1..] + [e];
      RunSnoc(Apply(s, es[0]).0, es[1..], e);
    }
  }

  // ----- when a run stays defined -----

  /** A command ends the run exactly when it is arithmetic on an empty item, or an increment that makes an item for
      a key longer than the buffer. */
  lemma UndefinedIff(s: Store, e: Event)
    requires WellTyped(e.cmd)
    ensures Apply(s, e).1.status == Undefined <==> ReadsNull(s, e.cmd) || OverrunsBuffer(e)
  {
    if e.cmd.Increment? || e.cmd.Decrement? {
      assert Apply(s, e) == ApplyArithmetic(s, e);
    }
  }

  ghost predicate NoEmptyItem(s: Store) {
    forall k :: k in s.items ==> s.items[k].data != []
  }

  predicate StoresNothingEmpty(c: Command) {
    c.Add? || c.Set? || c.Replace? ==> c.data != []
  }

  lemma ApplyKeepsData(s: Store, e: Event)
    requires WellTyped(e.cmd) && NoEmptyItem(s) && StoresNothingEmpty(e.cmd)
    ensures NoEmptyItem(Apply(s, e).0)
  {
  }

  /** Clients that store no empty value and increment no key longer than the buffer never end a run. */
  lemma {:induction false} RunStaysDefined(s: Store, es: seq<Event>, i: nat)
    requires forall e :: e in es ==> WellTyped(e.cmd) && StoresNothingEmpty(e.cmd) && !OverrunsBuffer(e)
    requires NoEmptyItem(s) && i < |es|
    ensures forall e :: e in es[..i] ==> WellTyped(e.cmd)
    ensures Apply(Run(s, es[..i]), es[i]).1.status != Undefined
    decreases i
  {
    assert es[0] in es && es[i] in es;
    if i == 0 {
      UndefinedIff(s, es[0]);
    } else {
      ApplyKeepsData(s, es[0]);
      assert forall e :: e in es[1..] ==> e in es;
      RunStaysDefined(Apply(s, es[0]).0, es[1..], i - 1);
      assert es[..i][1..] == es[1..][..i - 1] && es[..i][0] == es[0];
    }
  }
}
