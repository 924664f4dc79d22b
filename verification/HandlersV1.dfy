/**
 The level 1 command handlers, each proved to be the map transition of its command.

 `memory` stands for the outcome of the allocation a handler may make.
 */
module HandlersV1 {
  import opened Basics
  import opened StoreModel
  import opened Rows
  import opened Storage

  /** The store moved by exactly the transition of the event, and is still a ring without repeated keys. */
  twostate predicate Did(s: Storage, e: Event, r: Reply)
    requires WellTyped(e.cmd)
    reads s, s.ring
  {
    && s.Valid()
    && Apply(old(s.Model()), e) == (s.Model(), r)
    && fresh(s.repr - old(s.repr))
  }

  /** The tail that the storing handlers share: delete_item if there may be an old item, then create_item,
      put_item and the new number. */
  method Exchange(s: Storage, key: Key, data: seq<Byte>, flags: nat, exp: nat, memory: bool) returns (r: Reply)
    requires s.Valid()
    modifies s, s.repr`next, s.repr`prev
    ensures s.Valid() && (s.Model(), r) == Overwrite(old(s.Model()), key, data, flags, exp, memory)
    ensures fresh(s.repr - old(s.repr))
  {
    var _ := s.Remove(key);
    r := Finish(s, key, data, flags, exp, memory);
    OverwriteAfterRemoval(old(s.Model()), key, data, flags, exp, memory);
  }

  method Finish(s: Storage, key: Key, data: seq<Byte>, flags: nat, exp: nat, memory: bool) returns (r: Reply)
    requires s.Valid() && key !in s.Model().items
    modifies s, s.repr`next, s.repr`prev
    ensures s.Valid() && (s.Model(), r) == Overwrite(old(s.Model()), key, data, flags, exp, memory)
    ensures fresh(s.repr - old(s.repr))
  {
    OverwriteAfterRemoval(s.Model(), key, data, flags, exp, memory);
    if !memory {
      return Status0(Enomem);
    }
    s.CreateAndPut(key, data, flags, exp);
    return Reply(Success, s.cas, 0, []);
  }

  method GetHandler(s: Storage, key: Key) returns (r: Reply)
    requires s.Valid()
    ensures Apply(s.Model(), Event(Get(key), true)) == (s.Model(), r)
  {
    var item, _ := s.GetItem(key);
    if item == null {
      return Status0(KeyEnoent);
    }
    return Reply(Success, 0, 0, [Item(item.data, item.flags, item.exp, item.cas)]);
  }

  method AddHandler(s: Storage, key: Key, data: seq<Byte>, flags: nat, exp: nat, memory: bool)
    returns (r: Reply)
    requires s.Valid()
    modifies s, s.repr`next, s.repr`prev
    ensures Did(s, Event(Add(key, data, flags, exp), memory), r)
  {
    var item, _ := s.GetItem(key);
    if item != null {
      return Status0(KeyEexists);
    }
    r := Finish(s, key, data, flags, exp, memory);
  }

  method SetHandler(s: Storage, key: Key, data: seq<Byte>, flags: nat, exp: nat, token: nat, memory: bool)
    returns (r: Reply)
    requires s.Valid()
    modifies s, s.repr`next, s.repr`prev
    ensures Did(s, Event(Set(key, data, flags, exp, token), memory), r)
  {
    if token != 0 {
      var item, _ := s.GetItem(key);
      if item != null && token != item.cas {
        return Status0(KeyEexists);
      }
    }
    r := Exchange(s, key, data, flags, exp, memory);
  }

  method ReplaceHandler(s: Storage, key: Key, data: seq<Byte>, flags: nat, exp: nat, token: nat, memory: bool)
    returns (r: Reply)
    requires s.Valid()
    modifies s, s.repr`next, s.repr`prev
    ensures Did(s, Event(Replace(key, data, flags, exp, token), memory), r)
  {
    var item, _ := s.GetItem(key);
    if item == null {
      return Status0(KeyEnoent);
    }
    if token != 0 && token != item.cas {
      return Status0(KeyEexists);
    }
    r := Exchange(s, key, data, flags, exp, memory);
  }

  method AppendHandler(s: Storage, key: Key, val: seq<Byte>, token: nat, memory: bool) returns (r: Reply)
    requires s.Valid()
    modifies s, s.repr`next, s.repr`prev
    ensures Did(s, Event(Append(key, val, token), memory), r)
  {
    var item, _ := s.GetItem(key);
    if item == null {
      return Status0(KeyEnoent);
    }
    if token != 0 && token != item.cas {
      return Status0(KeyEexists);
    }
    if !memory {
      return Status0(Enomem);
    }
    var joined := item.data + val;
    r := Exchange(s, key, joined, item.flags, item.exp, true);
  }

  method PrependHandler(s: Storage, key: Key, val: seq<Byte>, token: nat, memory: bool) returns (r: Reply)
    requires s.Valid()
    modifies s, s.repr`next, s.repr`prev
    ensures Did(s, Event(Prepend(key, val, token), memory), r)
  {
    var item, _ := s.GetItem(key);
    if item == null {
      return Status0(KeyEnoent);
    }
    if token != 0 && token != item.cas {
      return Status0(KeyEexists);
    }
    if !memory {
      return Status0(Enomem);
    }
    var joined := val + item.data;
    r := Exchange(s, key, joined, item.flags, item.exp, true);
  }

  method IncrementHandler(s: Storage, key: Key, delta: nat, initial: nat, expiration: nat, beyond: seq<Byte>,
                          memory: bool)
    returns (r: Reply)
    requires s.Valid() && WellTyped(Increment(key, delta, initial, expiration, beyond))
    modifies s, s.repr`next, s.repr`prev
    ensures Did(s, Event(Increment(key, delta, initial, expiration, beyond), memory), r)
  {
    var val, exp := initial, expiration;
    var item, _ := s.GetItem(key);
    if item != null {
      if item.data == [] {
        return Status0(Undefined);
      }
      val := (Counter(item.data, beyond) + delta) % TWO_64;
      exp := item.exp;
      var _ := s.Remove(key);
    }
    if memory && |key| > KEY_BUFFER {
      OverwriteAfterRemoval(old(s.Model()), key, [], 0, 0, true);
      return Status0(Undefined);
    }
    r := Finish(s, key, Encode(val, 8), 0, exp, memory);
    OverwriteAfterRemoval(old(s.Model()), key, Encode(val, 8), 0, exp, memory);
    ArithmeticIs(old(s.Model()), Event(Increment(key, delta, initial, expiration, beyond), memory), val, exp,
                 s.Model(), r);
    if memory {
      r := r.(number := val);
    }
  }

  method DecrementHandler(s: Storage, key: Key, delta: nat, initial: nat, expiration: nat, beyond: seq<Byte>,
                          memory: bool)
    returns (r: Reply)
    requires s.Valid() && WellTyped(Decrement(key, delta, initial, expiration, beyond))
    modifies s, s.repr`next, s.repr`prev
    ensures Did(s, Event(Decrement(key, delta, initial, expiration, beyond), memory), r)
  {
    var val, exp := initial, expiration;
    var item, _ := s.GetItem(key);
    if item != null {
      if item.data == [] {
        return Status0(Undefined);
      }
      if delta > Counter(item.data, beyond) {
        val := 0;
      } else {
        val := Counter(item.data, beyond) - delta;
      }
      exp := item.exp;
      var _ := s.Remove(key);
    }
    r := Finish(s, key, Encode(val, 8), 0, exp, memory);
    OverwriteAfterRemoval(old(s.Model()), key, Encode(val, 8), 0, exp, memory);
    ArithmeticIs(old(s.Model()), Event(Decrement(key, delta, initial, expiration, beyond), memory), val, exp,
                 s.Model(), r);
    if memory {
      r := r.(number := val);
    }
  }

  method DeleteHandler(s: Storage, key: Key, token: nat) returns (r: Reply)
    requires s.Valid()
    modifies s, s.repr`next, s.repr`prev
    ensures Did(s, Event(Delete(key, token), true), r)
  {
    if token != 0 {
      var item, _ := s.GetItem(key);
      if item != null && item.cas != token {
        return Status0(KeyEexists);
      }
    }
    var found := s.Remove(key);
    OverwriteAfterRemoval(old(s.Model()), key, [], 0, 0, true);
    return Status0(if found then Success else KeyEnoent);
  }

  method FlushHandler(s: Storage, when: nat) returns (r: Reply)
    requires s.Valid()
    modifies s, s.repr`next, s.repr`prev
    ensures Did(s, Event(Flush(when), true), r)
  {
    s.Flush(when);
    return Status0(Success);
  }

  /** The dispatch on the command. */
  method Execute(s: Storage, e: Event) returns (r: Reply)
    requires s.Valid() && WellTyped(e.cmd)
    modifies s, s.repr`next, s.repr`prev
    ensures Did(s, e, r)
  {
    match e.cmd
    case Get(key) => r := GetHandler(s, key);
    case Add(key, data, flags, exp) => r := AddHandler(s, key, data, flags, exp, e.memory);
    case Set(key, data, flags, exp, token) => r := SetHandler(s, key, data, flags, exp, token, e.memory);
    case Replace(key, data, flags, exp, token) => r := ReplaceHandler(s, key, data, flags, exp, token, e.memory);
    case Append(key, data, token) => r := AppendHandler(s, key, data, token, e.memory);
    case Prepend(key, data, token) => r := PrependHandler(s, key, data, token, e.memory);
    case Increment(key, delta, initial, exp, beyond) =>
      r := IncrementHandler(s, key, delta, initial, exp, beyond, e.memory);
    case Decrement(key, delta, initial, exp, beyond) =>
      r := DecrementHandler(s, key, delta, initial, exp, beyond, e.memory);
    case Delete(key, token) => r := DeleteHandler(s, key, token);
    case Flush(when) => r := FlushHandler(s, when);
  }

  /** The replies to the first calls of a run. */
  ghost predicate Replies(s: Store, es: seq<Event>, rs: seq<Reply>)
    requires forall e :: e in es ==> WellTyped(e.cmd)
  {
    && |rs| <= |es|
    && forall i :: 0 <= i < |rs| ==> rs[i] == Apply(Run(s, es[..i]), es[i]).1
  }

  lemma OneMoreReply(s: Store, es: seq<Event>, rs: seq<Reply>, t: Store, r: Reply)
    requires (forall e :: e in es ==> WellTyped(e.cmd)) && Replies(s, es, rs) && |rs| < |es|
    requires (t, r) == Apply(Run(s, es[..|rs|]), es[|rs|])
    ensures Replies(s, es, rs + [r]) && t == Run(s, es[..|rs| + 1])
  {
    assert es[..|rs| + 1] == es[..|rs|] + [es[|rs|]];
    RunSnoc(s, es[..|rs|], es[|rs|]);
  }

  predicate Going(rs: seq<Reply>) {
    forall i :: 0 <= i < |rs| ==> rs[i].status != Undefined
  }

  /** No call has ended the run, or just the last one has. */
  predicate Served(rs: seq<Reply>, going: bool) {
    if going then Going(rs) else rs != [] && Going(rs[..|rs| - 1]) && rs[|rs| - 1].status == Undefined
  }

  method ServeNext(s: Storage, es: seq<Event>, rs: seq<Reply>, ghost start: Store)
    returns (more: seq<Reply>, going: bool)
    requires s.Valid() && (forall e :: e in es ==> WellTyped(e.cmd)) && |rs| < |es|
    requires Replies(start, es, rs) && s.Model() == Run(start, es[..|rs|]) && Served(rs, true)
    modifies s, s.repr`next, s.repr`prev
    ensures s.Valid() && fresh(s.repr - old(s.repr))
    ensures |more| == |rs| + 1 && Served(more, going)
    ensures Replies(start, es, more) && s.Model() == Run(start, es[..|more|])
  {
    var r := Execute(s, es[|rs|]);
    OneMoreReply(start, es, rs, s.Model(), r);
    more, going := rs + [r], r.status != Undefined;
    assert more[..|more| - 1] == rs;
  }

  /** Over every sequence of calls the list stays a ring with distinct keys and ends as the map run.  The calls are
      served up to the end, or up to the first one that has no defined outcome. */
  method Serve(s: Storage, es: seq<Event>) returns (rs: seq<Reply>)
    requires s.Valid() && forall e :: e in es ==> WellTyped(e.cmd)
    modifies s, s.repr`next, s.repr`prev
    ensures Replies(old(s.Model()), es, rs)
    ensures s.Valid() && s.Model() == Run(old(s.Model()), es[..|rs|])
    ensures (Served(rs, true) && |rs| == |es|) || Served(rs, false)
  {
    rs := [];
    var going := true;
    ghost var start := s.Model();
    while going && |rs| < |es|
      invariant Replies(start, es, rs) && s.Model() == Run(start, es[..|rs|])
      invariant s.Valid() && fresh(s.repr - old(s.repr)) && Served(rs, going)
      decreases |es| - |rs|
    {
      rs, going := ServeNext(s, es, rs, start);
    }
  }
}
