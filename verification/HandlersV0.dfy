/**
 The level 0 command handlers: the same store behind raw request and response packets.
 */
module HandlersV0 {
  import opened Basics
  import opened StoreModel
  import opened Rows
  import opened Storage
  import V1 = HandlersV1

  datatype Verb = SetVerb | AddVerb | ReplaceVerb | AppendVerb | PrependVerb

  /** A storing request.  The quiet opcodes ask for no answer on success. */
  datatype Request = Request(verb: Verb, quiet: bool, key: Key, value: seq<Byte>, flags: nat, exp: nat, token: nat)

  datatype Packet = Packet(status: Status, cas: nat)

  /** The status the handler returns, and the response packet if it sends one. */
  datatype Outcome = Silent(rval: Status) | Answered(packet: Packet)
  {
    /** The status the client learns. */
    function Status(): Status {
      if Silent? then rval else packet.status
    }
  }

  function ToCommand(q: Request): Command {
    match q.verb
    case SetVerb => Set(q.key, q.value, q.flags, q.exp, q.token)
    case AddVerb => Add(q.key, q.value, q.flags, q.exp)
    case ReplaceVerb => Replace(q.key, q.value, q.flags, q.exp, q.token)
    case AppendVerb => Append(q.key, q.value, q.token)
    case PrependVerb => Prepend(q.key, q.value, q.token)
  }

  /** How a reply reaches the client: set, add and replace stay silent on a quiet success only, append and
      prepend answer a loud success only and leave failures to the caller. */
  predicate Conveys(q: Request, out: Outcome, r: Reply) {
    && out.Status() == r.status
    && (out.Answered? ==> out.packet.cas == r.cas)
    && (out.Silent? <==>
        if q.verb.AppendVerb? || q.verb.PrependVerb? then q.quiet || r.status != Success
        else q.quiet && r.status == Success)
  }

  /** The store made the transition of the request, and the outcome conveys its reply. */
  twostate predicate Handled(s: Storage, q: Request, memory: bool, out: Outcome)
    reads s, s.ring
  {
    && s.Valid() && fresh(s.repr - old(s.repr))
    && s.Model() == Apply(old(s.Model()), Event(ToCommand(q), memory)).0
    && Conveys(q, out, Apply(old(s.Model()), Event(ToCommand(q), memory)).1)
  }

  /** create_item, put_item and the choice of answering. */
  method StoreAndAnswer(s: Storage, q: Request, memory: bool) returns (out: Outcome)
    requires s.Valid() && q.key !in s.Model().items
    modifies s, s.repr`next, s.repr`prev
    ensures s.Valid() && fresh(s.repr - old(s.repr))
    ensures memory ==> s.Model() == Stored(old(s.Model()), q.key, q.value, q.flags, q.exp)
    ensures !memory ==> s.Model() == old(s.Model())
    ensures out == if !memory then Answered(Packet(Enomem, 0))
                   else if q.quiet then Silent(Success) else Answered(Packet(Success, s.cas))
  {
    if !memory {
      return Answered(Packet(Enomem, 0));
    }
    s.CreateAndPut(q.key, q.value, q.flags, q.exp);
    if !q.quiet {
      return Answered(Packet(Success, s.cas));
    }
    return Silent(Success);
  }

  /** What a request does, in terms of its own fields. */
  lemma SetIs(s: Store, q: Request, memory: bool)
    requires q.verb.SetVerb?
    ensures Apply(s, Event(ToCommand(q), memory)) ==
            if q.token != 0 && q.key in s.items && s.items[q.key].cas != q.token then (s, Status0(KeyEexists))
            else Overwrite(s, q.key, q.value, q.flags, q.exp, memory)
  {
  }

  lemma AddIs(s: Store, q: Request, memory: bool)
    requires q.verb.AddVerb?
    ensures Apply(s, Event(ToCommand(q), memory)) ==
            if q.key in s.items then (s, Status0(KeyEexists))
            else Overwrite(s, q.key, q.value, q.flags, q.exp, memory)
  {
  }

  lemma ReplaceIs(s: Store, q: Request, memory: bool)
    requires q.verb.ReplaceVerb?
    ensures Apply(s, Event(ToCommand(q), memory)) ==
            if q.key !in s.items then (s, Status0(KeyEnoent))
            else if q.token != 0 && s.items[q.key].cas != q.token then (s, Status0(KeyEexists))
            else Overwrite(s, q.key, q.value, q.flags, q.exp, memory)
  {
  }

  method SetCommandHandler(s: Storage, q: Request, memory: bool) returns (out: Outcome)
    requires s.Valid() && q.verb.SetVerb?
    modifies s, s.repr`next, s.repr`prev
    ensures Handled(s, q, memory, out)
  {
    SetIs(s.Model(), q, memory);
    if q.token != 0 {
      var item, _ := s.GetItem(q.key);
      if item != null {
        if item.cas != q.token {
          return Answered(Packet(KeyEexists, 0));
        }
      }
    }
    var _ := s.Remove(q.key);
    out := StoreAndAnswer(s, q, memory);
    OverwriteAfterRemoval(old(s.Model()), q.key, q.value, q.flags, q.exp, memory);
  }

  method AddCommandHandler(s: Storage, q: Request, memory: bool) returns (out: Outcome)
    requires s.Valid() && q.verb.AddVerb?
    modifies s, s.repr`next, s.repr`prev
    ensures Handled(s, q, memory, out)
  {
    var item, _ := s.GetItem(q.key);
    if item == null {
      out := StoreAndAnswer(s, q, memory);
      OverwriteAfterRemoval(old(s.Model()), q.key, q.value, q.flags, q.exp, memory);
    } else {
      out := Answered(Packet(KeyEexists, 0));
    }
  }

  method ReplaceCommandHandler(s: Storage, q: Request, memory: bool) returns (out: Outcome)
    requires s.Valid() && q.verb.ReplaceVerb?
    modifies s, s.repr`next, s.repr`prev
    ensures Handled(s, q, memory, out)
  {
    var item, _ := s.GetItem(q.key);
    if item == null {
      out := Answered(Packet(KeyEnoent, 0));
    } else if q.token == 0 || q.token == item.cas {
      var _ := s.Remove(q.key);
      out := StoreAndAnswer(s, q, memory);
      OverwriteAfterRemoval(old(s.Model()), q.key, q.value, q.flags, q.exp, memory);
    } else {
      out := Answered(Packet(KeyEexists, 0));
    }
  }

  function Joined(q: Request, was: seq<Byte>): seq<Byte> {
    if q.verb.AppendVerb? then was + q.value else q.value + was
  }

  lemma ConcatIs(s: Store, q: Request, memory: bool)
    requires q.verb.AppendVerb? || q.verb.PrependVerb?
    ensures Apply(s, Event(ToCommand(q), memory)) ==
            if q.key !in s.items then (s, Status0(KeyEnoent))
            else if q.token != 0 && s.items[q.key].cas != q.token then (s, Status0(KeyEexists))
            else if !memory then (s, Status0(Enomem))
            else
              var was := s.items[q.key];
              var joined := if q.verb.AppendVerb? then was.data + q.value else q.value + was.data;
              Overwrite(s, q.key, joined, was.flags, was.exp, true)
  {
  }

  method ConcatCommandHandler(s: Storage, q: Request, memory: bool) returns (out: Outcome)
    requires s.Valid() && (q.verb.AppendVerb? || q.verb.PrependVerb?)
    modifies s, s.repr`next, s.repr`prev
    ensures Handled(s, q, memory, out)
  {
    ConcatIs(s.Model(), q, memory);
    var item, _ := s.GetItem(q.key);
    if item == null {
      return Silent(KeyEnoent);
    }
    if q.token != 0 && q.token != item.cas {
      return Silent(KeyEexists);
    }
    if !memory {
      return Silent(Enomem);
    }
    var joined := Joined(q, item.data);
    var _ := s.Remove(q.key);
    s.CreateAndPut(q.key, joined, item.flags, item.exp);
    OverwriteAfterRemoval(old(s.Model()), q.key, joined, item.flags, item.exp, true);
    if !q.quiet {
      return Answered(Packet(Success, s.cas));
    }
    return Silent(Success);
  }

  method Execute(s: Storage, q: Request, memory: bool) returns (out: Outcome)
    requires s.Valid()
    modifies s, s.repr`next, s.repr`prev
    ensures Handled(s, q, memory, out)
  {
    match q.verb
    case SetVerb => out := SetCommandHandler(s, q, memory);
    case AddVerb => out := AddCommandHandler(s, q, memory);
    case ReplaceVerb => out := ReplaceCommandHandler(s, q, memory);
    case AppendVerb => out := ConcatCommandHandler(s, q, memory);
    case PrependVerb => out := ConcatCommandHandler(s, q, memory);
  }

  /** Both handler sets agree: the same request on two stores with the same contents leaves the same
      contents and the same CAS counter, and the client learns the same status (and, where level 0 answers,
      the same CAS number) -- whatever order the two rings hold their entries in. */
  method BothLevels(a: Storage, b: Storage, q: Request, memory: bool) returns (out: Outcome, r: Reply)
    requires a.Valid() && b.Valid() && a != b && a.repr !! b.repr
    requires a.Model() == b.Model()
    modifies a, a.repr`next, a.repr`prev, b, b.repr`next, b.repr`prev
    ensures a.Valid() && b.Valid() && a.Model() == b.Model()
    ensures Conveys(q, out, r) && (b.Model(), r) == Apply(old(b.Model()), Event(ToCommand(q), memory))
  {
    out := Execute(a, q, memory);
    r := V1.Execute(b, Event(ToCommand(q), memory));
  }
}
