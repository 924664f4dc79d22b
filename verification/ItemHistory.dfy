/**
 What a key holds after any run: the value last stored under it, with all that was appended behind it and all that was
 prepended in front of it since.
 */
module ItemHistory {
  import opened Basics
  import opened StoreModel
  import opened CasHistory
  import opened CounterHistory

  /** The i-th command of the run is answered with this status. */
  ghost predicate Answered(s: Store, es: seq<Event>, i: nat, status: Status)
    requires AllWellTyped(es) && i < |es|
  {
    Apply(Run(s, es[..i]), es[i]).1.status == status
  }

  /** A command that gives the key a value of its own. */
  predicate Puts(c: Command, k: Key) {
    (c.Set? || c.Add? || c.Replace?) && c.key == k
  }

  /** The pieces that successful appends put behind the value of k, from one command of the run up to another. */
  ghost function Behind(s: Store, es: seq<Event>, k: Key, from: nat, to: nat): seq<Byte>
    requires AllWellTyped(es) && from <= to <= |es|
  {
    if from == to then []
    else
      var c := es[to - 1].cmd;
      Behind(s, es, k, from, to - 1)
      + (if c.Append? && c.key == k && Answered(s, es, to - 1, Success) then c.data else [])
  }

  /** The pieces that successful prepends put in front of it, the latest first. */
  ghost function InFront(s: Store, es: seq<Event>, k: Key, from: nat, to: nat): seq<Byte>
    requires AllWellTyped(es) && from <= to <= |es|
  {
    if from == to then []
    else
      var c := es[to - 1].cmd;
      (if c.Prepend? && c.key == k && Answered(s, es, to - 1, Success) then c.data else [])
      + InFront(s, es, k, from, to - 1)
  }

  /** The b-th command is the last one up to the n-th that gives k a value, by storing or by arithmetic. */
  ghost predicate LastPut(s: Store, es: seq<Event>, k: Key, b: nat, n: nat)
    requires AllWellTyped(es) && n <= |es|
  {
    && b < n && Puts(es[b].cmd, k) && Answered(s, es, b, Success)
    && forall i :: b < i < n && Answered(s, es, i, Success) ==> !Puts(es[i].cmd, k) && !IsArithmetic(es[i], k)
  }

  /** The i-th command takes k away: a flush, a delete, or a command that deletes the old item and then finds no memory
      for the new one. */
  ghost predicate Removes(s: Store, es: seq<Event>, i: nat, k: Key)
    requires AllWellTyped(es) && i < |es|
  {
    var c := es[i].cmd;
    || c.Flush?
    || (c.Delete? && c.key == k && Answered(s, es, i, Success))
    || ((c.Set? || c.Replace? || IsArithmetic(es[i], k)) && c.key == k && Answered(s, es, i, Enomem))
  }

  lemma RunNext(s: Store, es: seq<Event>, n: nat)
    requires AllWellTyped(es) && n < |es|
    ensures AllWellTyped(es[..n]) && AllWellTyped(es[..n + 1]) && WellTyped(es[n].cmd)
    ensures Run(s, es[..n + 1]) == Apply(Run(s, es[..n]), es[n]).0
  {
    assert es[..n + 1] == es[..n] + [es[n]];
    RunSnoc(s, es[..n], es[n]);
  }

  // ----- one command -----

  /** What a command makes of the value. */
  function Joined(was: seq<Byte>, e: Event, k: Key, ok: bool): seq<Byte> {
    if e.cmd.Append? && e.cmd.key == k && ok then was + e.cmd.data
    else if e.cmd.Prepend? && e.cmd.key == k && ok then e.cmd.data + was
    else was
  }

  lemma PutStores(s: Store, e: Event, k: Key)
    requires WellTyped(e.cmd) && Puts(e.cmd, k) && Apply(s, e).1.status == Success
    ensures var s' := Apply(s, e).0;
            && k in s'.items && s'.items[k].data == e.cmd.data
            && s'.items[k].flags == e.cmd.flags && s'.items[k].exp == e.cmd.exp
  {
  }

  /** Any other command leaves flags and expiry of k alone, and its value but for the piece it adds. */
  lemma OtherKeeps(s: Store, e: Event, k: Key)
    requires WellTyped(e.cmd)
    requires Apply(s, e).1.status == Success ==> !Puts(e.cmd, k) && !IsArithmetic(e, k)
    ensures var (s', ok) := (Apply(s, e).0, Apply(s, e).1.status == Success);
            k in s'.items ==>
              && k in s.items && s'.items[k].flags == s.items[k].flags && s'.items[k].exp == s.items[k].exp
              && s'.items[k].data == Joined(s.items[k].data, e, k, ok)
  {
    if IsArithmetic(e, k) {
      assert Apply(s, e) == ApplyArithmetic(s, e);
    }
  }

  /** When any other command leaves the key in place. */
  lemma OtherStays(s: Store, e: Event, k: Key)
    requires WellTyped(e.cmd) && k in s.items && Apply(s, e).1.status != Undefined
    requires Apply(s, e).1.status == Success ==> !Puts(e.cmd, k) && !IsArithmetic(e, k)
    ensures var (s', status) := (Apply(s, e).0, Apply(s, e).1.status);
            k in s'.items <==>
              && !e.cmd.Flush? && !(e.cmd.Delete? && e.cmd.key == k && status == Success)
              && !((e.cmd.Set? || e.cmd.Replace? || IsArithmetic(e, k)) && e.cmd.key == k && status == Enomem)
  {
    if IsArithmetic(e, k) {
      assert Apply(s, e) == ApplyArithmetic(s, e);
    }
  }

  // ----- whole runs -----

  /** What k holds after n commands, b being the last that gave it a value. */
  ghost predicate HoldsAfter(s: Store, es: seq<Event>, k: Key, b: nat, n: nat, item: Item)
    requires AllWellTyped(es) && b < n <= |es|
  {
    var c := es[b].cmd;
    && Puts(c, k)
    && item.data == InFront(s, es, k, b + 1, n) + c.data + Behind(s, es, k, b + 1, n)
    && item.flags == c.flags && item.exp == c.exp
  }

  lemma PieceAdded(front: seq<Byte>, data: seq<Byte>, behind: seq<Byte>, piece: seq<Byte>)
    ensures front + data + behind + piece == front + data + (behind + piece)
    ensures piece + (front + data + behind) == piece + front + data + behind
  {
  }

  lemma FirstValue(s: Store, es: seq<Event>, k: Key, b: nat, item: Item)
    requires AllWellTyped(es) && b < |es| && Puts(es[b].cmd, k)
    requires item.data == es[b].cmd.data && item.flags == es[b].cmd.flags && item.exp == es[b].cmd.exp
    ensures HoldsAfter(s, es, k, b, b + 1, item)
  {
    assert [] + es[b].cmd.data + [] == es[b].cmd.data;
  }

  lemma NextValue(s: Store, es: seq<Event>, k: Key, b: nat, m: nat, item: Item, item': Item)
    requires AllWellTyped(es) && b < m < |es| && HoldsAfter(s, es, k, b, m, item)
    requires item'.data == Joined(item.data, es[m], k, Answered(s, es, m, Success))
    requires item'.flags == item.flags && item'.exp == item.exp
    ensures HoldsAfter(s, es, k, b, m + 1, item')
  {
    if es[m].cmd.Append? || es[m].cmd.Prepend? {
      PieceAdded(InFront(s, es, k, b + 1, m), es[b].cmd.data, Behind(s, es, k, b + 1, m), es[m].cmd.data);
    }
    assert [] + InFront(s, es, k, b + 1, m) == InFront(s, es, k, b + 1, m);
    assert Behind(s, es, k, b + 1, m) + [] == Behind(s, es, k, b + 1, m);
  }

  lemma {:induction false} ValueAfter(s: Store, es: seq<Event>, k: Key, b: nat, n: nat)
    requires AllWellTyped(es) && n <= |es| && LastPut(s, es, k, b, n) && k in Run(s, es[..n]).items
    ensures HoldsAfter(s, es, k, b, n, Run(s, es[..n]).items[k])
    decreases n
  {
    var m := n - 1;
    RunNext(s, es, m);
    var t, u := Run(s, es[..m]), Run(s, es[..n]);
    if m == b {
      PutStores(t, es[b], k);
      FirstValue(s, es, k, b, u.items[k]);
    } else {
      assert Answered(s, es, m, Success) ==> !Puts(es[m].cmd, k) && !IsArithmetic(es[m], k);
      OtherKeeps(t, es[m], k);
      ValueAfter(s, es, k, b, m);
      NextValue(s, es, k, b, m, t.items[k], u.items[k]);
    }
  }

  /** Over every run: a get returns, under the key, the data of the last set, add or replace on it, all that was
      appended since behind it in order, and all that was prepended since in front of it, the latest first.  Flags
      and expiry are those of that command. */
  lemma GetReturns(s: Store, es: seq<Event>, k: Key, b: nat, memory: bool)
    requires AllWellTyped(es) && LastPut(s, es, k, b, |es|)
    requires Apply(Run(s, es), Event(Get(k), memory)).1.status == Success
    ensures var found := Apply(Run(s, es), Event(Get(k), memory)).1.found;
            |found| == 1 && HoldsAfter(s, es, k, b, |es|, found[0])
  {
    assert es[..|es|] == es;
    ValueAfter(s, es, k, b, |es|);
  }

  lemma {:induction false} StaysAfter(s: Store, es: seq<Event>, k: Key, b: nat, n: nat)
    requires AllWellTyped(es) && n <= |es| && LastPut(s, es, k, b, n)
    requires forall i :: 0 <= i < n ==> !Answered(s, es, i, Undefined)
    ensures k in Run(s, es[..n]).items <==> forall i :: b < i < n ==> !Removes(s, es, i, k)
    decreases n
  {
    var m := n - 1;
    RunNext(s, es, m);
    if m == b {
      PutStores(Run(s, es[..b]), es[b], k);
    } else {
      assert !Answered(s, es, m, Undefined);
      assert Answered(s, es, m, Success) ==> !Puts(es[m].cmd, k) && !IsArithmetic(es[m], k);
      StaysAfter(s, es, k, b, m);
      if k in Run(s, es[..m]).items {
        OtherStays(Run(s, es[..m]), es[m], k);
        assert k in Run(s, es[..n]).items <==> !Removes(s, es, m, k);
      } else {
        OtherKeeps(Run(s, es[..m]), es[m], k);
      }
    }
  }

  /** And it returns something exactly when nothing has taken the key away since. */
  lemma GetSucceedsIff(s: Store, es: seq<Event>, k: Key, b: nat, memory: bool)
    requires AllWellTyped(es) && LastPut(s, es, k, b, |es|)
    requires forall i :: 0 <= i < |es| ==> !Answered(s, es, i, Undefined)
    ensures Apply(Run(s, es), Event(Get(k), memory)).1.status == Success <==>
            forall i :: b < i < |es| ==> !Removes(s, es, i, k)
  {
    assert es[..|es|] == es;
    StaysAfter(s, es, k, b, |es|);
  }

  // ----- answers -----

  function Token(c: Command): nat {
    if c.Set? || c.Replace? || c.Append? || c.Prepend? || c.Delete? then c.token else 0
  }

  /** The answer to a command that is not arithmetic, from whether the key is there, carries the token, and memory
      can be had. */
  lemma AnswerIs(s: Store, e: Event)
    requires WellTyped(e.cmd) && !e.cmd.Flush? && !e.cmd.Increment? && !e.cmd.Decrement?
    ensures var c, status := e.cmd, Apply(s, e).1.status;
            var present, creates := c.key in s.items, c.Set? || c.Add?;
            var refused := present && (c.Add? || (Token(c) != 0 && s.items[c.key].cas != Token(c)));
            && (status == KeyEexists <==> refused)
            && (status == KeyEnoent <==> !present && !creates)
            && (status == Enomem <==> !refused && (present || creates) && !e.memory && !c.Get? && !c.Delete?)
            && status != Undefined
  {
  }
}
