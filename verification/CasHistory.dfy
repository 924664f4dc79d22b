/**
 Optimistic concurrency: what a CAS token says about the runs that came after it was handed out.
 */
module CasHistory {
  import opened Basics
  import opened StoreModel

  /** Every present item carries its own number, none above the counter. */
  ghost predicate CasInv(s: Store) {
    && (forall k :: k in s.items ==> 1 <= s.items[k].cas <= s.cas)
    && (forall k, l :: k in s.items && l in s.items && k != l ==> s.items[k].cas != s.items[l].cas)
  }

  ghost predicate AllWellTyped(es: seq<Event>) {
    forall e :: e in es ==> WellTyped(e.cmd)
  }

  /** The event is a command that stores an item under k, and it succeeds. */
  ghost predicate StoresTo(s: Store, e: Event, k: Key)
    requires WellTyped(e.cmd)
  {
    && !e.cmd.Get? && !e.cmd.Delete? && !e.cmd.Flush?
    && e.cmd.key == k
    && Apply(s, e).1.status == Success
  }

  /** Some event of the run stores under k. */
  ghost predicate StoredSince(s: Store, es: seq<Event>, k: Key)
    requires AllWellTyped(es)
    decreases |es|
  {
    es != [] && (StoresTo(s, es[0], k) || StoredSince(Apply(s, es[0]).0, es[1..], k))
  }

  /** How many of the events store an item, under whatever key. */
  ghost function Stores(s: Store, es: seq<Event>): nat
    requires AllWellTyped(es)
    decreases |es|
  {
    if es == [] then 0
    else (if StoresSome(s, es[0]) then 1 else 0) + Stores(Apply(s, es[0]).0, es[1..])
  }

  ghost predicate StoresSome(s: Store, e: Event)
    requires WellTyped(e.cmd)
  {
    !e.cmd.Get? && !e.cmd.Delete? && !e.cmd.Flush? && Apply(s, e).1.status == Success
  }

  /** One event either stores under k with the next number, or leaves k alone, or removes k. */
  lemma ApplyOnKey(s: Store, e: Event, k: Key)
    requires WellTyped(e.cmd) && (StoresSome(s, e) ==> s.cas + 1 < TWO_64)
    ensures var s' := Apply(s, e).0;
            && s'.cas == s.cas + (if StoresSome(s, e) then 1 else 0)
            && (StoresTo(s, e, k) ==> s'.cas == s.cas + 1 && k in s'.items && s'.items[k].cas == s.cas + 1)
            && (!StoresTo(s, e, k) && k in s'.items ==> k in s.items && s'.items[k] == s.items[k])
  {
  }

  lemma ApplyKeepsCasInv(s: Store, e: Event)
    requires WellTyped(e.cmd) && (StoresSome(s, e) ==> s.cas + 1 < TWO_64) && CasInv(s)
    ensures CasInv(Apply(s, e).0)
  {
    var s' := Apply(s, e).0;
    forall k | k in s'.items
      ensures 1 <= s'.items[k].cas <= s'.cas
    {
      ApplyOnKey(s, e, k);
    }
    forall k, l | k in s'.items && l in s'.items && k != l
      ensures s'.items[k].cas != s'.items[l].cas
    {
      ApplyOnKey(s, e, k);
      ApplyOnKey(s, e, l);
    }
  }

  /** The number in the answer to a store is that of the item: the one a get of the key shows. */
  lemma NumberTold(s: Store, e: Event, k: Key)
    requires WellTyped(e.cmd) && StoresTo(s, e, k)
    ensures var (s', r) := Apply(s, e);
            k in s'.items && r.cas == s'.items[k].cas && Apply(s', Event(Get(k), e.memory)).1.found == [s'.items[k]]
  {
    if e.cmd.Increment? || e.cmd.Decrement? {
      assert Apply(s, e) == ApplyArithmetic(s, e);
    }
  }

  /** Over every run with too few stores to exhaust the counter, however many other commands it has, numbers of
      present items stay distinct and bounded, and the counter counts the stores. */
  lemma {:induction false} RunKeepsCasInv(s: Store, es: seq<Event>)
    requires AllWellTyped(es) && s.cas + Stores(s, es) < TWO_64 && CasInv(s)
    ensures CasInv(Run(s, es)) && Run(s, es).cas == s.cas + Stores(s, es)
    decreases |es|
  {
    if es != [] {
      ApplyKeepsCasInv(s, es[0]);
      ApplyOnKey(s, es[0], []);
      RunKeepsCasInv(Apply(s, es[0]).0, es[1..]);
    }
  }

  /** Once k is gone or carries a number above t, no later item under k carries t again. */
  lemma {:induction false} NeverReissued(s: Store, es: seq<Event>, k: Key, t: nat)
    requires AllWellTyped(es) && s.cas + Stores(s, es) < TWO_64
    requires t <= s.cas && (k in s.items ==> s.items[k].cas > t)
    ensures var s' := Run(s, es); k in s'.items ==> s'.items[k].cas > t
    decreases |es|
  {
    if es != [] {
      ApplyOnKey(s, es[0], k);
      NeverReissued(Apply(s, es[0]).0, es[1..], k, t);
    }
  }

  /** A key that is still present carries its old number exactly when nothing was stored under it since;
      then the whole item is the old one. */
  lemma {:induction false} TokenTracksStores(s: Store, es: seq<Event>, k: Key)
    requires AllWellTyped(es) && s.cas + Stores(s, es) < TWO_64 && CasInv(s) && k in s.items
    ensures var s' := Run(s, es);
            k in s'.items ==>
              && (s'.items[k].cas == s.items[k].cas <==> !StoredSince(s, es, k))
              && (!StoredSince(s, es, k) ==> s'.items[k] == s.items[k])
    decreases |es|
  {
    if es != [] {
      var s1 := Apply(s, es[0]).0;
      ApplyOnKey(s, es[0], k);
      ApplyKeepsCasInv(s, es[0]);
      if StoresTo(s, es[0], k) {
        NeverReissued(s1, es[1..], k, s.items[k].cas);
      } else if k in s1.items {
        TokenTracksStores(s1, es[1..], k);
      } else {
        NeverReissued(s1, es[1..], k, s.items[k].cas);
        AbsentThenPresent(s1, es[1..], k);
      }
    }
  }

  /** An absent key can only come back through a store. */
  lemma {:induction false} AbsentThenPresent(s: Store, es: seq<Event>, k: Key)
    requires AllWellTyped(es) && s.cas + Stores(s, es) < TWO_64 && k !in s.items
    ensures k in Run(s, es).items ==> StoredSince(s, es, k)
    decreases |es|
  {
    if es != [] {
      ApplyOnKey(s, es[0], k);
      if k !in Apply(s, es[0]).0.items {
        AbsentThenPresent(Apply(s, es[0]).0, es[1..], k);
      }
    }
  }

  /** A command that writes or deletes k only if k still carries the token. */
  ghost predicate Conditional(c: Command, k: Key, t: nat) {
    (c.Set? || c.Replace? || c.Append? || c.Prepend? || c.Delete?) && c.key == k && c.token == t
  }

  function WithoutToken(c: Command): Command {
    match c
    case Set(k, d, f, x, _) => Set(k, d, f, x, 0)
    case Replace(k, d, f, x, _) => Replace(k, d, f, x, 0)
    case Append(k, d, _) => Append(k, d, 0)
    case Prepend(k, d, _) => Prepend(k, d, 0)
    case Delete(k, _) => Delete(k, 0)
    case _ => c
  }

  /** The promise of the token: after any run, a conditional write or delete is refused with KEY_EEXISTS, leaving the
      store as it was, exactly when the key is present and was stored since the token was issued.  Otherwise it does
      what it would do without a token: so a key that is gone is not protected, and a set on it goes through. */
  lemma ConditionalWrite(s: Store, es: seq<Event>, k: Key, e: Event)
    requires AllWellTyped(es) && s.cas + Stores(s, es) < TWO_64 && CasInv(s) && k in s.items
    requires Conditional(e.cmd, k, s.items[k].cas)
    ensures var s' := Run(s, es);
            var r := Apply(s', e).1;
            && (r.status == KeyEexists <==> k in s'.items && StoredSince(s, es, k))
            && (r.status == KeyEexists ==> Apply(s', e).0 == s')
            && (r.status != KeyEexists ==> Apply(s', e) == Apply(s', e.(cmd := WithoutToken(e.cmd))))
            && (e.memory && r.status != KeyEexists ==> (r.status == Success <==> k in s'.items || e.cmd.Set?))
  {
    TokenTracksStores(s, es, k);
  }
}
