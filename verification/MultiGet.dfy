/**
 memcached_mget_by_key_real over the text protocol: the keys of one call are spread over the servers that own them,
 one command line for each server.
 */
module MultiGet {
  import opened Basics

  datatype Rc = NotFound | NoServers | Success | ConnectFailure | SomeErrors

  /**
   A call: the keys, the server each of them is dispatched to (all the same with a master key), and what the environment
   does: connecting for a key, writing a key, writing the end of a server's line.
   */
  datatype Call = Call(cas: bool, prefix: string, keys: seq<string>, servers: nat, owner: nat -> nat,
                       connects: nat -> bool, writes: nat -> bool, ends: nat -> bool)

  ghost predicate Dispatched(c: Call) {
    forall x :: 0 <= x < |c.keys| ==> c.owner(x) < c.servers
  }

  function Command(c: Call): string { if c.cas then "gets " else "get " }

  // ----- what the servers should get -----

  /** The keys among the first k that belong to server v, in the caller's order. */
  function Owned(c: Call, v: nat, k: nat): seq<nat> {
    if k == 0 then [] else Owned(c, v, k - 1) + if c.owner(k - 1) == v then [k - 1] else []
  }

  /** Those on v's present connection: any failure of v's closes it and what it held is lost. */
  function Accepted(c: Call, v: nat, k: nat): seq<nat> {
    if k == 0 then []
    else
      var before := Accepted(c, v, k - 1);
      if c.owner(k - 1) != v then before
      else if (before == [] && !c.connects(k - 1)) || !c.writes(k - 1) then []
      else before + [k - 1]
  }

  function Word(c: Call, x: nat): string
    requires x < |c.keys|
  {
    c.prefix + c.keys[x]
  }

  function Item(c: Call, x: nat): string
    requires x < |c.keys|
  {
    Word(c, x) + " "
  }

  /** The keys of a line, each with the prefix before it and a space after it. */
  function Body(c: Call, xs: seq<nat>): string
    requires forall i :: 0 <= i < |xs| ==> xs[i] < |c.keys|
  {
    if xs == [] then "" else Body(c, xs[..|xs| - 1]) + Item(c, xs[|xs| - 1])
  }

  function Line(c: Call, xs: seq<nat>): string
    requires forall i :: 0 <= i < |xs| ==> xs[i] < |c.keys|
  {
    if xs == [] then "" else Command(c) + Body(c, xs)
  }

  lemma {:induction false} AcceptedAreKeys(c: Call, v: nat, k: nat)
    ensures forall i :: 0 <= i < |Accepted(c, v, k)| ==> Accepted(c, v, k)[i] < k && c.owner(Accepted(c, v, k)[i]) == v
  {
    if k > 0 {
      AcceptedAreKeys(c, v, k - 1);
    }
  }

  /** Every key is owned by exactly one server, and listed in the caller's order. */
  lemma {:induction false} OwnedPartition(c: Call, v: nat, k: nat)
    ensures forall x :: x in Owned(c, v, k) <==> 0 <= x < k && c.owner(x) == v
    ensures forall i, j :: 0 <= i < j < |Owned(c, v, k)| ==> Owned(c, v, k)[i] < Owned(c, v, k)[j]
  {
    if k > 0 {
      OwnedPartition(c, v, k - 1);
      var before := Owned(c, v, k - 1);
      assert forall i :: 0 <= i < |before| ==> before[i] in before;
    }
  }

  ghost predicate Quiet(c: Call, v: nat) {
    forall x :: 0 <= x < |c.keys| && c.owner(x) == v ==> c.connects(x) && c.writes(x)
  }

  lemma {:induction false} QuietAcceptsAll(c: Call, v: nat, k: nat)
    requires Quiet(c, v) && k <= |c.keys|
    ensures Accepted(c, v, k) == Owned(c, v, k)
  {
    if k > 0 {
      QuietAcceptsAll(c, v, k - 1);
    }
  }

  /** Whatever fails, a connection holds all the keys of its server from some key on. */
  lemma {:induction false} AcceptedIsTail(c: Call, v: nat, k: nat) returns (n: nat)
    ensures n <= |Owned(c, v, k)| && Accepted(c, v, k) == Owned(c, v, k)[n..]
  {
    if k == 0 {
      n := 0;
    } else {
      n := AcceptedIsTail(c, v, k - 1);
      if c.owner(k - 1) == v && Accepted(c, v, k) == [] {
        n := |Owned(c, v, k)|;
      }
    }
  }

  // ----- a server reads the line -----

  /** The words of a text in which each is followed by a space. */
  function Words(text: string, word: string): seq<string> {
    if text == "" then []
    else if text[0] == ' ' then [word] + Words(text[1..], "")
    else Words(text[1..], word + [text[0]])
  }

  ghost predicate Plain(word: string) {
    forall i :: 0 <= i < |word| ==> word[i] != ' '
  }

  lemma {:induction false} FirstWord(word: string, rest: string, before: string)
    requires Plain(word)
    ensures Words((word + " ") + rest, before) == [before + word] + Words(rest, "")
    decreases |word|
  {
    var text := (word + " ") + rest;
    if word == "" {
      assert text[1..] == rest && before + word == before;
    } else {
      assert text[1..] == (word[1..] + " ") + rest;
      assert before + [word[0]] + word[1..] == before + word;
      FirstWord(word[1..], rest, before + [word[0]]);
    }
  }

  lemma {:induction false} BodyFront(c: Call, xs: seq<nat>)
    requires xs != [] && forall i :: 0 <= i < |xs| ==> xs[i] < |c.keys|
    ensures Body(c, xs) == Item(c, xs[0]) + Body(c, xs[1..])
    decreases |xs|
  {
    var n := |xs| - 1;
    if n > 0 {
      BodyFront(c, xs[..n]);
      assert xs[..n][1..] == xs[1..][..n - 1];
      Assoc(Item(c, xs[0]), Body(c, xs[..n][1..]), Item(c, xs[n]));
    }
  }

  function WordsOf(c: Call, xs: seq<nat>): seq<string>
    requires forall i :: 0 <= i < |xs| ==> xs[i] < |c.keys|
  {
    seq(|xs|, i requires 0 <= i < |xs| => Word(c, xs[i]))
  }

  /** Splitting the line at spaces gives back the keys, if neither they nor the prefix hold one. */
  lemma {:induction false} BodySplits(c: Call, xs: seq<nat>)
    requires forall i :: 0 <= i < |xs| ==> xs[i] < |c.keys| && Plain(Word(c, xs[i]))
    ensures Words(Body(c, xs), "") == WordsOf(c, xs)
  {
    if xs != [] {
      BodyFront(c, xs);
      FirstWord(Word(c, xs[0]), Body(c, xs[1..]), "");
      BodySplits(c, xs[1..]);
      assert WordsOf(c, xs) == [Word(c, xs[0])] + WordsOf(c, xs[1..]);
      assert "" + Word(c, xs[0]) == Word(c, xs[0]);
    }
  }

  // ----- the call -----

  /** What server v holds after the first k keys: its line so far, and one response due if there is a line. */
  ghost predicate HoldsAt(c: Call, k: nat, v: nat, text: string, due: nat) {
    && k <= |c.keys|
    && (forall i :: 0 <= i < |Accepted(c, v, k)| ==> Accepted(c, v, k)[i] < |c.keys|)
    && text == Line(c, Accepted(c, v, k))
    && due == if Accepted(c, v, k) == [] then 0 else 1
  }

  ghost predicate Holding(c: Call, k: nat, stream: seq<string>, pending: seq<nat>) {
    && |stream| == |pending| == c.servers
    && forall v :: 0 <= v < c.servers ==> HoldsAt(c, k, v, stream[v], pending[v])
  }

  lemma LineGrows(c: Call, xs: seq<nat>, x: nat)
    requires x < |c.keys| && forall i :: 0 <= i < |xs| ==> xs[i] < |c.keys|
    ensures Line(c, xs + [x]) == (if xs == [] then Command(c) else Line(c, xs)) + Item(c, x)
  {
    var all := xs + [x];
    assert all[..|all| - 1] == xs;
    Assoc(Command(c), Body(c, xs), Item(c, x));
  }

  /** A key changes the line of its owner only. */
  lemma KeyTaken(c: Call, x: nat, v: nat, text: string, due: nat)
    requires x < |c.keys| && HoldsAt(c, x, v, text, due)
    ensures c.owner(x) != v ==> HoldsAt(c, x + 1, v, text, due)
    ensures c.owner(x) == v && ((due == 0 && !c.connects(x)) || !c.writes(x)) ==> HoldsAt(c, x + 1, v, "", 0)
    ensures c.owner(x) == v && due == 0 && c.connects(x) && c.writes(x) ==>
              HoldsAt(c, x + 1, v, text + Command(c) + Item(c, x), 1)
    ensures c.owner(x) == v && due > 0 && c.writes(x) ==> HoldsAt(c, x + 1, v, text + Item(c, x), due)
  {
    LineGrows(c, Accepted(c, v, x), x);
    if due == 0 {
      assert text + Command(c) == Command(c);
    }
  }

  lemma OthersKept(c: Call, x: nat, s: seq<string>, p: seq<nat>, t: seq<string>, q: seq<nat>)
    requires x < |c.keys| && Holding(c, x, s, p) && c.owner(x) < c.servers == |t| == |q|
    requires t == s[c.owner(x) := t[c.owner(x)]] && q == p[c.owner(x) := q[c.owner(x)]]
    requires HoldsAt(c, x + 1, c.owner(x), t[c.owner(x)], q[c.owner(x)])
    ensures Holding(c, x + 1, t, q)
  {
    forall w | 0 <= w < c.servers
      ensures HoldsAt(c, x + 1, w, t[w], q[w])
    {
      KeyTaken(c, x, w, s[w], p[w]);
    }
  }

  // ----- the return code -----

  /** Key x begins a line. */
  predicate Opens(c: Call, x: nat) {
    Accepted(c, c.owner(x), x) == [] && c.connects(x) && c.writes(x)
  }

  /** Its server cannot be connected to, or not be written to. */
  predicate Fails(c: Call, x: nat) {
    (Accepted(c, c.owner(x), x) == [] && !c.connects(x)) || !c.writes(x)
  }

  /** The code after the first k keys: each key that begins a line or fails sets it anew. */
  function RcAfter(c: Call, k: nat): Rc {
    if k == 0 then NotFound
    else
      var x := k - 1;
      if Accepted(c, c.owner(x), x) == [] && !c.connects(x) then ConnectFailure
      else if !c.writes(x) then SomeErrors
      else if Accepted(c, c.owner(x), x) == [] then Success
      else RcAfter(c, x)
  }

  ghost predicate NoFailure(c: Call, from: nat, to: nat) {
    forall y :: from <= y < to ==> !Fails(c, y)
  }

  /** So the loop over the keys ends in success exactly when some key has begun a line and no later one has failed: what
      failed before is forgotten. */
  lemma {:induction false} SuccessIff(c: Call, k: nat)
    ensures RcAfter(c, k) == Success <==> exists x :: 0 <= x < k && Opens(c, x) && NoFailure(c, x + 1, k)
  {
    if k > 0 {
      var x := k - 1;
      SuccessIff(c, x);
      if Opens(c, x) {
        assert NoFailure(c, x + 1, k);
      } else if !Fails(c, x) && RcAfter(c, x) == Success {
        var z :| 0 <= z < x && Opens(c, z) && NoFailure(c, z + 1, x);
        assert NoFailure(c, z + 1, k);
      }
    }
  }

  /** The first of two keys cannot be sent, its server being down; the second, to another server, can: the call
      succeeds. */
  lemma FailureForgotten(c: Call)
    requires |c.keys| == 2 && c.owner(0) != c.owner(1) && !c.connects(0) && c.connects(1) && c.writes(1)
    ensures RcAfter(c, 2) == Success && Accepted(c, c.owner(0), 2) == []
  {
    assert Accepted(c, c.owner(1), 0) == [] && Accepted(c, c.owner(0), 0) == [];
    assert Accepted(c, c.owner(1), 1) == [] && Accepted(c, c.owner(0), 1) == [];
  }

  lemma QuietSucceeds(c: Call)
    requires |c.keys| > 0 && Dispatched(c) && forall v :: 0 <= v < c.servers ==> Quiet(c, v)
    ensures RcAfter(c, |c.keys|) == Success
  {
    forall y | 0 <= y < |c.keys|
      ensures !Fails(c, y)
    {
      assert Quiet(c, c.owner(y));
    }
    assert Quiet(c, c.owner(0)) && Opens(c, 0) && NoFailure(c, 1, |c.keys|);
    SuccessIff(c, |c.keys|);
  }

  method SendKey(c: Call, x: nat, stream: array<string>, pending: array<nat>, before: Rc) returns (rc: Rc)
    requires x < |c.keys| && Dispatched(c) && Holding(c, x, stream[..], pending[..])
    modifies stream, pending
    ensures Holding(c, x + 1, stream[..], pending[..])
    ensures rc == if !c.connects(x) && Accepted(c, c.owner(x), x) == [] then ConnectFailure
                  else if !c.writes(x) then SomeErrors
                  else if Accepted(c, c.owner(x), x) == [] then Success
                  else before
  {
    var v := c.owner(x);
    ghost var s, p := stream[..], pending[..];
    assert HoldsAt(c, x, v, s[v], p[v]);
    KeyTaken(c, x, v, s[v], p[v]);
    rc := before;
    if pending[v] == 0 {
      if !c.connects(x) {
        rc := ConnectFailure;
      } else if !c.writes(x) {
        rc := SomeErrors;
      } else {
        rc := Success;
        stream[v] := stream[v] + Command(c) + Item(c, x);
        pending[v] := pending[v] + 1;
      }
    } else {
      if c.writes(x) {
        stream[v] := stream[v] + Item(c, x);
      } else {
        stream[v], pending[v], rc := "", 0, SomeErrors;
      }
    }
    OthersKept(c, x, s, p, stream[..], pending[..]);
  }

  /** The end of a line. */
  function Closed(c: Call, v: nat, line: string): string {
    if line == "" || !c.ends(v) then "" else line + "\r\n"
  }

  method EndLines(c: Call, stream: array<string>, pending: array<nat>, before: Rc) returns (rc: Rc)
    requires stream.Length == pending.Length == c.servers
    requires forall v :: 0 <= v < c.servers ==> pending[v] == if stream[v] == "" then 0 else 1
    modifies stream, pending
    ensures forall v :: 0 <= v < c.servers ==> stream[v] == Closed(c, v, old(stream[v]))
    ensures forall v :: 0 <= v < c.servers ==> pending[v] == if stream[v] == "" then 0 else 1
    ensures rc == if exists v :: 0 <= v < c.servers && old(stream[v]) != "" && !c.ends(v) then SomeErrors else before
  {
    rc := before;
    for x := 0 to c.servers
      invariant rc == if exists v :: 0 <= v < x && old(stream[v]) != "" && !c.ends(v) then SomeErrors else before
      invariant forall v :: 0 <= v < c.servers ==>
                stream[v] == if v < x then Closed(c, v, old(stream[v])) else old(stream[v])
      invariant forall v :: 0 <= v < c.servers ==> pending[v] == if stream[v] == "" then 0 else 1
    {
      if pending[x] != 0 {
        if c.ends(x) {
          stream[x] := stream[x] + "\r\n";
        } else {
          stream[x], pending[x], rc := "", 0, SomeErrors;
        }
      }
    }
  }

  /** All that server v receives in a call. */
  function Received(c: Call, v: nat): string {
    AcceptedAreKeys(c, v, |c.keys|);
    Closed(c, v, Line(c, Accepted(c, v, |c.keys|)))
  }

  lemma LineHeld(c: Call, v: nat, text: string, due: nat)
    requires HoldsAt(c, |c.keys|, v, text, due)
    ensures due == (if text == "" then 0 else 1) && (text == "" <==> Accepted(c, v, |c.keys|) == [])
    ensures Closed(c, v, text) == Received(c, v)
  {
  }

  /** The loop over the keys. */
  method SendKeys(c: Call, stream: array<string>, pending: array<nat>) returns (rc: Rc)
    requires Dispatched(c) && Holding(c, 0, stream[..], pending[..])
    modifies stream, pending
    ensures Holding(c, |c.keys|, stream[..], pending[..]) && rc == RcAfter(c, |c.keys|)
  {
    rc := NotFound;
    for x := 0 to |c.keys|
      invariant Holding(c, x, stream[..], pending[..])
      invariant rc == RcAfter(c, x)
    {
      rc := SendKey(c, x, stream, pending, rc);
    }
  }

  /**
   The call. Every server receives the one line that its own keys make and nothing else; without failures that is all
   its keys in the caller's order.
   */
  method MgetByKeyReal(c: Call, stream: array<string>, pending: array<nat>) returns (rc: Rc)
    requires c.servers > 0 ==> Dispatched(c)
    requires stream.Length == pending.Length == c.servers
    requires forall v :: 0 <= v < c.servers ==> stream[v] == "" && pending[v] == 0
    modifies stream, pending
    ensures forall v :: 0 <= v < c.servers ==> stream[v] == Received(c, v)
    ensures forall v :: 0 <= v < c.servers ==> pending[v] == if stream[v] == "" then 0 else 1
    ensures |c.keys| == 0 ==> rc == NotFound
    ensures |c.keys| > 0 && c.servers == 0 ==> rc == NoServers
    ensures |c.keys| > 0 && c.servers > 0 ==>
              rc == if exists v :: 0 <= v < c.servers && !c.ends(v) && Accepted(c, v, |c.keys|) != [] then SomeErrors
                    else RcAfter(c, |c.keys|)
    ensures |c.keys| > 0 && c.servers > 0 && (forall v :: 0 <= v < c.servers ==> Quiet(c, v) && c.ends(v)) ==>
              rc == Success
  {
    if |c.keys| == 0 { return NotFound; }
    if c.servers == 0 { return NoServers; }
    rc := SendKeys(c, stream, pending);
    forall v | 0 <= v < c.servers
      ensures pending[v] == if stream[v] == "" then 0 else 1
      ensures (stream[v] == "" <==> Accepted(c, v, |c.keys|) == []) && Closed(c, v, stream[v]) == Received(c, v)
    {
      LineHeld(c, v, stream[..][v], pending[..][v]);
    }
    rc := EndLines(c, stream, pending, rc);
    if forall v :: 0 <= v < c.servers ==> Quiet(c, v) {
      QuietSucceeds(c);
    }
  }

  /** Without failures a server that owns keys receives exactly one command line with them, and others nothing. */
  lemma OneLineEach(c: Call, v: nat)
    requires Quiet(c, v) && c.ends(v)
    ensures forall i :: 0 <= i < |Owned(c, v, |c.keys|)| ==> Owned(c, v, |c.keys|)[i] < |c.keys|
    ensures Received(c, v) == if Owned(c, v, |c.keys|) == [] then ""
                              else Command(c) + Body(c, Owned(c, v, |c.keys|)) + "\r\n"
  {
    QuietAcceptsAll(c, v, |c.keys|);
    AcceptedAreKeys(c, v, |c.keys|);
  }

  // ----- what a server makes of its line -----

  /** The words of a command line. */
  ghost predicate IsRequest(c: Call, words: seq<string>, xs: seq<nat>)
    requires forall i :: 0 <= i < |xs| ==> xs[i] < |c.keys|
  {
    && |words| == 1 + |xs| && words[0] == (if c.cas then "gets" else "get")
    && forall i :: 0 <= i < |xs| ==>
         && |words[1 + i]| == |c.prefix| + |c.keys[xs[i]]|
         && words[1 + i][..|c.prefix|] == c.prefix && words[1 + i][|c.prefix|..] == c.keys[xs[i]]
  }

  lemma PlainWord(c: Call, x: nat)
    requires x < |c.keys| && Plain(c.prefix) && Plain(c.keys[x])
    ensures Plain(Word(c, x))
  {
  }

  lemma CommandSplits(c: Call, rest: string)
    ensures Words(Command(c) + rest, "") == [if c.cas then "gets" else "get"] + Words(rest, "")
  {
    var name := if c.cas then "gets" else "get";
    assert Command(c) == name + " " && Plain(name) && "" + name == name;
    FirstWord(name, rest, "");
  }

  lemma LineSplits(c: Call, xs: seq<nat>)
    requires xs != [] && Plain(c.prefix) && forall i :: 0 <= i < |xs| ==> xs[i] < |c.keys| && Plain(c.keys[xs[i]])
    ensures IsRequest(c, Words(Line(c, xs), ""), xs)
  {
    forall i | 0 <= i < |xs|
      ensures Plain(Word(c, xs[i]))
    {
      PlainWord(c, xs[i]);
    }
    BodySplits(c, xs);
    CommandSplits(c, Body(c, xs));
  }

  /** Whatever fails: a server that receives anything receives one line, ended by CR and LF, and reads it as the command
      and, one word for each key it has accepted and in the caller's order, the prefix followed by the key. */
  lemma ServerReads(c: Call, v: nat)
    requires Plain(c.prefix) && forall x :: 0 <= x < |c.keys| ==> Plain(c.keys[x])
    requires Received(c, v) != ""
    ensures var (line, xs) := (Received(c, v), Accepted(c, v, |c.keys|));
            && xs != [] && (forall i :: 0 <= i < |xs| ==> xs[i] < |c.keys|)
            && |line| >= 2 && line[|line| - 2..] == "\r\n"
            && IsRequest(c, Words(line[..|line| - 2], ""), xs)
  {
    AcceptedAreKeys(c, v, |c.keys|);
    var xs := Accepted(c, v, |c.keys|);
    LineSplits(c, xs);
    var line := Received(c, v);
    assert line == Line(c, xs) + "\r\n";
    assert line[..|line| - 2] == Line(c, xs);
  }

  /** Without failures each server that owns keys reads all of them, and the others receive nothing. */
  lemma ServerReadsAll(c: Call, v: nat)
    requires Plain(c.prefix) && forall x :: 0 <= x < |c.keys| ==> Plain(c.keys[x])
    requires Quiet(c, v) && c.ends(v)
    ensures forall i :: 0 <= i < |Owned(c, v, |c.keys|)| ==> Owned(c, v, |c.keys|)[i] < |c.keys|
    ensures var (line, xs) := (Received(c, v), Owned(c, v, |c.keys|));
            if xs == [] then line == ""
            else |line| >= 2 && line[|line| - 2..] == "\r\n" && IsRequest(c, Words(line[..|line| - 2], ""), xs)
  {
    OneLineEach(c, v);
    QuietAcceptsAll(c, v, |c.keys|);
    if Owned(c, v, |c.keys|) != [] {
      ServerReads(c, v);
    }
  }
}
