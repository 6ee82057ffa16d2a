/** The broadcaster that tells the connected clients to refresh: buffered channels of capacity
    one, so that bursts collapse into one pending signal. */
module Broadcast {
  // ---- One call at a time ----

  /** A buffered channel of capacity 1. */
  class Channel {
    var tokens: nat

    constructor ()
      ensures tokens == 0
    {
      tokens := 0;
    }

    /** A send that gives up when the buffer is full. */
    method TrySend()
      requires tokens <= 1
      modifies this
      ensures tokens == 1
    {
      if tokens < 1 { tokens := tokens + 1; }
    }
  }

  class Broadcaster {
    var clients: set<Channel>

    ghost predicate Valid()
      reads this, clients
    {
      forall ch :: ch in clients ==> ch.tokens <= 1
    }

    constructor ()
      ensures Valid() && clients == {}
    {
      clients := {};
    }

    method Subscribe() returns (ch: Channel)
      requires Valid()
      modifies this
      ensures Valid() && fresh(ch) && ch.tokens == 0 && clients == old(clients) + {ch}
    {
      ch := new Channel();
      clients := clients + {ch};
    }

    /** What the closure returned by Subscribe does. */
    method Unsubscribe(ch: Channel)
      requires Valid()
      modifies this
      ensures Valid() && clients == old(clients) - {ch}
    {
      clients := clients - {ch};
    }

    /** Signals the clients of the moment, never blocks, and touches no other channel. */
    method Notify()
      requires Valid()
      modifies clients
      ensures Valid() && clients == old(clients)
      ensures forall ch :: ch in clients ==> ch.tokens == 1
    {
      var snapshot: seq<Channel> := [];
      var left := clients;
      while left != {}
        invariant left <= clients && forall ch :: ch in clients <==> ch in left || ch in snapshot
        decreases |left|
      {
        var ch :| ch in left;
        snapshot := snapshot + [ch];
        left := left - {ch};
      }
      var i := 0;
      while i < |snapshot|
        invariant 0 <= i <= |snapshot|
        invariant forall ch :: ch in clients ==> ch.tokens <= 1
        invariant forall k :: 0 <= k < i ==> snapshot[k].tokens == 1
      {
        snapshot[i].TrySend();
        i := i + 1;
      }
    }
  }

  // ---- Any interleaving ----

  /** A Notify call: the clients it saw under the lock, and those it has still to signal. */
  datatype Call = Call(snapshot: set<nat>, todo: set<nat>)

  /** `tokens`, `received` and `offered` count, for every channel made so far, the signals in
      its buffer, those taken out, and the attempts to put one in. */
  datatype State = State(
    clients: set<nat>,
    tokens: map<nat, nat>,
    received: map<nat, nat>,
    offered: map<nat, nat>,
    calls: seq<Call>)

  /** What can happen next; a label that is not enabled changes nothing. The mutex makes
      subscribing, unsubscribing and taking the snapshot atomic; the sends happen outside it. */
  datatype Label =
    | Subscribe(ch: nat)
    | Unsubscribe(ch: nat)
    | Begin
    | Send(k: nat, ch: nat)
    | Receive(ch: nat)

  function Init(): State
  {
    State({}, map[], map[], map[], [])
  }

  predicate Made(s: State, ch: nat)
  {
    ch in s.tokens && ch in s.received && ch in s.offered
  }

  function Apply(s: State, l: Label): State
  {
    match l
    case Subscribe(ch) =>
      if Made(s, ch) then s
      else State(s.clients + {ch}, s.tokens[ch := 0], s.received[ch := 0], s.offered[ch := 0], s.calls)
    case Unsubscribe(ch) => s.(clients := s.clients - {ch})
    case Begin => s.(calls := s.calls + [Call(s.clients, s.clients)])
    case Send(k, ch) =>
      if k < |s.calls| && ch in s.calls[k].todo && Made(s, ch)
      then s.(tokens := if s.tokens[ch] < 1 then s.tokens[ch := s.tokens[ch] + 1] else s.tokens,
              offered := s.offered[ch := s.offered[ch] + 1],
              calls := s.calls[k := s.calls[k].(todo := s.calls[k].todo - {ch})])
      else s
    case Receive(ch) =>
      if Made(s, ch) && s.tokens[ch] > 0
      then s.(tokens := s.tokens[ch := s.tokens[ch] - 1], received := s.received[ch := s.received[ch] + 1])
      else s
  }

  ghost function Exec(s: State, ls: seq<Label>): State
  {
    if ls == [] then s else Apply(Exec(s, ls[..|ls| - 1]), ls[|ls| - 1])
  }

  /** No channel holds more than one signal, and no signal comes from nowhere. */
  ghost predicate Inv(s: State)
  {
    && s.tokens.Keys == s.received.Keys == s.offered.Keys
    && (forall ch :: ch in s.clients ==> ch in s.tokens)
    && (forall k, ch :: 0 <= k < |s.calls| && ch in s.calls[k].todo ==> ch in s.tokens)
    && (forall ch :: ch in s.tokens ==> s.tokens[ch] <= 1)
    && (forall ch :: ch in s.tokens ==> s.received[ch] + s.tokens[ch] <= s.offered[ch])
  }

  lemma KeepsInv(s: State, l: Label)
    requires Inv(s)
    ensures Inv(Apply(s, l))
  {
  }

  /** In every reachable state each channel holds at most one signal, and a client has received
      no more signals than were offered to it. */
  lemma {:induction false} Always(ls: seq<Label>)
    ensures Inv(Exec(Init(), ls))
  {
    if ls != [] {
      Always(ls[..|ls| - 1]);
      KeepsInv(Exec(Init(), ls[..|ls| - 1]), ls[|ls| - 1]);
    }
  }

  /** Call k has still to signal the channel, or the channel holds a signal, or it has been
      received from since it had been received from r times. */
  ghost predicate Served(s: State, k: nat, ch: nat, r: nat)
  {
    && k < |s.calls| && ch in s.tokens && ch in s.received
    && (ch in s.calls[k].todo || s.tokens[ch] == 1 || s.received[ch] > r)
    && s.received[ch] >= r
  }

  lemma KeepsServed(s: State, l: Label, k: nat, ch: nat, r: nat)
    requires Inv(s) && Served(s, k, ch, r)
    ensures Served(Apply(s, l), k, ch, r)
  {
  }

  lemma {:induction false} StaysServed(s: State, ls: seq<Label>, k: nat, ch: nat, r: nat)
    requires Inv(s) && Served(s, k, ch, r)
    ensures Inv(Exec(s, ls)) && Served(Exec(s, ls), k, ch, r)
  {
    if ls != [] {
      StaysServed(s, ls[..|ls| - 1], k, ch, r);
      KeepsServed(Exec(s, ls[..|ls| - 1]), ls[|ls| - 1], k, ch, r);
      KeepsInv(Exec(s, ls[..|ls| - 1]), ls[|ls| - 1]);
    }
  }

  lemma {:induction false} ExecAppend(s: State, a: seq<Label>, b: seq<Label>)
    ensures Exec(s, a + b) == Exec(Exec(s, a), b)
  {
    if b == [] {
      assert a + b == a;
    } else {
      ExecAppend(s, a, b[..|b| - 1]);
      assert (a + b)[..|a + b| - 1] == a + b[..|b| - 1];
    }
  }

  /** No refresh is lost. Whoever was subscribed when a Notify took its snapshot has, once the
      Notify has dealt with it, a pending signal or has received one after the Notify began,
      whatever else happened in between. */
  lemma NoLostRefresh(before: seq<Label>, after: seq<Label>, ch: nat)
    requires ch in Exec(Init(), before).clients
    ensures var s0, s := Exec(Init(), before), Exec(Init(), before + [Begin] + after);
            var k := |s0.calls|;
            && k < |s.calls| && ch in s0.received && ch in s.received && ch in s.tokens
            && (ch !in s.calls[k].todo ==> s.tokens[ch] == 1 || s.received[ch] > s0.received[ch])
  {
    var s0 := Exec(Init(), before);
    Always(before);
    assert (before + [Begin])[..|before|] == before;
    assert Exec(Init(), before + [Begin]) == Apply(s0, Begin);
    KeepsInv(s0, Begin);
    ExecAppend(Init(), before + [Begin], after);
    StaysServed(Apply(s0, Begin), after, |s0.calls|, ch, s0.received[ch]);
  }

  /** The channel holds a signal, or it has been received from since it had been received from
      r times. */
  ghost predicate Signalled(s: State, ch: nat, r: nat)
  {
    ch in s.tokens && ch in s.received && s.received[ch] >= r && (s.tokens[ch] == 1 || s.received[ch] > r)
  }

  lemma KeepsSignalled(s: State, l: Label, ch: nat, r: nat)
    requires Inv(s) && Signalled(s, ch, r)
    ensures Signalled(Apply(s, l), ch, r)
  {
  }

  lemma {:induction false} StaysSignalled(s: State, ls: seq<Label>, ch: nat, r: nat)
    requires Inv(s) && Signalled(s, ch, r)
    ensures Inv(Exec(s, ls)) && Signalled(Exec(s, ls), ch, r)
  {
    if ls != [] {
      StaysSignalled(s, ls[..|ls| - 1], ch, r);
      KeepsSignalled(Exec(s, ls[..|ls| - 1]), ls[|ls| - 1], ch, r);
      KeepsInv(Exec(s, ls[..|ls| - 1]), ls[|ls| - 1]);
    }
  }

  /** From the moment at which a Notify has dealt with a channel, the channel holds a signal or
      has been received from since. */
  lemma HeldOrReceived(before: seq<Label>, k: nat, ch: nat, after: seq<Label>)
    requires var s := Exec(Init(), before); k < |s.calls| && ch in s.calls[k].todo
    ensures var s1, s := Exec(Init(), before + [Send(k, ch)]), Exec(Init(), before + [Send(k, ch)] + after);
            && ch in s1.received
            && ch !in s1.calls[k].todo && Signalled(s, ch, s1.received[ch])
  {
    var s0 := Exec(Init(), before);
    Always(before);
    assert (before + [Send(k, ch)])[..|before|] == before;
    var s1 := Apply(s0, Send(k, ch));
    assert Exec(Init(), before + [Send(k, ch)]) == s1;
    KeepsInv(s0, Send(k, ch));
    ExecAppend(Init(), before + [Send(k, ch)], after);
    StaysSignalled(s1, after, ch, s1.received[ch]);
  }

  /** The channel is first made at moment k of the run, and not given up afterwards. */
  ghost predicate SubscribedAt(ls: seq<Label>, k: nat, ch: nat)
  {
    && k < |ls| && ls[k] == Subscribe(ch) && (forall i :: 0 <= i < k ==> ls[i] != Subscribe(ch))
    && (forall i :: k < i < |ls| ==> ls[i] != Unsubscribe(ch))
  }

  lemma {:induction false} MadeIff(ls: seq<Label>, ch: nat)
    ensures Made(Exec(Init(), ls), ch) <==> Subscribe(ch) in ls
  {
    if ls != [] {
      var before := ls[..|ls| - 1];
      MadeIff(before, ch);
      Always(before);
      assert ls == before + [ls[|ls| - 1]];
    }
  }

  /** After any run the clients are exactly the channels that were subscribed and not
      unsubscribed since. */
  lemma {:induction false} ClientsIff(ls: seq<Label>, ch: nat)
    ensures ch in Exec(Init(), ls).clients <==> exists k: nat :: SubscribedAt(ls, k, ch)
  {
    if ls != [] {
      var before, l := ls[..|ls| - 1], ls[|ls| - 1];
      ClientsIff(before, ch);
      MadeIff(before, ch);
      if k: nat :| SubscribedAt(before, k, ch) && l != Unsubscribe(ch) {
        assert before[k] == ls[k] && SubscribedAt(ls, k, ch);
      }
      if k: nat :| SubscribedAt(ls, k, ch) && k < |before| { assert before[k] == ls[k] && SubscribedAt(before, k, ch); }
      if l == Subscribe(ch) && Subscribe(ch) !in before { assert SubscribedAt(ls, |before|, ch); }
    }
  }

  /** The call does not deal with the channel. */
  ghost predicate LeavesAlone(s: State, k: nat, ch: nat)
  {
    ch !in s.clients && Made(s, ch) && forall c :: k <= c < |s.calls| ==> ch !in s.calls[c].todo
  }

  /** Once a channel is unsubscribed, no Notify that begins later sends to it. */
  lemma {:induction false} UnsubscribedForGood(s: State, after: seq<Label>, ch: nat)
    requires Inv(s) && Made(s, ch)
    ensures LeavesAlone(Exec(Apply(s, Unsubscribe(ch)), after), |s.calls|, ch)
    decreases |after|
  {
    if after != [] { UnsubscribedForGood(s, after[..|after| - 1], ch); }
  }

  /** The number of Receive labels that found a signal. */
  ghost function Receipts(s: State, ls: seq<Label>, ch: nat): nat
  {
    if ls == [] then 0
    else
      var s' := Exec(s, ls[..|ls| - 1]);
      Receipts(s, ls[..|ls| - 1], ch)
      + if ls[|ls| - 1] == Receive(ch) && Made(s', ch) && s'.tokens[ch] > 0 then 1 else 0
  }

  /** The number of sends that found the buffer empty; all others leave it as it is. */
  ghost function Fills(s: State, ls: seq<Label>, ch: nat): nat
  {
    if ls == [] then 0
    else
      var s', l := Exec(s, ls[..|ls| - 1]), ls[|ls| - 1];
      Fills(s, ls[..|ls| - 1], ch)
      + if l.Send? && l.ch == ch && l.k < |s'.calls| && ch in s'.calls[l.k].todo && Made(s', ch) && s'.tokens[ch] == 0
        then 1 else 0
  }

  lemma {:induction false} NothingYet(ls: seq<Label>, ch: nat)
    requires !Made(Exec(Init(), ls), ch)
    ensures Receipts(Init(), ls, ch) == 0 && Fills(Init(), ls, ch) == 0
  {
    if ls != [] { NothingYet(ls[..|ls| - 1], ch); }
  }

  /** Bursts collapse, and nothing else is lost: what a client has received and what its buffer
      holds are exactly the sends that found the buffer empty. */
  lemma {:induction false} NothingElseLost(ls: seq<Label>, ch: nat)
    requires Made(Exec(Init(), ls), ch)
    ensures var s := Exec(Init(), ls);
            && s.received[ch] == Receipts(Init(), ls, ch)
            && s.received[ch] + s.tokens[ch] == Fills(Init(), ls, ch)
  {
    var before := ls[..|ls| - 1];
    Always(before);
    if Made(Exec(Init(), before), ch) {
      NothingElseLost(before, ch);
    } else {
      NothingYet(before, ch);
    }
  }
}
