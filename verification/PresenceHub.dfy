/**
  Which clients are online: connections, the supersede channel of each, and grace timers
  whose callback may still run after the timer was stopped.
 */
module PresenceHub {

  /** One Connect call. The zero token is never issued. */
  datatype Token = Token(client: int, gen: nat)

  datatype Entry = Entry(gen: nat)

  /**
    closed lists the supersede channels closed so far, each named by its connection's
    generation; armed holds every callback ever handed to a timer, stopped ones included.
   */
  datatype State = State(entries: map<int, Entry>, nextGen: nat, closed: seq<nat>, armed: set<Token>)

  const IDLE := State(map[], 0, [], {})

  function ConnectStep(s: State, c: int): State {
    State(
      s.entries[c := Entry(s.nextGen + 1)],
      s.nextGen + 1,
      if c in s.entries then s.closed + [s.entries[c].gen] else s.closed,
      s.armed)
  }

  function DisconnectStep(s: State, tok: Token): State {
    if tok.client !in s.entries || s.entries[tok.client].gen != tok.gen then s
    else s.(armed := s.armed + {tok})
  }

  /** A timer callback runs: it removes the entry only if it is still the one it was armed for. */
  function FireStep(s: State, tok: Token): State {
    if tok in s.armed && tok.client in s.entries && s.entries[tok.client].gen == tok.gen
    then s.(entries := s.entries - {tok.client})
    else s
  }

  class Hub {
    var entries: map<int, Entry>
    var nextGen: nat
    var closed: seq<nat>
    var armed: set<Token>

    ghost function Now(): State reads this { State(entries, nextGen, closed, armed) }

    constructor ()
      ensures Now() == IDLE
    {
      entries, nextGen, closed, armed := map[], 0, [], {};
    }

    method Connect(c: int) returns (tok: Token)
      modifies this
      ensures Now() == ConnectStep(old(Now()), c)
      ensures tok == Token(c, nextGen)
    {
      if c in entries {
        closed := closed + [entries[c].gen];
      }
      nextGen := nextGen + 1;
      entries := entries[c := Entry(nextGen)];
      tok := Token(c, nextGen);
    }

    method Disconnect(tok: Token)
      modifies this
      ensures Now() == DisconnectStep(old(Now()), tok)
    {
      if tok.client !in entries || entries[tok.client].gen != tok.gen {
        return;
      }
      armed := armed + {tok};
    }

    method TimerCallback(tok: Token)
      requires tok in armed
      modifies this
      ensures Now() == FireStep(old(Now()), tok)
    {
      if tok.client in entries && entries[tok.client].gen == tok.gen {
        entries := entries - {tok.client};
      }
    }

    method Online(c: int) returns (online: bool)
      ensures online <==> c in entries
    {
      online := c in entries;
    }
  }

  // ---------------------------------------------------------------------
  // Runs, with the history of every connection
  // ---------------------------------------------------------------------

  datatype Op = Connect(client: int) | Disconnect(tok: Token) | Fire(tok: Token)

  /**
    issued: tokens returned, latest: the last generation of each client, ended: issued tokens
    that were disconnected, fired: callbacks that ran.
   */
  datatype World = World(hub: State, issued: set<Token>, latest: map<int, nat>, ended: set<Token>, fired: set<Token>)

  const START := World(IDLE, {}, map[], {}, {})

  function Next(w: World, op: Op): World {
    match op
    case Connect(c) =>
      var g := w.hub.nextGen + 1;
      w.(hub := ConnectStep(w.hub, c), issued := w.issued + {Token(c, g)}, latest := w.latest[c := g])
    case Disconnect(tok) =>
      w.(hub := DisconnectStep(w.hub, tok), ended := if tok in w.issued then w.ended + {tok} else w.ended)
    case Fire(tok) => w.(hub := FireStep(w.hub, tok), fired := if tok in w.hub.armed then w.fired + {tok} else w.fired)
  }

  function Run(w: World, ops: seq<Op>): World {
    if ops == [] then w else Next(Run(w, ops[..|ops| - 1]), ops[|ops| - 1])
  }

  function Online(w: World, c: int): bool { c in w.hub.entries }

  /** The most recent connection of its client. */
  ghost predicate Latest(w: World, t: Token) {
    t in w.issued && forall u :: u in w.issued && u.client == t.client ==> u.gen <= t.gen
  }

  predicate Live(w: World, t: Token) { t in w.issued && t !in w.ended }

  predicate Superseded(w: World, t: Token) { t.gen in w.hub.closed }

  predicate NoRepeats(s: seq<nat>) { forall i, j :: 0 <= i < j < |s| ==> s[i] != s[j] }

  ghost predicate HistorySound(w: World) {
    && (forall t :: t in w.issued ==>
        1 <= t.gen <= w.hub.nextGen && t.client in w.latest && t.gen <= w.latest[t.client])
    && (forall t, u :: t in w.issued && u in w.issued && t.gen == u.gen ==> t == u)
    && (forall c :: c in w.latest ==> Token(c, w.latest[c]) in w.issued)
    && w.fired <= w.hub.armed <= w.ended <= w.issued
  }

  ghost predicate EntriesSound(w: World) {
    && (forall c :: c in w.hub.entries ==> c in w.latest && w.hub.entries[c].gen == w.latest[c])
    && (forall c :: c in w.latest ==> (c in w.hub.entries <==> Token(c, w.latest[c]) !in w.fired))
  }

  ghost predicate ChannelsSound(w: World) {
    && NoRepeats(w.hub.closed)
    && (forall g :: g in w.hub.closed ==> 1 <= g <= w.hub.nextGen)
    && (forall c :: c in w.latest ==> w.latest[c] !in w.hub.closed)
    && (forall t :: t in w.issued && t.client in w.latest && t.gen != w.latest[t.client] ==>
        Superseded(w, t) || t in w.ended)
  }

  ghost predicate Sound(w: World) { HistorySound(w) && EntriesSound(w) && ChannelsSound(w) }

  lemma LatestIsLast(w: World, t: Token)
    requires HistorySound(w)
    ensures Latest(w, t) <==> t.client in w.latest && w.latest[t.client] == t.gen
  {
    if Latest(w, t) { assert Token(t.client, w.latest[t.client]) in w.issued; }
  }

  lemma ConnectSound(w: World, c: int)
    requires Sound(w)
    ensures Sound(Next(w, Connect(c)))
  {
    var v := Next(w, Connect(c));
    assert HistorySound(v);
    assert EntriesSound(v);
    ConnectChannels(w, c);
  }

  lemma ConnectChannels(w: World, c: int)
    requires Sound(w)
    ensures ChannelsSound(Next(w, Connect(c)))
  {
    var v := Next(w, Connect(c));
    forall g | g in v.hub.closed ensures g in w.hub.closed || (c in w.hub.entries && g == w.hub.entries[c].gen) {}
    forall t | t in v.issued && t.gen != v.latest[t.client] ensures Superseded(v, t) || t in v.ended {
      if t.client == c && t.gen == w.latest[c] {
        if c in w.hub.entries {
          assert v.hub.closed[|w.hub.closed|] == t.gen;
        } else {
          assert t == Token(c, w.latest[c]);
        }
      }
    }
    forall d | d in v.latest ensures v.latest[d] !in v.hub.closed {
      if d != c && c in w.hub.entries {
        assert Token(d, w.latest[d]) in w.issued && Token(c, w.latest[c]) in w.issued;
      }
    }
  }

  lemma DisconnectSound(w: World, tok: Token)
    requires Sound(w)
    ensures Sound(Next(w, Disconnect(tok)))
  {
    var v := Next(w, Disconnect(tok));
    if v.hub != w.hub {
      assert tok == Token(tok.client, w.latest[tok.client]);
      assert tok in w.issued;
    }
    assert HistorySound(v);
    assert EntriesSound(v);
    assert ChannelsSound(v);
  }

  lemma FireSound(w: World, tok: Token)
    requires Sound(w)
    ensures Sound(Next(w, Fire(tok)))
  {
    var v := Next(w, Fire(tok));
    assert HistorySound(v);
    assert EntriesSound(v);
    assert ChannelsSound(v);
  }

  lemma NextSound(w: World, op: Op)
    requires Sound(w)
    ensures Sound(Next(w, op))
  {
    match op
    case Connect(c) => ConnectSound(w, c);
    case Disconnect(tok) => DisconnectSound(w, tok);
    case Fire(tok) => FireSound(w, tok);
  }

  lemma {:induction false} RunSound(w: World, ops: seq<Op>)
    requires Sound(w)
    ensures Sound(Run(w, ops))
  {
    if ops != [] {
      RunSound(w, ops[..|ops| - 1]);
      NextSound(Run(w, ops[..|ops| - 1]), ops[|ops| - 1]);
    }
  }

  /** Clients, connections and channels after any run, whatever tokens and callbacks it used. */
  lemma PresenceIsAccurate(ops: seq<Op>, t: Token, u: Token)
    requires Latest(Run(START, ops), t)
    ensures var w := Run(START, ops);
      // the client is online exactly until a timer of its latest connection fires
      && (Online(w, t.client) <==> t !in w.fired)
      // so it is online while that connection has not ended
      && (Live(w, t) ==> Online(w, t.client))
      // no channel was closed twice
      && NoRepeats(w.hub.closed)
      // a live connection that nobody told to close is the latest of its client
      && (Live(w, u) && u.client == t.client && !Superseded(w, u) ==> u == t)
  {
    RunSound(START, ops);
    var w := Run(START, ops);
    LatestIsLast(w, t);
  }

  /** A client goes offline in one way only: a timer armed for its latest, ended connection fires. */
  lemma OfflineOnlyByLatestTimer(ops: seq<Op>, op: Op, c: int)
    requires Online(Run(START, ops), c) && !Online(Next(Run(START, ops), op), c)
    ensures op.Fire? && op.tok.client == c
    ensures Latest(Run(START, ops), op.tok) && op.tok in Run(START, ops).ended
  {
    RunSound(START, ops);
    if op.Fire? { LatestIsLast(Run(START, ops), op.tok); }
  }

  /** Stale, repeated and never-issued tokens do not change who is online, now or when their timers fire. */
  lemma StaleTokenIsHarmless(ops: seq<Op>, tok: Token)
    requires !Latest(Run(START, ops), tok)
    ensures var w := Run(START, ops);
      && Next(w, Disconnect(tok)).hub == w.hub
      && Next(w, Fire(tok)).hub == w.hub
  {
    RunSound(START, ops);
    LatestIsLast(Run(START, ops), tok);
  }

  // ---------------------------------------------------------------------
  // When a client is offline, in terms of the calls alone
  // ---------------------------------------------------------------------

  function Connects(ops: seq<Op>): nat {
    if ops == [] then 0 else Connects(ops[..|ops| - 1]) + if ops[|ops| - 1].Connect? then 1 else 0
  }

  /** Call l returned t, the k-th connection of all carrying generation k, and its client connected no more. */
  predicate LastConnect(ops: seq<Op>, l: nat, t: Token) {
    && l < |ops| && ops[l] == Connect(t.client) && t.gen == Connects(ops[..l + 1])
    && forall k: nat :: l < k < |ops| ==> ops[k] != Connect(t.client)
  }

  /** After call l the token was disconnected, and later its grace timer ran out. */
  ghost predicate TimedOut(ops: seq<Op>, l: nat, t: Token) {
    exists i: nat, j: nat :: l < i < j < |ops| && ops[i] == Disconnect(t) && ops[j] == Fire(t)
  }

  ghost predicate WasEnded(ops: seq<Op>, l: nat, t: Token) {
    exists i: nat :: l < i < |ops| && ops[i] == Disconnect(t)
  }

  /** Where the client of the last connection t stands. */
  ghost predicate Tracked(ops: seq<Op>, l: nat, t: Token) {
    var s := Run(START, ops).hub;
    if t.client in s.entries
    then s.entries[t.client].gen == t.gen && (t in s.armed <==> WasEnded(ops, l, t)) && !TimedOut(ops, l, t)
    else TimedOut(ops, l, t)
  }

  lemma {:induction false} GenerationsCount(ops: seq<Op>)
    ensures Run(START, ops).hub.nextGen == Connects(ops)
  {
    if ops != [] { GenerationsCount(ops[..|ops| - 1]); }
  }

  lemma OneMoreStep(ops: seq<Op>, l: nat, t: Token)
    requires l + 1 < |ops|
    ensures var n := |ops| - 1; var before := ops[..n];
      && (WasEnded(ops, l, t) <==> WasEnded(before, l, t) || ops[n] == Disconnect(t))
      && (TimedOut(ops, l, t) <==> TimedOut(before, l, t) || (WasEnded(before, l, t) && ops[n] == Fire(t)))
  {
    var n := |ops| - 1;
    var before := ops[..n];
    if WasEnded(before, l, t) {
      var i: nat :| l < i < n && before[i] == Disconnect(t);
      assert ops[i] == Disconnect(t);
    }
    if TimedOut(before, l, t) {
      var i: nat, j: nat :| l < i < j < n && before[i] == Disconnect(t) && before[j] == Fire(t);
      assert ops[i] == Disconnect(t) && ops[j] == Fire(t);
    }
  }

  lemma JustConnected(ops: seq<Op>, t: Token)
    requires ops != [] && LastConnect(ops, |ops| - 1, t)
    ensures Tracked(ops, |ops| - 1, t)
  {
    var before := ops[..|ops| - 1];
    RunSound(START, before);
    GenerationsCount(before);
    assert ops[..|ops| - 1 + 1] == ops;
  }

  lemma TrackedOn(ops: seq<Op>, l: nat, t: Token)
    requires l + 1 < |ops| && LastConnect(ops, l, t) && Tracked(ops[..|ops| - 1], l, t)
    ensures Tracked(ops, l, t)
  {
    OneMoreStep(ops, l, t);
    var op := ops[|ops| - 1];
    match op
    case Connect(c) => assert c != t.client;
    case Disconnect(tok) =>
    case Fire(tok) =>
  }

  lemma {:induction false} StaysTracked(ops: seq<Op>, l: nat, t: Token)
    requires LastConnect(ops, l, t)
    ensures Tracked(ops, l, t)
  {
    if l == |ops| - 1 {
      JustConnected(ops, t);
    } else {
      var before := ops[..|ops| - 1];
      assert before[..l + 1] == ops[..l + 1];
      StaysTracked(before, l, t);
      TrackedOn(ops, l, t);
    }
  }

  /** A client is offline exactly when, after its last Connect, that token was disconnected and its timer then fired. */
  lemma OfflineIff(ops: seq<Op>, l: nat, t: Token)
    requires LastConnect(ops, l, t)
    ensures !Online(Run(START, ops), t.client) <==>
      exists i: nat, j: nat :: l < i < j < |ops| && ops[i] == Disconnect(t) && ops[j] == Fire(t)
  {
    StaysTracked(ops, l, t);
  }

  /** A client that never connected is offline. */
  lemma {:induction false} StrangersAreOffline(ops: seq<Op>, c: int)
    requires forall k: nat :: k < |ops| ==> ops[k] != Connect(c)
    ensures !Online(Run(START, ops), c)
  {
    if ops != [] { StrangersAreOffline(ops[..|ops| - 1], c); }
  }

  lemma StillLastConnect(ops: seq<Op>, l: nat, t: Token, more: seq<Op>)
    requires LastConnect(ops, l, t) && forall k: nat :: k < |more| ==> more[k] != Connect(t.client)
    ensures LastConnect(ops + more, l, t)
  {
    assert (ops + more)[..l + 1] == ops[..l + 1];
    forall k: nat | l < k < |ops + more| ensures (ops + more)[k] != Connect(t.client) {
      if k >= |ops| { assert (ops + more)[k] == more[k - |ops|]; }
    }
  }

  /** Once the last connection is disconnected and its timer fires, without a new Connect, the client is offline. */
  lemma GoesOffline(ops: seq<Op>, l: nat, t: Token, between: seq<Op>)
    requires LastConnect(ops, l, t) && forall k: nat :: k < |between| ==> between[k] != Connect(t.client)
    ensures !Online(Run(START, ops + ([Disconnect(t)] + between + [Fire(t)])), t.client)
  {
    var more := [Disconnect(t)] + between + [Fire(t)];
    forall k: nat | k < |more| ensures more[k] != Connect(t.client) {
      if 0 < k < |more| - 1 { assert more[k] == between[k - 1]; }
    }
    StillLastConnect(ops, l, t, more);
    var all := ops + more;
    assert all[|ops|] == Disconnect(t) && all[|all| - 1] == Fire(t);
    OfflineIff(all, l, t);
  }
}
