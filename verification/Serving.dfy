/** Every contact that the sending state remembers is backed by a message that was really sent. */
module Serving {
  import opened Numbers
  import opened Combining
  import opened Wire
  import opened Levels
  import opened Protocol
  import opened Safety

  /** The message takes to the peer, at this level, a multisignature of the cardinality remembered. */
  ghost predicate Carries(env: Env, m: Sent, id: nat, c: Contact)
    requires env.Valid() && id in env.peers
  {
    && m.packet.level == id && c.peer in m.to
    && exists ms :: FitsPeers(env, id, ms) && |ms.bits| == c.card && m.packet.multiSig == Encode(env.codec, ms)
  }

  ghost predicate Backs(env: Env, sent: seq<Sent>, id: nat, c: Contact)
    requires env.Valid() && id in env.peers
  {
    exists i :: 0 <= i < |sent| && Carries(env, sent[i], id, c)
  }

  ghost predicate Backed(env: Env, sent: seq<Sent>, l: LevelState)
    requires env.Valid()
  {
    l.id in env.peers && forall j | 0 <= j < |l.contacts| :: Backs(env, sent, l.id, l.contacts[j])
  }

  ghost predicate AllBacked(env: Env, sent: seq<Sent>, lvls: map<nat, LevelState>)
    requires env.Valid()
  {
    forall id | id in lvls :: Backed(env, sent, lvls[id])
  }

  lemma {:induction false} BacksMore(env: Env, sent: seq<Sent>, more: seq<Sent>, id: nat, c: Contact)
    requires env.Valid() && id in env.peers && Backs(env, sent, id, c) && sent <= more
    ensures Backs(env, more, id, c)
  {
    var i :| 0 <= i < |sent| && Carries(env, sent[i], id, c);
    assert more[i] == sent[i];
  }

  lemma {:induction false} BackedMore(env: Env, sent: seq<Sent>, more: seq<Sent>, l: LevelState)
    requires env.Valid() && Backed(env, sent, l) && sent <= more
    ensures Backed(env, more, l)
  {
    forall j | 0 <= j < |l.contacts| ensures Backs(env, more, l.id, l.contacts[j]) {
      BacksMore(env, sent, more, l.id, l.contacts[j]);
    }
  }

  /** Only the contacts matter. */
  lemma {:induction false} BackedSame(env: Env, sent: seq<Sent>, l: LevelState, next: LevelState)
    requires env.Valid() && Backed(env, sent, l) && next.id == l.id && (next.contacts == l.contacts || next.contacts == [])
    ensures Backed(env, sent, next)
  {
  }

  /** One level has changed, and messages have been sent. */
  lemma {:induction false} AllBackedUpdate(env: Env, sent: seq<Sent>, more: seq<Sent>, lvls: map<nat, LevelState>,
                                           l: LevelState, next: map<nat, LevelState>)
    requires env.Valid() && AllBacked(env, sent, lvls) && Backed(env, more, l) && sent <= more && next == lvls[l.id := l]
    ensures AllBacked(env, more, next)
  {
    forall id | id in next ensures Backed(env, more, next[id]) {
      if id != l.id { BackedMore(env, sent, more, lvls[id]); }
    }
  }

  // ----- The message of a send backs the contacts of that send

  lemma {:induction false} ContactCards(l: LevelState, k: nat, card: nat)
    requires l.sendPos < |l.nodes|
    ensures forall i | |l.contacts| <= i < |l.contacts| + k :: l.ContactMany(k, card).contacts[i].card == card
  {
    if k > 0 { ContactCards(l, k - 1, card); }
  }

  lemma {:induction false} LastPeer(l: LevelState, k: nat, i: nat)
    requires k <= |l.contacts| && |l.contacts| - k <= i < |l.contacts|
    ensures l.contacts[i].peer in l.LastPeers(k)
  {
    assert l.LastPeers(k)[i - (|l.contacts| - k)] == l.contacts[i].peer;
  }

  /** What the peers of the last send get. */
  lemma {:induction false} MessageCarries(env: Env, slots: SlotMap, l: LevelState, count: nat, c: Contact)
    requires env.Valid() && SlotData(env, slots) && l.id in env.peers && Min(count, |l.nodes|) <= |l.contacts|
    requires c.peer in l.LastPeers(Min(count, |l.nodes|)) && c.card == |ToSend(env, slots, l.id).bits|
    ensures Carries(env, Message(env, slots, l, count), l.id, c)
  {
    ToSendFits(env, slots, l.id);
  }

  lemma {:induction false} SelectBacked(env: Env, slots: SlotMap, sent: seq<Sent>, l: LevelState, count: nat,
                                        next: LevelState, more: seq<Sent>)
    requires env.Valid() && SlotData(env, slots) && Backed(env, sent, l) && l.sendPos < |l.nodes|
    requires next == l.SelectNext(count, |ToSend(env, slots, l.id).bits|)
    requires more == sent + [Message(env, slots, next, count)]
    ensures Backed(env, more, next)
  {
    var k, card := Min(count, |l.nodes|), |ToSend(env, slots, l.id).bits|;
    ContactCards(l, k, card);
    forall j | 0 <= j < |next.contacts| ensures Backs(env, more, l.id, next.contacts[j]) {
      if j < |l.contacts| {
        BacksMore(env, sent, more, l.id, l.contacts[j]);
      } else {
        LastPeer(next, k, j);
        MessageCarries(env, slots, next, count, next.contacts[j]);
        assert more[|sent|] == Message(env, slots, next, count);
      }
    }
  }

  // ----- The steps that send

  lemma {:induction false} SendBacked(env: Env, st: State, id: nat, count: nat)
    requires env.Valid() && LevelsOk(env, st.lvls) && SlotData(env, st.slots) && id in st.lvls
    requires AllBacked(env, st.sent, st.lvls)
    ensures var next := SendUpdate(env, st, id, count);
            AllBacked(env, next.sent, next.lvls) && st.sent <= next.sent
  {
    var next := SendUpdate(env, st, id, count);
    SelectBacked(env, st.slots, st.sent, st.lvls[id], count, next.lvls[id], next.sent);
    AllBackedUpdate(env, st.sent, next.sent, st.lvls, next.lvls[id], next.lvls);
  }

  lemma {:induction false} PeriodicBacked(env: Env, st: State, order: seq<nat>)
    requires env.Valid() && LevelsOk(env, st.lvls) && SlotData(env, st.slots) && AllBacked(env, st.sent, st.lvls)
    requires forall i | 0 <= i < |order| :: order[i] in env.peers
    ensures var next := Periodic(env, st, order); AllBacked(env, next.sent, next.lvls)
    decreases |order|
  {
    if order != [] {
      if st.lvls[order[0]].Active() { SendBacked(env, st, order[0], env.updateCount); }
      PeriodicBacked(env, TickLevel(env, st, order[0]), order[1..]);
    }
  }

  lemma {:induction false} StartedBacked(env: Env, st: State, id: nat)
    requires env.Valid() && id in st.lvls && st.lvls[id].id == id && AllBacked(env, st.sent, st.lvls)
    requires LevelsOk(env, st.lvls)
    ensures AllBacked(env, st.sent, SetLevel(st, st.lvls[id].(sendStarted := true)).lvls)
    ensures LevelsOk(env, SetLevel(st, st.lvls[id].(sendStarted := true)).lvls)
  {
    var l := st.lvls[id];
    BackedSame(env, st.sent, l, l.(sendStarted := true));
    AllBackedUpdate(env, st.sent, st.sent, st.lvls, l.(sendStarted := true), st.lvls[id := l.(sendStarted := true)]);
  }

  lemma {:induction false} StartBacked(env: Env, st: State, id: nat)
    requires env.Valid() && LevelsOk(env, st.lvls) && SlotData(env, st.slots) && id in st.lvls
    requires AllBacked(env, st.sent, st.lvls)
    ensures var next := StartLevel(env, st, id); AllBacked(env, next.sent, next.lvls)
  {
    if !st.lvls[id].sendStarted {
      StartedBacked(env, st, id);
      SendBacked(env, SetLevel(st, st.lvls[id].(sendStarted := true)), id, env.updateCount);
    }
  }

  lemma {:induction false} RaisedBacked(env: Env, slots: SlotMap, sent: seq<Sent>, l: LevelState, r: LevelState, more: seq<Sent>)
    requires env.Valid() && SlotData(env, slots) && Backed(env, sent, l) && l.sendPos < |l.nodes|
    requires r == Raised(env, slots, l)
    requires more == sent + if l.Completes(|ToSend(env, slots, l.id).bits|) then [Message(env, slots, r, env.fastPath)] else []
    ensures Backed(env, more, r)
  {
    var card := |ToSend(env, slots, l.id).bits|;
    BackedSame(env, sent, l, l.UpdateSig(card));
    if l.Completes(card) {
      SelectBacked(env, slots, sent, l.UpdateSig(card), env.fastPath, r, more);
    } else {
      assert more == sent;
    }
  }

  lemma {:induction false} RaiseBacked(env: Env, st: State, id: nat)
    requires env.Valid() && LevelsOk(env, st.lvls) && SlotData(env, st.slots) && id in st.lvls
    requires AllBacked(env, st.sent, st.lvls)
    ensures var next := Raise(env, st, id); AllBacked(env, next.sent, next.lvls)
  {
    var next := Raise(env, st, id);
    RaisedBacked(env, st.slots, st.sent, st.lvls[id], next.lvls[id], next.sent);
    AllBackedUpdate(env, st.sent, next.sent, st.lvls, next.lvls[id], next.lvls);
  }

  lemma {:induction false} RaiseAllBacked(env: Env, st: State, level: nat, order: seq<nat>)
    requires env.Valid() && LevelsOk(env, st.lvls) && SlotData(env, st.slots) && AllBacked(env, st.sent, st.lvls)
    requires forall i | 0 <= i < |order| :: order[i] in env.peers
    ensures var next := RaiseAll(env, st, level, order); AllBacked(env, next.sent, next.lvls)
    decreases |order|
  {
    if order != [] {
      var id := order[0];
      if id >= level + 1 { RaiseBacked(env, st, id); }
      RaiseAllBacked(env, if id < level + 1 then st else Raise(env, st, id), level, order[1..]);
    }
  }

  lemma {:induction false} CheckBacked(env: Env, st: State, level: nat, order: seq<nat>)
    requires env.Valid() && LevelsOk(env, st.lvls) && SlotData(env, st.slots) && AllBacked(env, st.sent, st.lvls)
    requires level in st.lvls && forall i | 0 <= i < |order| :: order[i] in env.peers
    ensures var next := CheckCompleted(env, st, level, order); AllBacked(env, next.sent, next.lvls)
  {
    var l := st.lvls[level];
    if !l.rcvCompleted {
      var marked := MarkCompleted(env, st, level);
      BackedSame(env, st.sent, l, marked.lvls[level]);
      AllBackedUpdate(env, st.sent, st.sent, st.lvls, marked.lvls[level], marked.lvls);
      RaiseAllBacked(env, marked, level, order);
    }
  }

  // ----- What the peers read

  /** The peer was sent, at this level, a packet that reads as a multisignature of at least the given size. */
  ghost predicate Reads(env: Env, sent: seq<Sent>, id: nat, peer: nat, size: nat) {
    exists i :: 0 <= i < |sent| && ReadsFrom(env, sent[i], id, peer, size)
  }

  ghost predicate ReadsFrom(env: Env, m: Sent, id: nat, peer: nat, size: nat) {
    && m.packet.level == id && peer in m.to
    && Decode(env.codec, m.packet.multiSig).Some? && |Decode(env.codec, m.packet.multiSig).value.bits| >= size
  }

  lemma {:induction false} CarriedRead(env: Env, m: Sent, id: nat, c: Contact)
    requires env.Valid() && env.codec.Trusted() && id in env.peers && Carries(env, m, id, c)
    ensures ReadsFrom(env, m, id, c.peer, c.card)
  {
    var ms :| FitsPeers(env, id, ms) && |ms.bits| == c.card && m.packet.multiSig == Encode(env.codec, ms);
    assert env.PeersAt(id);
    RoundTrip(env.codec, ms);
  }

  /** A contact of at least the size required, backed by a message. */
  lemma {:induction false} ContactRead(env: Env, sent: seq<Sent>, l: LevelState, c: Contact, size: nat)
    requires env.Valid() && env.codec.Trusted() && Backed(env, sent, l) && c in l.contacts && c.card >= size
    ensures Reads(env, sent, l.id, c.peer, size)
  {
    var j :| 0 <= j < |l.contacts| && l.contacts[j] == c;
    var i :| 0 <= i < |sent| && Carries(env, sent[i], l.id, l.contacts[j]);
    CarriedRead(env, sent[i], l.id, c);
    assert ReadsFrom(env, sent[i], l.id, c.peer, size);
  }
}
