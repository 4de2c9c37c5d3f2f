/** The per-level sending state (handel.go:438-591). */
module Levels {
  import opened Numbers

  /** A peer was sent a signature of the given cardinality. */
  datatype Contact = Contact(peer: nat, card: nat)

  /**
   * contacts is the history of the peers contacted since the last better signature, and
   * completions counts how often the level was found complete for sending.
   */
  datatype LevelState = LevelState(
    id: nat,
    nodes: seq<nat>,
    sendStarted: bool,
    rcvCompleted: bool,
    sendPos: nat,
    sendPeersCt: nat,
    sendExpectedFullSize: nat,
    sendSigSize: nat,
    contacts: seq<Contact>,
    completions: nat)
  {
    predicate Active() {
      sendStarted && sendPeersCt < |nodes|
    }

    function Next(pos: nat): nat {
      if pos + 1 >= |nodes| then 0 else pos + 1
    }

    function ContactNext(card: nat): LevelState
      requires sendPos < |nodes|
    {
      this.(sendPos := Next(sendPos), contacts := contacts + [Contact(nodes[sendPos], card)])
    }

    function ContactMany(k: nat, card: nat): (v: LevelState)
      requires sendPos < |nodes|
      ensures v == this.(sendPos := v.sendPos, contacts := v.contacts)
      ensures v.sendPos < |nodes| && |v.contacts| == |contacts| + k && contacts <= v.contacts
    {
      if k == 0 then this else ContactMany(k - 1, card).ContactNext(card)
    }

    /** selectNextPeers, for a signature of the given cardinality. */
    function SelectNext(count: nat, card: nat): LevelState
      requires sendPos < |nodes|
    {
      var size := Min(count, |nodes|);
      ContactMany(size, card).(sendPeersCt := sendPeersCt + size)
    }

    /** The peers contacted by the last k contacts. */
    function LastPeers(k: nat): seq<nat>
      requires k <= |contacts|
    {
      seq<nat>(k, i requires 0 <= i < k => contacts[|contacts| - k + i].peer)
    }

    predicate Raises(card: nat) {
      sendSigSize < card
    }

    /** updateSigToSend answers true. */
    predicate Completes(card: nat) {
      Raises(card) && card == sendExpectedFullSize
    }

    function UpdateSig(card: nat): LevelState {
      if !Raises(card) then this
      else
        var v := this.(sendSigSize := card, sendPeersCt := 0, contacts := []);
        if card == sendExpectedFullSize then v.(sendStarted := true, completions := completions + 1) else v
    }

    // ----- Round-robin coverage

    /** The position j places before pos on the ring of peers. */
    function Back(pos: nat, j: nat): nat {
      if j == 0 then pos
      else
        var before := Back(pos, j - 1);
        if before == 0 then (if |nodes| > 0 then |nodes| - 1 else 0) else before - 1
    }

    /** The contacts since the last reset form a window on the ring that ends at sendPos. */
    ghost predicate Window() {
      && sendPos < |nodes|
      && (forall j | 1 <= j <= |contacts| :: Back(sendPos, j) < |nodes|)
      && (forall j | 1 <= j <= |contacts| :: contacts[|contacts| - j].peer == nodes[Back(sendPos, j)])
      && (forall i | 0 <= i < |contacts| :: contacts[i].card >= sendSigSize)
    }

    ghost predicate RingInv() {
      && Window()
      && |contacts| == sendPeersCt < 2 * |nodes|
      && (!sendStarted ==> sendPeersCt == 0)
    }

    lemma {:induction false} BackNext(pos: nat, j: nat)
      requires pos < |nodes|
      ensures Back(Next(pos), j + 1) == Back(pos, j) < |nodes|
    {
      if j == 0 {
        assert Back(Next(pos), 1) == pos;
      } else {
        BackNext(pos, j - 1);
      }
    }

    lemma {:induction false} BackWraps(pos: nat, j: nat)
      requires pos < |nodes| && j <= |nodes|
      ensures Back(pos, j) == if j <= pos then pos - j else pos - j + |nodes|
    {
      if j > 0 { BackWraps(pos, j - 1); }
    }

    lemma {:induction false} ContactNextWindow(card: nat)
      requires Window() && card >= sendSigSize
      ensures ContactNext(card).Window()
    {
      var v := ContactNext(card);
      forall j | 1 <= j <= |v.contacts|
        ensures v.Back(v.sendPos, j) < |nodes| && v.contacts[|v.contacts| - j].peer == nodes[v.Back(v.sendPos, j)]
      {
        BackNext(sendPos, j - 1);
        BackSame(v, v.sendPos, j);
      }
    }

    lemma {:induction false} BackSame(v: LevelState, pos: nat, j: nat)
      requires v.nodes == nodes
      ensures v.Back(pos, j) == Back(pos, j)
    {
      if j > 0 { BackSame(v, pos, j - 1); }
    }

    lemma {:induction false} ContactManyWindow(k: nat, card: nat)
      requires Window() && card >= sendSigSize
      ensures ContactMany(k, card).Window()
    {
      if k > 0 {
        ContactManyWindow(k - 1, card);
        ContactMany(k - 1, card).ContactNextWindow(card);
      }
    }

    /** An update sent to an active level keeps the window and counts every contact. */
    lemma {:induction false} SelectKeeps(count: nat, card: nat)
      requires RingInv() && Active() && card >= sendSigSize
      ensures SelectNext(count, card).RingInv()
    {
      var size := Min(count, |nodes|);
      ContactManyWindow(size, card);
      WindowFields(ContactMany(size, card), SelectNext(count, card));
    }

    lemma {:induction false} WindowFields(v: LevelState, w: LevelState)
      requires v.Window() && w.nodes == v.nodes && w.sendPos == v.sendPos && w.contacts == v.contacts
      requires w.sendSigSize == v.sendSigSize
      ensures w.Window()
    {
      forall j | 1 <= j <= |w.contacts| ensures w.Back(w.sendPos, j) == v.Back(v.sendPos, j) {
        v.BackSame(w, v.sendPos, j);
      }
    }

    lemma {:induction false} UpdateKeeps(card: nat)
      requires RingInv()
      ensures UpdateSig(card).RingInv()
    {
    }

    /** A started level stops sending only once every peer has been sent the current signature or a better one. */
    lemma {:induction false} Covers(peer: nat)
      requires RingInv() && sendStarted && !Active() && peer in nodes
      ensures exists c :: c in contacts && c.peer == peer && c.card >= sendSigSize
    {
      var t :| 0 <= t < |nodes| && nodes[t] == peer;
      var j := if t < sendPos then sendPos - t else sendPos - t + |nodes|;
      BackWraps(sendPos, j);
      assert contacts[|contacts| - j] in contacts;
    }
  }

  /** The struct level of handel.go; the fields contacts and completions are history. */
  class Level {
    const id: nat
    const nodes: seq<nat>
    const sendExpectedFullSize: nat
    var sendStarted: bool
    var rcvCompleted: bool
    var sendPos: nat
    var sendPeersCt: nat
    var sendSigSize: nat
    ghost var contacts: seq<Contact>
    ghost var completions: nat

    /** newLevel */
    constructor (id: nat, nodes: seq<nat>, sendExpectedFullSize: nat)
      requires id > 0
      ensures View() == LevelState(id, nodes, false, false, 0, 0, sendExpectedFullSize, 0, [], 0)
    {
      this.id, this.nodes, this.sendExpectedFullSize := id, nodes, sendExpectedFullSize;
      sendStarted, rcvCompleted := false, false;
      sendPos, sendPeersCt, sendSigSize := 0, 0, 0;
      contacts, completions := [], 0;
    }

    ghost function View(): LevelState
      reads this
    {
      LevelState(id, nodes, sendStarted, rcvCompleted, sendPos, sendPeersCt, sendExpectedFullSize, sendSigSize,
                 contacts, completions)
    }

    predicate Active()
      reads this
    {
      sendStarted && sendPeersCt < |nodes|
    }

    method SetStarted()
      modifies `sendStarted
      ensures sendStarted
    {
      sendStarted := true;
    }

    method SelectNextPeers(count: nat, ghost card: nat) returns (res: seq<nat>)
      requires sendPos < |nodes|
      modifies `sendPos, `sendPeersCt, `contacts
      ensures View() == old(View()).SelectNext(count, card)
      ensures |res| == Min(count, |nodes|) && res == View().LastPeers(|res|)
    {
      var size := Min(count, |nodes|);
      res := [];
      for i := 0 to size
        invariant sendPos < |nodes| && |contacts| == old(|contacts|) + i
        invariant View() == old(View()).ContactMany(i, card)
        invariant |res| == i && forall k | 0 <= k < i :: res[k] == contacts[old(|contacts|) + k].peer
      {
        res := res + [nodes[sendPos]];
        contacts := contacts + [Contact(nodes[sendPos], card)];
        sendPos := sendPos + 1;
        if sendPos >= |nodes| {
          sendPos := 0;
        }
      }
      sendPeersCt := sendPeersCt + size;
    }

    method UpdateSigToSend(card: nat) returns (complete: bool)
      modifies `sendSigSize, `sendPeersCt, `sendStarted, `contacts, `completions
      ensures View() == old(View()).UpdateSig(card)
      ensures complete == old(View()).Completes(card)
    {
      if sendSigSize >= card {
        return false;
      }
      sendSigSize := card;
      sendPeersCt := 0;
      contacts := [];
      if sendSigSize == sendExpectedFullSize {
        SetStarted();
        completions := completions + 1;
        return true;
      }
      return false;
    }
  }
}
