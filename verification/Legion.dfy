/** A legion instance (struct uwsgi_legion of core/legion.c) updated step by step; each method
    does to its fields what LegionModel says. */
module LegionInstance {
  import opened Basics
  import opened LegionModel
  import M = LegionModel

  class Legion {
    const me: Who
    const quorum: int
    var peers: seq<Peer>
    var lordValor: nat
    var lordUuid: Uuid
    var checksum: nat
    var changed: bool
    var dead: bool
    var joined: bool
    var iAmTheLord: bool
    var suspendedTil: nat
    var lastWarning: nat

    ghost function State(): M.State
      reads this
    {
      M.State(me, quorum, peers, lordValor, lordUuid, checksum, changed, dead, joined, iAmTheLord, suspendedTil, lastWarning)
    }

    constructor (me: Who, quorum: int)
      ensures State() == M.State(me, quorum, [], 0, NO_UUID, 0, false, false, false, false, 0, 0)
    {
      this.me, this.quorum := me, quorum;
      peers, lordValor, lordUuid, checksum, changed := [], 0, NO_UUID, 0, false;
      dead, joined, iAmTheLord, suspendedTil, lastWarning := false, false, false, 0, 0;
    }

    /** uwsgi_uuid_cmp. */
    static method UuidCmp(x: Uuid, y: Uuid) returns (greater: bool)
      ensures greater == UuidGreater(x, y)
    {
      var i := 0;
      while i < 36
        invariant 0 <= i <= 36 && UuidGreater(x, y, 0) == UuidGreater(x, y, i)
      {
        if x[i] != y[i] {
          return x[i] > y[i];
        }
        i := i + 1;
      }
      return false;
    }

    /** uwsgi_legion_get_lord. */
    method GetLord() returns (best: int)
      modifies `lordValor, `lordUuid, `changed
      ensures best == Best(old(State())) && State() == AfterGetLord(old(State()))
    {
      ghost var s := State();
      var bestValor, bestUuid := me.valor, me.uuid;
      best := -1;
      var k := 0;
      while k < |peers|
        invariant 0 <= k <= |peers| && best == BestUpTo(s, k) && State() == s
        invariant bestValor == ValorOf(s, best) && bestUuid == UuidOf(s, best)
      {
        var p := peers[k].who;
        if p.valor != 0 {
          if p.valor > bestValor {
            best, bestValor, bestUuid := k, p.valor, p.uuid;
          } else if p.valor == bestValor {
            var greater := UuidCmp(p.uuid, bestUuid);
            if greater {
              best, bestValor, bestUuid := k, p.valor, p.uuid;
            }
          }
        }
        k := k + 1;
      }
      if me.valor > 0 && lordValor == 0 {
        changed := true;
      } else if bestValor != lordValor {
        changed := true;
      } else if bestUuid != lordUuid {
        changed := true;
      }
      lordValor, lordUuid := bestValor, bestUuid;
    }

    /** Adds up valor and uuid characters, in 64 bits. */
    static method AddWho(sum: nat, w: Who) returns (r: nat)
      ensures r == (sum + Weight(w)) % TWO_64
    {
      r := (sum + w.valor) % TWO_64;
      var i := 0;
      while i < 36
        invariant 0 <= i <= 36
        invariant r == (sum + w.valor + UuidSum(w.uuid[..i])) % TWO_64
      {
        assert w.uuid[..i + 1][..i] == w.uuid[..i];
        r := (r + w.uuid[i]) % TWO_64;
        i := i + 1;
      }
      assert w.uuid[..36] == w.uuid;
    }

    /** uwsgi_legion_checksum. */
    method ComputeChecksum() returns (sum: nat)
      ensures sum == Checksum(State())
    {
      sum := AddWho(0, me);
      var k := 0;
      while k < |peers|
        invariant 0 <= k <= |peers| && sum == (Weight(me) + PeerWeights(peers[..k])) % TWO_64
      {
        assert peers[..k + 1][..k] == peers[..k];
        sum := AddWho(sum, peers[k].who);
        k := k + 1;
      }
      assert peers[..k] == peers;
    }

    /** The voting loop of legions_check_nodes_step2. */
    method CountVotes(bestValor: nat, bestUuid: Uuid) returns (votes: nat)
      ensures votes == Votes(peers, checksum, bestValor, bestUuid)
    {
      votes := 1;
      var k := 0;
      while k < |peers|
        invariant 0 <= k <= |peers| && votes == 1 + k
        invariant forall i :: 0 <= i < k ==> Agrees(peers[i], checksum, bestValor, bestUuid)
      {
        if peers[k].checksum != checksum || peers[k].lordValor != bestValor || peers[k].lordUuid != bestUuid {
          assert !Agrees(peers[k], checksum, bestValor, bestUuid);
          return 0;
        }
        votes := votes + 1;
        k := k + 1;
      }
    }

    /** uwsgi_legion_announce: what goes out, if anything. */
    method Announce(now: nat) returns (m: Option<Msg>)
      modifies `suspendedTil
      ensures (State(), m) == M.Announce(old(State()), now)
    {
      if now <= suspendedTil {
        return None;
      }
      suspendedTil := 0;
      m := Some(Msg(me, lordValor, lordUuid, checksum, now, dead));
    }

    /** The quorum branch of legions_check_nodes_step2. */
    method WithQuorum(iAmTheBest: bool, now: nat, death: nat) returns (m: Option<Msg>)
      modifies this
      ensures (State(), m) == M.WithQuorum(old(State()), iAmTheBest, now, death)
    {
      m := None;
      joined := true;
      if changed {
        changed := false;
      }
      if iAmTheBest {
        if !iAmTheLord {
          if death > 0 {
            dead := true;
            m := Announce(now);
            suspendedTil := now + death;
          } else {
            iAmTheLord := true;
            m := Announce(now);
          }
        }
      } else if iAmTheLord {
        iAmTheLord := false;
      }
    }

    /** legions_check_nodes_step2. */
    method Step2(now: nat, death: nat) returns (m: Option<Msg>)
      modifies this
      ensures (State(), m) == M.Step2(old(State()), now, death)
    {
      hide Best, Checksum, Votes, M.WithQuorum;
      m := None;
      var best := GetLord();
      var iAmTheBest, bestValor, bestUuid := false, 0, NO_UUID;
      if best >= 0 {
        bestValor, bestUuid := peers[best].who.valor, peers[best].who.uuid;
      } else if me.valor > 0 && now > suspendedTil {
        bestValor, bestUuid, iAmTheBest := me.valor, me.uuid, true;
      }
      var newChecksum := ComputeChecksum();
      if newChecksum != checksum {
        changed := true;
      }
      checksum := newChecksum;
      var votes := CountVotes(bestValor, bestUuid);
      if votes > 0 && votes >= quorum {
        m := WithQuorum(iAmTheBest, now, death);
      } else if votes > 0 && votes < quorum && now - lastWarning >= 60 {
        if iAmTheLord {
          iAmTheLord := false;
        }
        lastWarning := now;
      }
    }

    /** uwsgi_legion_get_node. */
    method GetNode(w: Who) returns (r: int)
      ensures r == FindPeer(peers, w)
    {
      r := 0;
      while r < |peers|
        invariant 0 <= r <= |peers| && FindPeer(peers, w) == FindPeer(peers, w, r)
      {
        if peers[r].who == w {
          return;
        }
        r := r + 1;
      }
      r := -1;
    }

    /** The receiving part of legion_loop, for a packet that has been decoded. */
    method Receive(m: Msg, now: nat, skew: nat)
      modifies `peers
      ensures State() == M.Receive(old(State()), m, now, skew)
    {
      if m.who == me {
        return;
      }
      if m.unix < now - skew {
        return;
      }
      var i := GetNode(m.who);
      if i < 0 {
        if m.dead {
          return;
        }
        if m.who.name == "" {
          return;
        }
        peers := peers + [NewPeer(m.who)];
        i := |peers| - 1;
      } else if m.dead {
        peers := peers[..i] + peers[i + 1..];
        return;
      }
      peers := peers[i := Noted(peers[i], m, now)];
      assert old(FindPeer(peers, m.who)) < 0 ==> peers == old(peers) + [Noted(NewPeer(m.who), m, now)];
    }
  }
}
