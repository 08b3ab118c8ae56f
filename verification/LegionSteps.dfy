/** What one check, one packet and one announcement mean for an instance, whatever its list of peers: who may become
    lord and who has to stop, and how the list changes. */
module LegionSteps {
  import opened Basics
  import opened LegionModel

  // ---- the check ------------------------------------------------------------------------------

  /** No peer that is not an arbiter beats this instance. */
  ghost predicate NoBetterPeer(s: State) {
    forall k :: 0 <= k < |s.peers| && s.peers[k].who.valor != 0 ==> !Beats(s.peers[k].who.valor, s.peers[k].who.uuid, s.me.valor, s.me.uuid)
  }

  lemma {:induction false} ElectedBeatsMe(s: State, k: nat)
    requires k <= |s.peers| && BestUpTo(s, k) >= 0
    ensures var p := s.peers[BestUpTo(s, k)].who; p.valor != 0 && Beats(p.valor, p.uuid, s.me.valor, s.me.uuid)
  {
    hide Beats;
    var b := BestUpTo(s, k - 1);
    if b >= 0 {
      ElectedBeatsMe(s, k - 1);
      var p, q := s.peers[k - 1].who, s.peers[b].who;
      BeatsIsStrictTotalOrder(p.valor, p.uuid, q.valor, q.uuid, s.me.valor, s.me.uuid);
    }
  }

  /** A peer is elected exactly if one beats this instance. */
  lemma ElectedIff(s: State)
    ensures Best(s) < 0 <==> NoBetterPeer(s)
  {
    hide Beats;
    BestUnbeaten(s, |s.peers|);
    if Best(s) >= 0 { ElectedBeatsMe(s, |s.peers|); }
  }

  /** The instance stands for lord: it is no arbiter, not suspended, and no peer is better. */
  ghost predicate Stands(s: State, now: nat) {
    s.me.valor > 0 && now > s.suspendedTil && NoBetterPeer(s)
  }

  /** Who the instance is for at a check: itself if it stands; otherwise the best peer, or nobody if none is better. */
  ghost predicate IsFor(s: State, now: nat, valor: nat, uuid: Uuid) {
    if Stands(s, now) then valor == s.me.valor && uuid == s.me.uuid
    else if NoBetterPeer(s) then valor == 0 && uuid == NO_UUID
    else exists k :: 0 <= k < |s.peers| && s.peers[k].who.valor == valor != 0 && s.peers[k].who.uuid == uuid && Unbeaten(s, |s.peers|, valor, uuid)
  }

  lemma CandidateIsFor(s: State, now: nat)
    ensures var (valor, uuid, best) := Candidate(s, now); IsFor(s, now, valor, uuid) && (best <==> Stands(s, now))
  {
    hide Unbeaten, Beats, NoBetterPeer;
    ElectedIff(s);
    BestUnbeaten(s, |s.peers|);
  }

  /** There is at most one such candidate. */
  lemma IsForOne(s: State, now: nat, v: nat, u: Uuid, w: nat, x: Uuid)
    requires IsFor(s, now, v, u) && IsFor(s, now, w, x)
    ensures v == w && u == x
  {
    hide Beats;
    if !NoBetterPeer(s) {
      BeatsIsStrictTotalOrder(v, u, w, x, 0, NO_UUID);
    }
  }

  /** All peers have noted this instance's checksum and candidate, and with itself they are at least its quorum. */
  ghost predicate Quorate(s: State, now: nat) {
    Unanimous(s, now) && 1 + |s.peers| >= s.quorum
  }

  ghost predicate Unanimous(s: State, now: nat) {
    forall k :: 0 <= k < |s.peers| ==> s.peers[k].checksum == Checksum(s) && IsFor(s, now, s.peers[k].lordValor, s.peers[k].lordUuid)
  }

  lemma AfterGetLordKeeps(s: State)
    ensures Checksum(AfterGetLord(s)) == Checksum(s) && AfterGetLord(s).peers == s.peers
  {
  }

  lemma VotesIff(s: State, now: nat)
    ensures var (valor, uuid, _) := Candidate(s, now);
            Votes(s.peers, Checksum(s), valor, uuid) == if Unanimous(s, now) then 1 + |s.peers| else 0
  {
    hide IsFor, Candidate;
    var (valor, uuid, best) := Candidate(s, now);
    CandidateIsFor(s, now);
    forall k | 0 <= k < |s.peers| && IsFor(s, now, s.peers[k].lordValor, s.peers[k].lordUuid)
      ensures s.peers[k].lordValor == valor && s.peers[k].lordUuid == uuid
    {
      IsForOne(s, now, s.peers[k].lordValor, s.peers[k].lordUuid, valor, uuid);
    }
    assert Unanimous(s, now) ==> forall k :: 0 <= k < |s.peers| ==> Agrees(s.peers[k], Checksum(s), valor, uuid);
    if forall k :: 0 <= k < |s.peers| ==> Agrees(s.peers[k], Checksum(s), valor, uuid) {
      assert Unanimous(s, now);
    }
  }

  /** A check, exactly: with a quorum the instance joins, and is lord if and only if it stands (unless its lord
      hooks fail); without one but with all peers agreeing a lord gives up, once its last warning is a minute old; otherwise
      lordship stays. */
  lemma LordIff(s: State, now: nat, death: nat)
    ensures var t := Step2(s, now, death).0;
            t.me == s.me && t.quorum == s.quorum && t.peers == s.peers && t.checksum == Checksum(s)
    ensures var t := Step2(s, now, death).0;
            t.joined <==> s.joined || Quorate(s, now)
    ensures var t := Step2(s, now, death).0;
            t.iAmTheLord <==>
            if Quorate(s, now) then Stands(s, now) && (s.iAmTheLord || death == 0)
            else s.iAmTheLord && !(Unanimous(s, now) && now - s.lastWarning >= 60)
    ensures var t := Step2(s, now, death).0;
            t.lastWarning == if Unanimous(s, now) && !Quorate(s, now) && now - s.lastWarning >= 60 then now else s.lastWarning
  {
    hide Best, Unanimous, Stands, Candidate, Checksum;
    AfterGetLordKeeps(s);
    VotesIff(s, now);
    CandidateIsFor(s, now);
  }

  /** Nobody becomes lord, or joins, without a quorum of agreeing peers; nor becomes lord suspended, as an arbiter, or with a better
      peer in its list. */
  lemma LordNeedsQuorum(s: State, now: nat, death: nat)
    requires var t := Step2(s, now, death).0; (t.iAmTheLord && !s.iAmTheLord) || (t.joined && !s.joined)
    ensures 1 + |s.peers| >= s.quorum
    ensures forall k :: 0 <= k < |s.peers| ==> s.peers[k].checksum == Checksum(s) && IsFor(s, now, s.peers[k].lordValor, s.peers[k].lordUuid)
    ensures Step2(s, now, death).0.iAmTheLord && !s.iAmTheLord ==> s.me.valor > 0 && now > s.suspendedTil && NoBetterPeer(s)
  {
    hide IsFor, Checksum, Step2, NoBetterPeer;
    LordIff(s, now, death);
  }

  /** A lord whose peers all agree but are too few is none any more, unless it has warned within the last minute. */
  lemma LosesLordship(s: State, now: nat, death: nat)
    requires 1 + |s.peers| < s.quorum && now - s.lastWarning >= 60
    requires forall k :: 0 <= k < |s.peers| ==> s.peers[k].checksum == Checksum(s) && IsFor(s, now, s.peers[k].lordValor, s.peers[k].lordUuid)
    ensures !Step2(s, now, death).0.iAmTheLord && Step2(s, now, death).0.lastWarning == now
  {
    hide IsFor, Checksum, Step2;
    LordIff(s, now, death);
  }

  /** An instance whose lord hooks fail when it could become lord announces its death and is suspended: until then
      it is silent and stands for nothing. */
  lemma HookFailure(s: State, now: nat, death: nat, later: nat)
    requires Quorate(s, now) && Stands(s, now) && !s.iAmTheLord && death > 0
    ensures var (t, m) := Step2(s, now, death);
            t.dead && !t.iAmTheLord && t.suspendedTil == now + death &&
            m == Some(Msg(s.me, t.lordValor, t.lordUuid, Checksum(s), now, true)) &&
            (later <= now + death ==> !Stands(t, later) && Announce(t, later) == (t, None))
  {
    hide Best, Unanimous, Checksum, Candidate;
    AfterGetLordKeeps(s);
    VotesIff(s, now);
    CandidateIsFor(s, now);
  }

  // ---- the announcement -----------------------------------------------------------------------

  /** What is announced is what the instance is and has found out; nothing is while it is suspended. */
  lemma Announces(s: State, now: nat)
    ensures var (t, m) := Announce(s, now);
            t == s.(suspendedTil := t.suspendedTil) &&
            (m.Some? <==> s.suspendedTil < now) &&
            (m.Some? ==> t.suspendedTil == 0 && m.value.who == s.me && m.value.lordValor == s.lordValor && m.value.lordUuid == s.lordUuid &&
                         m.value.checksum == s.checksum && m.value.unix == now && m.value.dead == s.dead) &&
            (m.None? ==> t == s)
  {
  }

  // ---- the packet -----------------------------------------------------------------------------

  ghost predicate DistinctPeers(peers: seq<Peer>) {
    forall i, j :: 0 <= i < j < |peers| ==> peers[i].who != peers[j].who
  }

  /** The valor fits 16 bits, and there is a name. */
  predicate Listable(w: Who) {
    w.valor < TWO_16 && w.name != ""
  }

  /** What a packet says of its sender. */
  function AsPeer(m: Msg, now: nat): Peer {
    Peer(m.who, m.lordValor, m.lordUuid, m.checksum, now)
  }

  /** A packet is taken in unless it is the instance's own or too old; then the list holds its sender once, with the vote,
      checksum and time of the packet, or, if the packet announces its death, no more; all other peers stay as they are.
      The sender must be one that a list can hold. */
  lemma ReceiveMeans(s: State, m: Msg, now: nat, skew: nat)
    requires DistinctPeers(s.peers) && Listable(m.who)
    ensures var t := Receive(s, m, now, skew);
            t == s.(peers := t.peers) && DistinctPeers(t.peers)
    ensures var t := Receive(s, m, now, skew);
            if m.who == s.me || m.unix + skew < now then t.peers == s.peers
            else forall p :: p in t.peers <==> if p.who == m.who then !m.dead && p == AsPeer(m, now) else p in s.peers
  {
    var i := FindPeer(s.peers, m.who);
    var t := Receive(s, m, now, skew);
    if m.who != s.me && m.unix + skew >= now {
      if i < 0 {
        if !m.dead {
          assert m.who.(valor := m.who.valor % TWO_16) == m.who;
          assert t.peers == s.peers + [AsPeer(m, now)];
        }
      } else if m.dead {
        RemoveOne(s.peers, i);
      } else {
        assert t.peers == s.peers[i := AsPeer(m, now)];
        ReplaceOne(s.peers, i, AsPeer(m, now));
      }
    }
  }

  lemma RemoveOne(peers: seq<Peer>, i: nat)
    requires DistinctPeers(peers) && i < |peers|
    ensures var r := peers[..i] + peers[i + 1..]; DistinctPeers(r) && forall p :: p in r <==> p in peers && p.who != peers[i].who
  {
    var r := peers[..i] + peers[i + 1..];
    forall p | p in peers && p.who != peers[i].who
      ensures p in r
    {
      var k :| 0 <= k < |peers| && peers[k] == p;
      assert r[if k < i then k else k - 1] == p;
    }
  }

  lemma ReplaceOne(peers: seq<Peer>, i: nat, q: Peer)
    requires DistinctPeers(peers) && i < |peers| && q.who == peers[i].who
    ensures var r := peers[i := q]; DistinctPeers(r) && forall p :: p in r <==> if p.who == q.who then p == q else p in peers
  {
    var r := peers[i := q];
    assert r[i] == q;
    forall p | p in peers && p.who != q.who
      ensures p in r
    {
      var k :| 0 <= k < |peers| && peers[k] == p;
      assert r[k] == p;
    }
  }

  /** A new peer is the last of the list, and one that is listed keeps its place. */
  lemma ReceivePlace(s: State, m: Msg, now: nat, skew: nat)
    requires m.who != s.me && m.unix + skew >= now && !m.dead && Listable(m.who)
    ensures var t := Receive(s, m, now, skew);
            if Lists(s, m.who) then Whos(t.peers) == Whos(s.peers) else t.peers == s.peers + [AsPeer(m, now)]
  {
    assert m.who.(valor := m.who.valor % TWO_16) == m.who;
    var i := FindPeer(s.peers, m.who);
    if i >= 0 { assert Lists(s, m.who); }
  }

  /** A sender whose valor does not fit 16 bits is never found in the list, so each of its packets adds it once more,
      under the valor that is left of it. */
  lemma WideValorAddsAgain(s: State, m: Msg, now: nat, skew: nat)
    requires m.who != s.me && m.unix + skew >= now && !m.dead && m.who.name != ""
    requires forall k :: 0 <= k < |s.peers| ==> s.peers[k].who.valor < TWO_16
    ensures var t := Receive(s, m, now, skew);
            (forall k :: 0 <= k < |t.peers| ==> t.peers[k].who.valor < TWO_16) &&
            (m.who.valor >= TWO_16 ==>
               t.peers == s.peers + [AsPeer(m, now).(who := m.who.(valor := m.who.valor % TWO_16))] && !Lists(t, m.who))
  {
  }

  // ---- the checksum ---------------------------------------------------------------------------

  /** The checksum from scratch: the own valor and uuid characters, and as much again for every peer. */
  lemma ChecksumPinned(s: State, p: Peer)
    ensures s.peers == [] ==> Checksum(s) == (s.me.valor + UuidSum(s.me.uuid)) % TWO_64
    ensures Checksum(s.(peers := s.peers + [p])) == (Checksum(s) + p.who.valor + UuidSum(p.who.uuid)) % TWO_64
  {
    var l := s.peers + [p];
    assert l[..|l| - 1] == s.peers;
    ModAdd(Weight(s.me) + PeerWeights(s.peers), Weight(p.who));
  }

  lemma ModAdd(a: int, b: int)
    ensures (a + b) % TWO_64 == (a % TWO_64 + b) % TWO_64
  {
  }

  /** Changing one character of a uuid changes the sum of its characters by the difference. */
  lemma {:induction false} UuidSumChange(u: seq<int>, k: nat, c: int)
    requires k < |u|
    ensures UuidSum(u[k := c]) == UuidSum(u) + c - u[k]
  {
    var n := |u| - 1;
    var v := u[k := c];
    if k == n {
      assert v[..n] == u[..n];
    } else {
      UuidSumChange(u[..n], k, c);
      assert v[..n] == u[..n][k := c];
    }
  }

  /** The sum adds up all characters. */
  lemma {:induction false} UuidSumParts(u: seq<int>, v: seq<int>, c: int)
    ensures UuidSum([c]) == c && UuidSum(u + v) == UuidSum(u) + UuidSum(v)
  {
    assert [c][..0] == [];
    if v == [] {
      assert u + v == u;
    } else {
      UuidSumParts(u, v[..|v| - 1], c);
      assert (u + v)[..|u + v| - 1] == u + v[..|v| - 1];
    }
  }

  /** Two instances that differ in one character of their own uuid see different checksums. */
  lemma ChecksumTells(s: State, t: State, k: nat, c: int)
    requires k < 36 && 0 <= c < TWO_16 && 0 <= s.me.uuid[k] < TWO_16 && c != s.me.uuid[k]
    requires t == s.(me := s.me.(uuid := s.me.uuid[k := c]))
    ensures Checksum(t) != Checksum(s)
  {
    UuidSumChange(s.me.uuid, k, c);
    Apart(Weight(s.me) + PeerWeights(s.peers), c - s.me.uuid[k]);
  }

  lemma Apart(a: int, d: int)
    requires d != 0 && d < TWO_16 && -d < TWO_16
    ensures (a + d) % TWO_64 != a % TWO_64
  {
    assert a + d - a == d;
  }
}
