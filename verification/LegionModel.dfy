/** Legion leader election (core/legion.c): what one instance computes from its list of peers. */
module LegionModel {

  import opened Basics

  /** A uuid: 36 characters, as their codes. */
  type Uuid = s: seq<int> | |s| == 36 witness ZEROS

  /** The all-zero uuid. */
  const ZEROS: seq<int> := [0, 0, 0, 0, 0, 0, 0, 0, 0, 0, 0, 0, 0, 0, 0, 0, 0, 0,
                          0, 0, 0, 0, 0, 0, 0, 0, 0, 0, 0, 0, 0, 0, 0, 0, 0, 0]
  const NO_UUID: Uuid := ZEROS
  const TWO_64: nat := 0x1_0000_0000_0000_0000
  const TWO_16: nat := 0x1_0000

  /** An instance as its announcements name it; valor 0 is an arbiter. */
  datatype Who = Who(valor: nat, uuid: Uuid, name: string)

  /** struct uwsgi_legion_node: a peer with its last announced vote and checksum. */
  datatype Peer = Peer(who: Who, lordValor: nat, lordUuid: Uuid, checksum: nat, lastSeen: nat)

  /** struct uwsgi_legion without scrolls and hooks. */
  datatype State = State(me: Who, quorum: int, peers: seq<Peer>, lordValor: nat, lordUuid: Uuid, checksum: nat,
                         changed: bool, dead: bool, joined: bool, iAmTheLord: bool, suspendedTil: nat, lastWarning: nat)

  /** An announcement. */
  datatype Msg = Msg(who: Who, lordValor: nat, lordUuid: Uuid, checksum: nat, unix: nat, dead: bool)

  // ---- comparing -------------------------------------------------------------------

  /** uwsgi_uuid_cmp from position i on: the first difference decides. */
  predicate UuidGreater(x: Uuid, y: Uuid, i: nat := 0)
    requires i <= 36
    decreases 36 - i
  {
    i < 36 && if x[i] != y[i] then x[i] > y[i] else UuidGreater(x, y, i + 1)
  }

  /** The order of candidates: valor first, then uuid. */
  predicate Beats(v1: nat, u1: Uuid, v2: nat, u2: Uuid) {
    v1 > v2 || (v1 == v2 && UuidGreater(u1, u2))
  }

  lemma {:induction false} UuidTotal(x: Uuid, y: Uuid, i: nat)
    requires i <= 36
    ensures !(UuidGreater(x, y, i) && UuidGreater(y, x, i))
    ensures x[i..] != y[i..] ==> UuidGreater(x, y, i) || UuidGreater(y, x, i)
    ensures x[i..] == y[i..] ==> !UuidGreater(x, y, i)
    decreases 36 - i
  {
    if i < 36 {
      UuidTotal(x, y, i + 1);
      assert x[i..] == [x[i]] + x[i + 1..] && y[i..] == [y[i]] + y[i + 1..];
    }
  }

  lemma {:induction false} UuidTransitive(x: Uuid, y: Uuid, z: Uuid, i: nat)
    requires i <= 36 && UuidGreater(x, y, i) && UuidGreater(y, z, i)
    ensures UuidGreater(x, z, i)
    decreases 36 - i
  {
    if x[i] == y[i] && y[i] == z[i] {
      UuidTransitive(x, y, z, i + 1);
    }
  }

  /** Beats is a strict total order on (valor, uuid). */
  lemma BeatsIsStrictTotalOrder(v1: nat, u1: Uuid, v2: nat, u2: Uuid, v3: nat, u3: Uuid)
    ensures !(Beats(v1, u1, v2, u2) && Beats(v2, u2, v1, u1))
    ensures Beats(v1, u1, v2, u2) || Beats(v2, u2, v1, u1) <==> (v1, u1) != (v2, u2)
    ensures Beats(v1, u1, v2, u2) && Beats(v2, u2, v3, u3) ==> Beats(v1, u1, v3, u3)
  {
    UuidTotal(u1, u2, 0);
    assert u1[0..] == u1 && u2[0..] == u2;
    if UuidGreater(u1, u2) && UuidGreater(u2, u3) { UuidTransitive(u1, u2, u3, 0); }
  }

  // ---- what one instance computes ------------------------------------------------------

  /** The running best of uwsgi_legion_get_lord after the first `k` peers: the own instance (-1)
      unless a non-arbiter peer beats everything before it. */
  function BestUpTo(s: State, k: nat): (r: int)
    requires k <= |s.peers|
    ensures -1 <= r < k
  {
    if k == 0 then -1
    else
      var b := BestUpTo(s, k - 1);
      var p := s.peers[k - 1].who;
      if p.valor != 0 && Beats(p.valor, p.uuid, ValorOf(s, b), UuidOf(s, b)) then k - 1 else b
  }

  function ValorOf(s: State, b: int): nat requires -1 <= b < |s.peers| { if b < 0 then s.me.valor else s.peers[b].who.valor }
  function UuidOf(s: State, b: int): Uuid requires -1 <= b < |s.peers| { if b < 0 then s.me.uuid else s.peers[b].who.uuid }

  /** uwsgi_legion_get_lord: the index of the peer that should be lord, -1 for none. */
  function Best(s: State): (r: int)
    ensures -1 <= r < |s.peers|
  {
    BestUpTo(s, |s.peers|)
  }

  function AfterGetLord(s: State): State {
    var v, u := ValorOf(s, Best(s)), UuidOf(s, Best(s));
    s.(lordValor := v, lordUuid := u,
       changed := s.changed || (s.me.valor > 0 && s.lordValor == 0) || v != s.lordValor || u != s.lordUuid)
  }

  function UuidSum(u: seq<int>): int {
    if u == [] then 0 else UuidSum(u[..|u| - 1]) + u[|u| - 1]
  }

  function Weight(w: Who): int { w.valor + UuidSum(w.uuid) }

  function PeerWeights(peers: seq<Peer>): int {
    if peers == [] then 0 else PeerWeights(peers[..|peers| - 1]) + Weight(peers[|peers| - 1].who)
  }

  /** uwsgi_legion_checksum. */
  function Checksum(s: State): nat {
    (Weight(s.me) + PeerWeights(s.peers)) % TWO_64
  }

  /** Who gets this instance's vote: the best peer; itself if no peer is better and it may stand; nobody. */
  function Candidate(s: State, now: nat): (nat, Uuid, bool) {
    var b := Best(s);
    if b >= 0 then (s.peers[b].who.valor, s.peers[b].who.uuid, false)
    else if s.me.valor > 0 && now > s.suspendedTil then (s.me.valor, s.me.uuid, true)
    else (0, NO_UUID, false)
  }

  predicate Agrees(p: Peer, checksum: nat, valor: nat, uuid: Uuid) {
    p.checksum == checksum && p.lordValor == valor && p.lordUuid == uuid
  }

  /** 1 plus the number of peers if all agree, else 0. */
  function Votes(peers: seq<Peer>, checksum: nat, valor: nat, uuid: Uuid): nat {
    if forall i :: 0 <= i < |peers| ==> Agrees(peers[i], checksum, valor, uuid) then 1 + |peers| else 0
  }

  /** uwsgi_legion_announce. */
  function Announce(s: State, now: nat): (State, Option<Msg>) {
    if now <= s.suspendedTil then (s, None)
    else (s.(suspendedTil := 0), Some(Msg(s.me, s.lordValor, s.lordUuid, s.checksum, now, s.dead)))
  }

  /** Quorum reached: join, and become or stop being lord.  `death` > 0: a lord hook failed and the
      instance suspends itself for that long. */
  function WithQuorum(s: State, best: bool, now: nat, death: nat): (State, Option<Msg>) {
    var j := s.(joined := true, changed := false);
    if best && !j.iAmTheLord then
      if death > 0 then
        var (a, m) := Announce(j.(dead := true), now);
        (a.(suspendedTil := now + death), m)
      else Announce(j.(iAmTheLord := true), now)
    else if best then (j, None)
    else (j.(iAmTheLord := false), None)
  }

  /** legions_check_nodes_step2 for one legion. */
  function Step2(s: State, now: nat, death: nat): (State, Option<Msg>) {
    var (valor, uuid, best) := Candidate(s, now);
    var a := AfterGetLord(s);
    var b := a.(checksum := Checksum(a), changed := a.changed || Checksum(a) != a.checksum);
    var votes := Votes(b.peers, b.checksum, valor, uuid);
    if votes > 0 && votes >= b.quorum then WithQuorum(b, best, now, death)
    else if votes > 0 && now - b.lastWarning >= 60 then (b.(iAmTheLord := false, lastWarning := now), None)
    else (b, None)
  }

  /** uwsgi_legion_get_node: the first peer with that valor, name and uuid, from index `i` on. */
  function FindPeer(peers: seq<Peer>, w: Who, i: nat := 0): (r: int)
    requires i <= |peers|
    ensures -1 <= r < |peers|
    ensures r >= 0 ==> i <= r && peers[r].who == w && forall k :: i <= k < r ==> peers[k].who != w
    ensures r < 0 ==> forall k :: i <= k < |peers| ==> peers[k].who != w
    decreases |peers| - i
  {
    if i == |peers| then -1 else if peers[i].who == w then i else FindPeer(peers, w, i + 1)
  }

  /** A peer's announcement noted down. */
  function Noted(p: Peer, m: Msg, now: nat): Peer {
    p.(lastSeen := now, lordValor := m.lordValor, checksum := m.checksum, lordUuid := m.lordUuid)
  }

  /** The list entry of a new peer; the valor is cut to 16 bits. */
  function NewPeer(w: Who): Peer {
    Peer(w.(valor := w.valor % TWO_16), 0, NO_UUID, 0, 0)
  }

  /** What the loop does with a well-formed packet: own ones and old ones are ignored, an unknown
      sender is added unless it announces its death or has no name, a known one is removed if it does. */
  function Receive(s: State, m: Msg, now: nat, skew: nat): State {
    if m.who == s.me || m.unix < now - skew then s
    else
      var i := FindPeer(s.peers, m.who);
      if i < 0 then if m.dead || m.who.name == "" then s else s.(peers := s.peers + [Noted(NewPeer(m.who), m, now)])
      else if m.dead then s.(peers := s.peers[..i] + s.peers[i + 1..])
      else s.(peers := s.peers[i := Noted(s.peers[i], m, now)])
  }

  // ---- the best candidate does not depend on the order of the list --------------------------

  /** Nobody eligible in the first `k` peers, nor the own instance, beats (v, u). */
  ghost predicate Unbeaten(s: State, k: nat, v: nat, u: Uuid)
    requires k <= |s.peers|
  {
    && !Beats(s.me.valor, s.me.uuid, v, u)
    && forall i :: 0 <= i < k && s.peers[i].who.valor != 0 ==> !Beats(s.peers[i].who.valor, s.peers[i].who.uuid, v, u)
  }

  lemma {:induction false} BestUnbeaten(s: State, k: nat)
    requires k <= |s.peers|
    ensures var b := BestUpTo(s, k);
            Unbeaten(s, k, ValorOf(s, b), UuidOf(s, b)) && (b >= 0 ==> s.peers[b].who.valor != 0)
  {
    if k == 0 {
      BeatsIsStrictTotalOrder(s.me.valor, s.me.uuid, s.me.valor, s.me.uuid, 0, NO_UUID);
    } else {
      BestUnbeaten(s, k - 1);
      var b, p := BestUpTo(s, k - 1), s.peers[k - 1].who;
      var c := BestUpTo(s, k);
      hide Beats;
      BeatsIsStrictTotalOrder(p.valor, p.uuid, p.valor, p.uuid, 0, NO_UUID);
      if c != b {
        BeatenChain(s, k, s.me.valor, s.me.uuid, p, ValorOf(s, b), UuidOf(s, b));
        forall i | 0 <= i < k - 1 && s.peers[i].who.valor != 0
          ensures !Beats(s.peers[i].who.valor, s.peers[i].who.uuid, p.valor, p.uuid)
        {
          BeatenChain(s, k, s.peers[i].who.valor, s.peers[i].who.uuid, p, ValorOf(s, b), UuidOf(s, b));
        }
      }
    }
  }

  /** What does not beat the old best does not beat the new one. */
  lemma BeatenChain(s: State, k: nat, v: nat, u: Uuid, p: Who, bv: nat, bu: Uuid)
    requires Beats(p.valor, p.uuid, bv, bu) && !Beats(v, u, bv, bu)
    ensures !Beats(v, u, p.valor, p.uuid)
  {
    BeatsIsStrictTotalOrder(v, u, p.valor, p.uuid, bv, bu);
  }

  ghost predicate Lists(s: State, w: Who) {
    exists i :: 0 <= i < |s.peers| && s.peers[i].who == w
  }

  /** The elected pair is the greatest of the own one and the non-arbiter peers', and it is the own
      one exactly when no peer is elected. */
  lemma BestIsMaximum(s: State, w: Who)
    requires w == s.me || (Lists(s, w) && w.valor != 0)
    requires Unbeaten(s, |s.peers|, w.valor, w.uuid)
    ensures ValorOf(s, Best(s)) == w.valor && UuidOf(s, Best(s)) == w.uuid
  {
    BestUnbeaten(s, |s.peers|);
    var b := Best(s);
    BeatsIsStrictTotalOrder(ValorOf(s, b), UuidOf(s, b), w.valor, w.uuid, 0, NO_UUID);
    hide Beats;
  }

  /** Two instances' states with the same own identity and the same peers in any order elect the same. */
  lemma ElectionIgnoresOrder(s: State, t: State)
    requires s.me == t.me
    requires forall w :: Lists(s, w) <==> Lists(t, w)
    ensures ValorOf(s, Best(s)) == ValorOf(t, Best(t)) && UuidOf(s, Best(s)) == UuidOf(t, Best(t))
  {
    BestUnbeaten(s, |s.peers|);
    var b := Best(s);
    var w := if b < 0 then s.me else s.peers[b].who;
    hide Beats;
    forall i | 0 <= i < |t.peers| && t.peers[i].who.valor != 0
      ensures !Beats(t.peers[i].who.valor, t.peers[i].who.uuid, w.valor, w.uuid)
    {
      var x := t.peers[i].who;
      assert Lists(t, x);
      var j :| 0 <= j < |s.peers| && s.peers[j].who == x;
    }
    if b >= 0 { assert Lists(s, w); }
    BestIsMaximum(t, w);
  }

  // ---- the checksum does not depend on the order of the list -----------------------------------

  function Whos(peers: seq<Peer>): (r: seq<Who>)
    ensures |r| == |peers| && forall i :: 0 <= i < |r| ==> r[i] == peers[i].who
  {
    seq(|peers|, i requires 0 <= i < |peers| => peers[i].who)
  }

  function Weights(ws: seq<Who>): int {
    if ws == [] then 0 else Weights(ws[..|ws| - 1]) + Weight(ws[|ws| - 1])
  }

  lemma {:induction false} PeerWeightsAreWeights(peers: seq<Peer>)
    ensures PeerWeights(peers) == Weights(Whos(peers))
  {
    if peers != [] {
      var p := peers[..|peers| - 1];
      PeerWeightsAreWeights(p);
      assert Whos(peers)[..|peers| - 1] == Whos(p);
    }
  }

  lemma {:induction false} WeightsWithout(ws: seq<Who>, k: nat)
    requires k < |ws|
    ensures Weights(ws) == Weights(ws[..k] + ws[k + 1..]) + Weight(ws[k])
  {
    var n := |ws| - 1;
    var r := ws[..k] + ws[k + 1..];
    if k == n {
      assert r == ws[..n];
    } else {
      WeightsWithout(ws[..n], k);
      assert ws[..n][..k] == ws[..k] && ws[..n][k + 1..] == ws[k + 1..n];
      assert ws[k + 1..] == ws[k + 1..n] + [ws[n]];
      assert r == (ws[..k] + ws[k + 1..n]) + [ws[n]];
      assert r[..n - 1] == ws[..k] + ws[k + 1..n];
    }
  }

  lemma MultisetWithout(b: seq<Who>, k: nat)
    requires k < |b|
    ensures multiset(b[..k] + b[k + 1..]) == multiset(b) - multiset{b[k]}
  {
    assert b == b[..k] + [b[k]] + b[k + 1..];
  }

  /** The last element of one permutation taken out of both. */
  lemma PermutationLast(a: seq<Who>, b: seq<Who>) returns (k: nat)
    requires multiset(a) == multiset(b) && a != []
    ensures k < |b| && b[k] == a[|a| - 1] && multiset(a[..|a| - 1]) == multiset(b[..k] + b[k + 1..])
  {
    var n := |a| - 1;
    assert a[n] in multiset(a);
    k :| 0 <= k < |b| && b[k] == a[n];
    MultisetWithout(b, k);
    MultisetWithout(a, n);
    assert a[..n] + a[n + 1..] == a[..n];
  }

  lemma {:induction false} WeightsOfPermutation(a: seq<Who>, b: seq<Who>)
    requires multiset(a) == multiset(b)
    ensures Weights(a) == Weights(b)
    decreases |a|
  {
    if a == [] {
      assert |multiset(b)| == |b|;
    } else {
      var k := PermutationLast(a, b);
      WeightsWithout(b, k);
      WeightsOfPermutation(a[..|a| - 1], b[..k] + b[k + 1..]);
    }
  }

  /** Instances that see the same group, each from its own place and in its own order, compute the
      same checksum. */
  lemma ChecksumIgnoresOrder(s: State, t: State)
    requires multiset(Whos(s.peers) + [s.me]) == multiset(Whos(t.peers) + [t.me])
    ensures Checksum(s) == Checksum(t)
  {
    PeerWeightsAreWeights(s.peers);
    PeerWeightsAreWeights(t.peers);
    var a, b := Whos(s.peers) + [s.me], Whos(t.peers) + [t.me];
    WeightsOfPermutation(a, b);
    assert a[..|a| - 1] == Whos(s.peers) && b[..|b| - 1] == Whos(t.peers);
  }
}
