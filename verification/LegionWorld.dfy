/** A group of legion instances exchanging announcements: agreement on the lord over every
    interleaving of checks, announcements and receipts. */
module LegionWorld {
  import opened Basics
  import opened LegionModel

  /** All instances and the packets ever sent (a packet may be received late, again, or never). */
  datatype World = World(nodes: seq<State>, net: set<Msg>)

  datatype Event = Check(i: nat, now: nat) | Tell(i: nat, now: nat) | Hear(i: nat, m: Msg, now: nat)

  function Sent(w: World, i: nat, r: (State, Option<Msg>)): World
    requires i < |w.nodes|
  {
    World(w.nodes[i := r.0], if r.1.Some? then w.net + {r.1.value} else w.net)
  }

  /** One step; lord hooks succeed. */
  function React(w: World, e: Event, skew: nat): World {
    if e.i >= |w.nodes| then w
    else match e
      case Check(i, now) => Sent(w, i, Step2(w.nodes[i], now, 0))
      case Tell(i, now) => Sent(w, i, Announce(w.nodes[i], now))
      case Hear(i, m, now) => if m in w.net then w.(nodes := w.nodes[i := Receive(w.nodes[i], m, now, skew)]) else w
  }

  function Run(w: World, es: seq<Event>, skew: nat): World {
    if es == [] then w else React(Run(w, es[..|es| - 1], skew), es[|es| - 1], skew)
  }

  // ---- a complete group ------------------------------------------------------------------

  /** Instance `i` of the group knows exactly the other members, in any order. */
  ghost predicate NodeOk(s: State, members: seq<Who>, i: nat)
    requires i < |members|
  {
    s.me == members[i] && multiset(Whos(s.peers) + [s.me]) == multiset(members) && s.quorum <= |members| && !s.dead
  }

  /** The members are distinct and `top` is the greatest; it is no arbiter. */
  ghost predicate Ranked(members: seq<Who>, top: nat) {
    && top < |members| && members[top].valor > 0
    && (forall i, j :: 0 <= i < j < |members| ==> members[i] != members[j])
    && forall j :: 0 <= j < |members| && j != top ==>
         Beats(members[top].valor, members[top].uuid, members[j].valor, members[j].uuid)
  }

  ghost predicate FromMembers(net: set<Msg>, members: seq<Who>) {
    forall m :: m in net ==> m.who in members && !m.dead
  }

  /** The whole group is complete, ranked, and its greatest member is not suspended from `t0` on. */
  ghost predicate Group(w: World, members: seq<Who>, top: nat, t0: nat) {
    && Ranked(members, top) && |w.nodes| == |members| && FromMembers(w.net, members)
    && (forall i :: 0 <= i < |members| ==> NodeOk(w.nodes[i], members, i))
    && w.nodes[top].suspendedTil < t0
  }

  ghost predicate Later(es: seq<Event>, t0: nat) {
    forall k :: 0 <= k < |es| ==> es[k].now >= t0
  }

  ghost function GroupSum(members: seq<Who>): nat { (Weights(members) % TWO_64) as nat }

  /** The vote everybody should cast. */
  ghost predicate Right(checksum: nat, valor: nat, uuid: Uuid, members: seq<Who>, top: nat)
    requires top < |members|
  {
    checksum == GroupSum(members) && valor == members[top].valor && uuid == members[top].uuid
  }

  ghost predicate Settled(s: State, members: seq<Who>, top: nat)
    requires top < |members|
  {
    Right(s.checksum, s.lordValor, s.lordUuid, members, top)
  }

  ghost predicate GoodPeer(p: Peer, members: seq<Who>, top: nat)
    requires top < |members|
  {
    Right(p.checksum, p.lordValor, p.lordUuid, members, top)
  }

  ghost predicate GoodMsg(m: Msg, members: seq<Who>, top: nat)
    requires top < |members|
  {
    Right(m.checksum, m.lordValor, m.lordUuid, members, top)
  }

  // ---- one instance of a complete group -------------------------------------------------------

  lemma Member(s: State, members: seq<Who>, i: nat, w: Who)
    requires i < |members| && NodeOk(s, members, i)
    ensures w in members <==> w == s.me || Lists(s, w)
    ensures |s.peers| + 1 == |members|
  {
    var l := Whos(s.peers) + [s.me];
    assert w in members <==> w in multiset(members);
    assert w in l <==> w in multiset(l);
    assert |multiset(l)| == |l| && |multiset(members)| == |members|;
    if w in Whos(s.peers) {
      var k :| 0 <= k < |s.peers| && Whos(s.peers)[k] == w;
      assert s.peers[k].who == w;
    }
    if Lists(s, w) {
      var k :| 0 <= k < |s.peers| && s.peers[k].who == w;
      assert Whos(s.peers)[k] == w;
      assert w in Whos(s.peers);
    }
  }

  lemma {:induction false} CountOne(members: seq<Who>, w: Who)
    requires forall i, j :: 0 <= i < j < |members| ==> members[i] != members[j]
    ensures multiset(members)[w] <= 1
  {
    if members != [] {
      var n := |members| - 1;
      assert members == members[..n] + [members[n]];
      CountOne(members[..n], w);
      if members[n] == w {
        assert w !in members[..n];
        assert multiset(members[..n])[w] == 0;
      }
    }
  }

  /** The own identity is not among the peers. */
  lemma NotOwnPeer(s: State, members: seq<Who>, i: nat, k: nat)
    requires i < |members| && NodeOk(s, members, i) && k < |s.peers|
    requires forall a, b :: 0 <= a < b < |members| ==> members[a] != members[b]
    ensures s.peers[k].who != s.me && s.peers[k].who in members
  {
    Member(s, members, i, s.peers[k].who);
    assert Lists(s, s.peers[k].who);
    CountOne(members, s.me);
    var l := Whos(s.peers);
    assert multiset(l + [s.me])[s.me] == multiset(l)[s.me] + 1;
    assert l[k] in multiset(l);
  }

  /** Every member elects the greatest one; only that one finds no better peer. */
  lemma ElectsTop(s: State, members: seq<Who>, top: nat, i: nat)
    requires Ranked(members, top) && i < |members| && NodeOk(s, members, i)
    ensures ValorOf(s, Best(s)) == members[top].valor && UuidOf(s, Best(s)) == members[top].uuid
    ensures Best(s) < 0 <==> i == top
  {
    hide Beats, Best;
    var w := members[top];
    Member(s, members, i, w);
    forall j | 0 <= j < |members|
      ensures !Beats(members[j].valor, members[j].uuid, w.valor, w.uuid)
    {
      BeatsIsStrictTotalOrder(members[j].valor, members[j].uuid, w.valor, w.uuid, 0, NO_UUID);
    }
    forall k | 0 <= k < |s.peers|
      ensures !Beats(s.peers[k].who.valor, s.peers[k].who.uuid, w.valor, w.uuid)
      ensures s.peers[k].who != s.me && s.peers[k].who in members
    {
      NotOwnPeer(s, members, i, k);
    }
    BestIsMaximum(s, w);
    if Best(s) >= 0 {
      var p := s.peers[Best(s)].who;
      var j :| 0 <= j < |members| && members[j] == p;
      if j != top {
        BeatsIsStrictTotalOrder(w.valor, w.uuid, p.valor, p.uuid, 0, NO_UUID);
      }
    } else if i != top {
      BeatsIsStrictTotalOrder(w.valor, w.uuid, s.me.valor, s.me.uuid, 0, NO_UUID);
    }
  }

  lemma SumsAgree(s: State, members: seq<Who>, i: nat)
    requires i < |members| && NodeOk(s, members, i)
    ensures Checksum(s) == GroupSum(members)
  {
    PeerWeightsAreWeights(s.peers);
    var l := Whos(s.peers) + [s.me];
    WeightsOfPermutation(l, members);
    assert l[..|l| - 1] == Whos(s.peers);
  }

  /** A check settles the instance, and leaves its lord status as it was or sets it right; it sets it
      right if all peers have the right vote noted. */
  lemma CheckOutcome(s: State, members: seq<Who>, top: nat, i: nat, now: nat)
    requires Ranked(members, top) && i < |members| && NodeOk(s, members, i)
    requires i == top ==> s.suspendedTil < now
    ensures var (t, m) := Step2(s, now, 0);
            (NodeOk(t, members, i) && t.peers == s.peers && Settled(t, members, top) &&
             (t.iAmTheLord == s.iAmTheLord || t.iAmTheLord == (i == top)) &&
             ((forall k :: 0 <= k < |s.peers| ==> GoodPeer(s.peers[k], members, top)) ==> t.iAmTheLord == (i == top)) &&
             (t.suspendedTil == s.suspendedTil || t.suspendedTil == 0) &&
             (m.Some? ==> m.value.who == members[i] && !m.value.dead && GoodMsg(m.value, members, top)))
  {
    ElectsTop(s, members, top, i);
    SumsAgree(s, members, i);
    SumsAgree(AfterGetLord(s), members, i);
    Member(s, members, i, s.me);
    hide Best, Checksum, Ranked, GroupSum;
    var (valor, uuid, best) := Candidate(s, now);
    assert valor == members[top].valor && uuid == members[top].uuid && best == (i == top);
    var a := AfterGetLord(s);
    var votes := Votes(a.peers, Checksum(a), valor, uuid);
    assert votes == 0 || votes == |members|;
    if forall k :: 0 <= k < |s.peers| ==> GoodPeer(s.peers[k], members, top) {
      assert votes == |members|;
    }
  }

  /** Hearing a member changes at most that member's noted vote. */
  lemma HearOutcome(s: State, members: seq<Who>, top: nat, i: nat, m: Msg, now: nat, skew: nat)
    requires Ranked(members, top) && i < |members| && NodeOk(s, members, i) && m.who in members && !m.dead
    ensures var t := Receive(s, m, now, skew);
            (NodeOk(t, members, i) && t == s.(peers := t.peers) && |t.peers| == |s.peers| &&
             (forall k :: 0 <= k < |s.peers| ==> t.peers[k].who == s.peers[k].who) &&
             forall k :: 0 <= k < |s.peers| ==>
               t.peers[k] == if m.unix + skew >= now && s.peers[k].who == m.who then Noted(s.peers[k], m, now) else s.peers[k])
  {
    Member(s, members, i, m.who);
    var t := Receive(s, m, now, skew);
    var k := FindPeer(s.peers, m.who);
    if m.who != s.me && k >= 0 {
      PeersDistinct(s, members, i);
    }
    if m.who == s.me {
      forall k | 0 <= k < |s.peers|
        ensures s.peers[k].who != m.who
      {
        NotOwnPeer(s, members, i, k);
      }
    }
    assert Whos(t.peers) == Whos(s.peers);
  }

  lemma PeersDistinct(s: State, members: seq<Who>, i: nat)
    requires i < |members| && NodeOk(s, members, i)
    requires forall a, b :: 0 <= a < b < |members| ==> members[a] != members[b]
    ensures forall a, b :: 0 <= a < b < |s.peers| ==> s.peers[a].who != s.peers[b].who
  {
    var l := Whos(s.peers);
    forall a, b | 0 <= a < b < |s.peers|
      ensures s.peers[a].who != s.peers[b].who
    {
      CountOne(members, l[a]);
      assert l == l[..b] + l[b..];
      assert l[..b][a] == l[a] && l[b..][0] == l[b];
      assert l[a] in multiset(l[..b]) && l[b] in multiset(l[b..]);
    }
  }

  // ---- steps and runs of the group ---------------------------------------------------------------

  ghost predicate GoodPeers(s: State, members: seq<Who>, top: nat)
    requires top < |members|
  {
    forall k :: 0 <= k < |s.peers| ==> GoodPeer(s.peers[k], members, top)
  }

  /** What a step does to the instance it belongs to, and to the packets about: a check settles it and, with all the right
      votes noted, sets its lord status right; nothing makes that status wrong; a settled instance sends the right vote. */
  ghost predicate Moves(w: World, e: Event, skew: nat, members: seq<Who>, top: nat, u: World)
    requires top < |members| && e.i < |w.nodes| && e.i < |u.nodes| && e.i < |members|
  {
    var s, t := w.nodes[e.i], u.nodes[e.i];
    && u.nodes == w.nodes[e.i := t] && NodeOk(t, members, e.i)
    && (t.suspendedTil == s.suspendedTil || t.suspendedTil == 0)
    && (Settled(s, members, top) || e.Check? ==> Settled(t, members, top))
    && (t.iAmTheLord == s.iAmTheLord || t.iAmTheLord == (e.i == top))
    && (e.Check? && GoodPeers(s, members, top) ==> t.iAmTheLord == (e.i == top))
    && NewPackets(w, e, members, top, u.net)
    && (if TakenIn(w, e, skew) then NotesDown(s, e.m, e.now, t) else t.peers == s.peers)
  }

  ghost predicate NewPackets(w: World, e: Event, members: seq<Who>, top: nat, net: set<Msg>)
    requires top < |members| && e.i < |w.nodes|
  {
    forall m :: m in net ==>
      m in w.net ||
      (m.who in members && !m.dead && (Settled(w.nodes[e.i], members, top) || e.Check? ==> GoodMsg(m, members, top)))
  }

  /** The event is the receipt of a packet that is about and not too old. */
  predicate TakenIn(w: World, e: Event, skew: nat) {
    e.Hear? && e.m in w.net && e.m.unix + skew >= e.now
  }

  /** The packet's vote replaces the one noted for its sender. */
  ghost predicate NotesDown(s: State, m: Msg, now: nat, t: State) {
    |t.peers| == |s.peers| &&
    forall k :: 0 <= k < |s.peers| ==> t.peers[k] == if s.peers[k].who == m.who then Noted(s.peers[k], m, now) else s.peers[k]
  }

  lemma ReactMoves(w: World, e: Event, skew: nat, members: seq<Who>, top: nat, t0: nat)
    requires Group(w, members, top, t0) && e.now >= t0 && e.i < |w.nodes|
    ensures |React(w, e, skew).nodes| == |w.nodes| && Moves(w, e, skew, members, top, React(w, e, skew))
  {
    assert NodeOk(w.nodes[e.i], members, e.i);
    hide NodeOk, Moves, Ranked;
    match e
    case Check(i, now) => CheckMoves(w, i, now, skew, members, top);
    case Tell(i, now) => TellMoves(w, i, now, skew, members, top);
    case Hear(i, m, now) => if m in w.net { HearMoves(w, i, m, now, skew, members, top); } else { Unmoved(w, e, skew, members, top); }
  }

  lemma Unmoved(w: World, e: Event, skew: nat, members: seq<Who>, top: nat)
    requires Ranked(members, top) && e.i < |w.nodes| == |members| && NodeOk(w.nodes[e.i], members, e.i) && e.Hear? && e.m !in w.net
    ensures Moves(w, e, skew, members, top, w)
  {
    hide NodeOk, Ranked, Right;
  }

  lemma CheckMoves(w: World, i: nat, now: nat, skew: nat, members: seq<Who>, top: nat)
    requires Ranked(members, top) && i < |w.nodes| == |members| && NodeOk(w.nodes[i], members, i)
    requires i == top ==> w.nodes[i].suspendedTil < now
    ensures Moves(w, Check(i, now), skew, members, top, React(w, Check(i, now), skew))
  {
    CheckOutcome(w.nodes[i], members, top, i, now);
    hide NodeOk, Ranked, Right, Step2;
  }

  lemma TellMoves(w: World, i: nat, now: nat, skew: nat, members: seq<Who>, top: nat)
    requires Ranked(members, top) && i < |w.nodes| == |members| && NodeOk(w.nodes[i], members, i)
    ensures Moves(w, Tell(i, now), skew, members, top, React(w, Tell(i, now), skew))
  {
    TellOutcome(w.nodes[i], members, top, i, now);
    hide NodeOk, Ranked, Right, Announce;
  }

  lemma HearMoves(w: World, i: nat, m: Msg, now: nat, skew: nat, members: seq<Who>, top: nat)
    requires Ranked(members, top) && i < |w.nodes| == |members| && NodeOk(w.nodes[i], members, i) && m in w.net && m.who in members && !m.dead
    ensures Moves(w, Hear(i, m, now), skew, members, top, React(w, Hear(i, m, now), skew))
  {
    HearOutcome(w.nodes[i], members, top, i, m, now, skew);
    hide NodeOk, Ranked, Right, Receive;
    var s, t := w.nodes[i], Receive(w.nodes[i], m, now, skew);
    if m.unix + skew < now { assert t.peers == s.peers; }
  }

  lemma ReactGroup(w: World, e: Event, skew: nat, members: seq<Who>, top: nat, t0: nat)
    requires Group(w, members, top, t0) && e.now >= t0
    ensures Group(React(w, e, skew), members, top, t0)
  {
    hide React, NodeOk, Beats, Settled, GoodPeers, GoodMsg;
    if e.i < |w.nodes| {
      ReactMoves(w, e, skew, members, top, t0);
      var u := React(w, e, skew);
      assert |u.nodes| == |members| && forall i :: 0 <= i < |members| && i != e.i ==> u.nodes[i] == w.nodes[i];
    } else {
      NobodyMoves(w, e, skew);
    }
  }

  lemma NobodyMoves(w: World, e: Event, skew: nat)
    requires e.i >= |w.nodes|
    ensures React(w, e, skew) == w
  {
  }

  lemma TellOutcome(s: State, members: seq<Who>, top: nat, i: nat, now: nat)
    requires Ranked(members, top) && i < |members| && NodeOk(s, members, i)
    ensures var (t, m) := Announce(s, now);
            (NodeOk(t, members, i) && t == s.(suspendedTil := t.suspendedTil) &&
             (t.suspendedTil == s.suspendedTil || t.suspendedTil == 0) &&
             (m.Some? ==> m.value.who == members[i] && !m.value.dead &&
                          (Settled(s, members, top) ==> GoodMsg(m.value, members, top))))
  {
  }

  lemma {:induction false} RunGroup(w: World, es: seq<Event>, skew: nat, members: seq<Who>, top: nat, t0: nat)
    requires Group(w, members, top, t0) && Later(es, t0)
    ensures Group(Run(w, es, skew), members, top, t0)
  {
    hide Group, React;
    if es != [] {
      RunGroup(w, es[..|es| - 1], skew, members, top, t0);
      ReactGroup(Run(w, es[..|es| - 1], skew), es[|es| - 1], skew, members, top, t0);
    }
  }

  /** Instance `i` runs its check somewhere in `es`. */
  ghost predicate Checks(es: seq<Event>, i: nat) {
    exists k :: 0 <= k < |es| && es[k].Check? && es[k].i == i
  }

  lemma ChecksLast(es: seq<Event>, i: nat)
    requires es != []
    ensures Checks(es, i) <==> Checks(es[..|es| - 1], i) || (es[|es| - 1].Check? && es[|es| - 1].i == i)
  {
    var n := |es| - 1;
    if Checks(es, i) {
      var k :| 0 <= k < |es| && es[k].Check? && es[k].i == i;
      if k < n { assert es[..n][k] == es[k]; }
    }
    if Checks(es[..n], i) {
      var k :| 0 <= k < n && es[..n][k].Check? && es[..n][k].i == i;
      assert es[k] == es[..n][k];
    }
  }

  /** One step keeps settled instances settled, and a check settles its instance. */
  lemma ReactSettles(w: World, e: Event, skew: nat, members: seq<Who>, top: nat, t0: nat, j: nat)
    requires Group(w, members, top, t0) && e.now >= t0 && j < |members|
    requires Settled(w.nodes[j], members, top) || (e.Check? && e.i == j)
    ensures |React(w, e, skew).nodes| == |members| && Settled(React(w, e, skew).nodes[j], members, top)
  {
    hide React, NodeOk, Ranked, Settled, GoodPeers, GoodMsg, FromMembers;
    if e.i < |w.nodes| { ReactMoves(w, e, skew, members, top, t0); } else { NobodyMoves(w, e, skew); }
  }

  /** First stage: after any run in which every instance checks, all have settled on the same lord and checksum. */
  lemma {:induction false} AllSettle(w: World, es: seq<Event>, skew: nat, members: seq<Who>, top: nat, t0: nat, j: nat)
    requires Group(w, members, top, t0) && Later(es, t0) && j < |members|
    requires Settled(w.nodes[j], members, top) || Checks(es, j)
    ensures Group(Run(w, es, skew), members, top, t0) && Settled(Run(w, es, skew).nodes[j], members, top)
  {
    RunGroup(w, es, skew, members, top, t0);
    hide React, Settled;
    if es != [] {
      var before, e := es[..|es| - 1], es[|es| - 1];
      ChecksLast(es, j);
      RunGroup(w, before, skew, members, top, t0);
      if Settled(w.nodes[j], members, top) || Checks(before, j) {
        AllSettle(w, before, skew, members, top, t0, j);
      }
      hide Group;
      ReactSettles(Run(w, before, skew), e, skew, members, top, t0, j);
    }
  }

  ghost predicate AllSettled(w: World, members: seq<Who>, top: nat)
    requires top < |members|
  {
    |w.nodes| == |members| && forall i :: 0 <= i < |members| ==> Settled(w.nodes[i], members, top)
  }

  // ---- stale packets --------------------------------------------------------------------------

  /** The packets about with a wrong vote. */
  ghost function Stale(net: set<Msg>, members: seq<Who>, top: nat): set<Msg>
    requires top < |members|
  {
    set m | m in net && !GoodMsg(m, members, top)
  }

  /** Whatever is about carries the right vote or is one of the `old` packets. */
  ghost predicate GoodNet(net: set<Msg>, old': set<Msg>, members: seq<Who>, top: nat)
    requires top < |members|
  {
    forall m :: m in net ==> m in old' || GoodMsg(m, members, top)
  }

  /** Receiver and sender, where the last packet taken in during the run is none of the `old` ones. */
  ghost function Heard(w: World, es: seq<Event>, skew: nat, old': set<Msg>): set<(nat, Who)> {
    if es == [] then {}
    else HeardAlso(Heard(w, es[..|es| - 1], skew, old'), Run(w, es[..|es| - 1], skew), es[|es| - 1], skew, old')
  }

  ghost function HeardAlso(heard: set<(nat, Who)>, w: World, e: Event, skew: nat, old': set<Msg>): set<(nat, Who)> {
    if !TakenIn(w, e, skew) then heard
    else if e.m in old' then heard - {(e.i, e.m.who)} else heard + {(e.i, e.m.who)}
  }

  /** Instance `j` has the right vote noted for each peer named in `heard`. */
  ghost predicate Noticed(w: World, members: seq<Who>, top: nat, heard: set<(nat, Who)>, j: nat)
    requires top < |members| && j < |w.nodes|
  {
    forall k :: 0 <= k < |w.nodes[j].peers| && (j, w.nodes[j].peers[k].who) in heard ==> GoodPeer(w.nodes[j].peers[k], members, top)
  }

  lemma ReactGoodNet(w: World, e: Event, skew: nat, members: seq<Who>, top: nat, t0: nat, old': set<Msg>)
    requires Group(w, members, top, t0) && e.now >= t0 && AllSettled(w, members, top) && GoodNet(w.net, old', members, top)
    ensures AllSettled(React(w, e, skew), members, top) && GoodNet(React(w, e, skew).net, old', members, top)
  {
    hide React, NodeOk, Ranked, Settled, GoodPeers, GoodMsg, FromMembers;
    if e.i < |w.nodes| { ReactMoves(w, e, skew, members, top, t0); } else { NobodyMoves(w, e, skew); }
  }

  /** What is heard is noticed. */
  lemma ReactNoticed(w: World, e: Event, skew: nat, members: seq<Who>, top: nat, t0: nat, old': set<Msg>, heard: set<(nat, Who)>, j: nat)
    requires Group(w, members, top, t0) && e.now >= t0 && GoodNet(w.net, old', members, top)
    requires j < |members| && Noticed(w, members, top, heard, j)
    ensures |React(w, e, skew).nodes| == |members|
    ensures Noticed(React(w, e, skew), members, top, HeardAlso(heard, w, e, skew, old'), j)
  {
    hide React, NodeOk, Ranked, Settled, GoodPeers, FromMembers, Right;
    if e.i < |w.nodes| { ReactMoves(w, e, skew, members, top, t0); } else { NobodyMoves(w, e, skew); }
  }

  /** Second stage: from a settled group, whatever a run delivers last from a peer is noticed, unless it is an old packet. */
  lemma {:induction false} AllNotice(w: World, es: seq<Event>, skew: nat, members: seq<Who>, top: nat, t0: nat, old': set<Msg>, j: nat)
    requires Group(w, members, top, t0) && Later(es, t0) && AllSettled(w, members, top) && GoodNet(w.net, old', members, top) && j < |members|
    ensures var u := Run(w, es, skew);
            (Group(u, members, top, t0) && AllSettled(u, members, top) && GoodNet(u.net, old', members, top) &&
             Noticed(u, members, top, Heard(w, es, skew, old'), j))
  {
    hide React, HeardAlso;
    if es != [] {
      var before, e := es[..|es| - 1], es[|es| - 1];
      AllNotice(w, before, skew, members, top, t0, old', j);
      hide Group, AllSettled, GoodNet, Noticed;
      var v := Run(w, before, skew);
      ReactGroup(v, e, skew, members, top, t0);
      ReactGoodNet(v, e, skew, members, top, t0, old');
      ReactNoticed(v, e, skew, members, top, t0, old', Heard(w, before, skew, old'), j);
    }
  }

  // ---- who is lord ------------------------------------------------------------------------------

  /** Event `k` is a check of `j`, and the last packets it has taken in from each other member are none of the `old` ones. */
  ghost predicate DecidesAt(w: World, es: seq<Event>, skew: nat, old': set<Msg>, members: seq<Who>, j: nat, k: nat) {
    k < |es| && es[k].Check? && es[k].i == j && j < |members| &&
    forall i :: 0 <= i < |members| && i != j ==> (j, members[i]) in Heard(w, es[..k], skew, old')
  }

  ghost predicate Ready(w: World, es: seq<Event>, skew: nat, old': set<Msg>, members: seq<Who>, j: nat) {
    exists k :: DecidesAt(w, es, skew, old', members, j, k)
  }

  /** A step never makes a lord status wrong; a check with the right votes noted sets it right. */
  lemma ReactKeepsLord(w: World, e: Event, skew: nat, members: seq<Who>, top: nat, t0: nat, j: nat)
    requires Group(w, members, top, t0) && e.now >= t0 && j < |members|
    requires w.nodes[j].iAmTheLord == (j == top) || (e.Check? && e.i == j && GoodPeers(w.nodes[j], members, top))
    ensures |React(w, e, skew).nodes| == |members| && React(w, e, skew).nodes[j].iAmTheLord == (j == top)
  {
    hide React, NodeOk, Ranked, Settled, GoodPeers, GoodMsg, FromMembers;
    if e.i < |w.nodes| { ReactMoves(w, e, skew, members, top, t0); } else { NobodyMoves(w, e, skew); }
  }

  /** If an instance has heard every other member, it has noticed every one of its peers. */
  lemma HeardAll(w: World, heard: set<(nat, Who)>, members: seq<Who>, top: nat, t0: nat, j: nat)
    requires Group(w, members, top, t0) && j < |members| && Noticed(w, members, top, heard, j)
    requires forall i :: 0 <= i < |members| && i != j ==> (j, members[i]) in heard
    ensures GoodPeers(w.nodes[j], members, top)
  {
    var s := w.nodes[j];
    assert NodeOk(s, members, j);
    forall k | 0 <= k < |s.peers|
      ensures GoodPeer(s.peers[k], members, top)
    {
      NotOwnPeer(s, members, j, k);
      var i :| 0 <= i < |members| && members[i] == s.peers[k].who;
      assert (j, members[i]) in heard;
    }
  }

  /** From such a check on the instance knows whether it is lord. */
  lemma {:induction false} Decides(w: World, es: seq<Event>, skew: nat, members: seq<Who>, top: nat, t0: nat, old': set<Msg>, j: nat, k: nat)
    requires Group(w, members, top, t0) && Later(es, t0) && AllSettled(w, members, top) && GoodNet(w.net, old', members, top)
    requires DecidesAt(w, es, skew, old', members, j, k)
    ensures |Run(w, es, skew).nodes| == |members| && Run(w, es, skew).nodes[j].iAmTheLord == (j == top)
  {
    hide React, GoodPeers, Heard, AllSettled, GoodNet, Noticed;
    var before, e := es[..|es| - 1], es[|es| - 1];
    var v := Run(w, before, skew);
    AllNotice(w, before, skew, members, top, t0, old', j);
    if k == |es| - 1 {
      HeardAll(v, Heard(w, before, skew, old'), members, top, t0, j);
    } else {
      assert before[..k] == es[..k] && before[k] == es[k];
      Decides(w, before, skew, members, top, t0, old', j, k);
    }
    hide Group;
    ReactKeepsLord(v, e, skew, members, top, t0, j);
  }

  /** Exactly the greatest member is lord. */
  ghost predicate OneLord(w: World, members: seq<Who>, top: nat) {
    |w.nodes| == |members| && forall j :: 0 <= j < |members| ==> w.nodes[j].iAmTheLord == (j == top)
  }

  /** For ever after: no run, not even one that delivers old packets of members, changes who is lord. */
  lemma {:induction false} LordStays(w: World, es: seq<Event>, skew: nat, members: seq<Who>, top: nat, t0: nat)
    requires Group(w, members, top, t0) && Later(es, t0) && OneLord(w, members, top)
    ensures Group(Run(w, es, skew), members, top, t0) && OneLord(Run(w, es, skew), members, top)
  {
    hide React;
    if es != [] {
      var before, e := es[..|es| - 1], es[|es| - 1];
      LordStays(w, before, skew, members, top, t0);
      var v := Run(w, before, skew);
      ReactGroup(v, e, skew, members, top, t0);
      forall j | 0 <= j < |members|
        ensures |React(v, e, skew).nodes| == |members| && React(v, e, skew).nodes[j].iAmTheLord == (j == top)
      {
        hide Group;
        ReactKeepsLord(v, e, skew, members, top, t0, j);
      }
    }
  }

  /** Convergence.  A complete group whose greatest member is neither an arbiter nor suspended: (1) every instance
      checks; then, in any order and interleaved with any other steps, (2) every instance makes a check before which the last
      packet it took in from each other member was not a stale one - not one with a wrong vote from before the end of (1), as
      no packet sent since then is.  Then exactly the greatest member is lord, and stays it through every later run, even
      if packets `old` sent long before turn up. */
  lemma Converges(w: World, es1: seq<Event>, es2: seq<Event>, es3: seq<Event>, old': set<Msg>,
                  skew: nat, members: seq<Who>, top: nat, t0: nat)
    requires top < |members| && Group(w, members, top, t0) && Later(es1, t0) && Later(es2, t0) && Later(es3, t0)
    requires forall j :: 0 <= j < |members| ==> Checks(es1, j)
    requires var w1 := Run(w, es1, skew);
             forall j :: 0 <= j < |members| ==> Ready(w1, es2, skew, Stale(w1.net, members, top), members, j)
    requires FromMembers(old', members)
    ensures var w2 := Run(Run(w, es1, skew), es2, skew);
            (OneLord(w2, members, top) && OneLord(Run(w2.(net := w2.net + old'), es3, skew), members, top))
  {
    hide Group, Run, AllSettled, Checks, DecidesAt, Stale;
    var w1 := Run(w, es1, skew);
    var w2 := Run(w1, es2, skew);
    var stale := Stale(w1.net, members, top);
    StageSettle(w, es1, skew, members, top, t0);
    StaleRest(w1.net, members, top);
    RunGroup(w1, es2, skew, members, top, t0);
    forall j | 0 <= j < |members|
      ensures |w2.nodes| == |members| && w2.nodes[j].iAmTheLord == (j == top)
    {
      assert Ready(w1, es2, skew, stale, members, j);
      var k :| DecidesAt(w1, es2, skew, stale, members, j, k);
      Decides(w1, es2, skew, members, top, t0, stale, j, k);
    }
    GroupSize(w2, members, top, t0);
    WiderNet(w2, old', members, top, t0);
    LordStays(w2.(net := w2.net + old'), es3, skew, members, top, t0);
  }

  lemma GroupSize(w: World, members: seq<Who>, top: nat, t0: nat)
    requires Group(w, members, top, t0)
    ensures |w.nodes| == |members|
  {
  }

  lemma StaleRest(net: set<Msg>, members: seq<Who>, top: nat)
    requires top < |members|
    ensures GoodNet(net, Stale(net, members, top), members, top)
  {
  }

  lemma WiderNet(w: World, old': set<Msg>, members: seq<Who>, top: nat, t0: nat)
    requires Group(w, members, top, t0) && OneLord(w, members, top) && FromMembers(old', members)
    ensures var u := w.(net := w.net + old'); Group(u, members, top, t0) && OneLord(u, members, top)
  {
    hide NodeOk, Ranked;
  }

  lemma StageSettle(w: World, es: seq<Event>, skew: nat, members: seq<Who>, top: nat, t0: nat)
    requires Group(w, members, top, t0) && Later(es, t0) && forall j :: 0 <= j < |members| ==> Checks(es, j)
    ensures Group(Run(w, es, skew), members, top, t0) && AllSettled(Run(w, es, skew), members, top)
  {
    RunGroup(w, es, skew, members, top, t0);
    hide Run, NodeOk, Settled;
    forall j | 0 <= j < |members|
      ensures Settled(Run(w, es, skew).nodes[j], members, top)
    {
      AllSettle(w, es, skew, members, top, t0, j);
    }
  }
}
