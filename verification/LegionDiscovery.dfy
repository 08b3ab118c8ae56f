/** Runs of a group from scratch: nobody becomes lord without a quorum, and instances that start with empty lists and hear
    each other become the complete group from which exactly one lord is elected. */
module LegionDiscovery {
  import opened Basics
  import opened LegionModel
  import opened LegionWorld
  import opened LegionSteps

  // ---- no lord without a quorum -----------------------------------------------------------------

  /** Only a check with a quorum makes its own instance lord, and only if it stands. */
  lemma BecomesLord(w: World, e: Event, skew: nat, j: nat)
    requires j < |w.nodes| && !w.nodes[j].iAmTheLord && React(w, e, skew).nodes[j].iAmTheLord
    ensures e.Check? && e.i == j && Quorate(w.nodes[j], e.now) && Stands(w.nodes[j], e.now)
  {
    hide Quorate, Stands, Step2;
    if e.Check? && e.i == j { LordIff(w.nodes[j], e.now, 0); }
  }

  lemma ReactSize(w: World, e: Event, skew: nat)
    ensures |React(w, e, skew).nodes| == |w.nodes|
  {
    hide Step2, Announce, Receive;
  }

  lemma {:induction false} RunSize(w: World, es: seq<Event>, skew: nat)
    ensures |Run(w, es, skew).nodes| == |w.nodes|
  {
    hide React;
    if es != [] {
      RunSize(w, es[..|es| - 1], skew);
      ReactSize(Run(w, es[..|es| - 1], skew), es[|es| - 1], skew);
    }
  }

  /** Event `k` of the run is a check of `j` that has a quorum and in which `j` stands. */
  ghost predicate RaisedAt(w: World, es: seq<Event>, skew: nat, j: nat, k: int) {
    && 0 <= k < |es| && es[k].Check? && es[k].i == j
    && var v := Run(w, es[..k], skew); j < |v.nodes| && Quorate(v.nodes[j], es[k].now) && Stands(v.nodes[j], es[k].now)
  }

  /** From any group and any packets, in every run: whoever is lord and was not at the start has since made a check at which
      it stood, and at which its peers all agreed with it and were, with itself, at least its quorum. */
  lemma {:induction false} LordHadQuorum(w: World, es: seq<Event>, skew: nat, j: nat)
    requires j < |w.nodes| && !w.nodes[j].iAmTheLord
    ensures var u := Run(w, es, skew);
            j < |u.nodes| && (u.nodes[j].iAmTheLord ==> exists k :: RaisedAt(w, es, skew, j, k))
  {
    hide React, Quorate, Stands;
    RunSize(w, es, skew);
    if es != [] && Run(w, es, skew).nodes[j].iAmTheLord {
      var before, e := es[..|es| - 1], es[|es| - 1];
      RunSize(w, before, skew);
      LordHadQuorum(w, before, skew, j);
      if Run(w, before, skew).nodes[j].iAmTheLord {
        var k :| RaisedAt(w, before, skew, j, k);
        assert before[..k] == es[..k];
        assert RaisedAt(w, es, skew, j, k);
      } else {
        BecomesLord(Run(w, before, skew), e, skew, j);
        assert RaisedAt(w, es, skew, j, |es| - 1);
      }
    }
  }

  /** The list of `j` is too short for its quorum at every moment of the run. */
  ghost predicate AlwaysTooFew(w: World, es: seq<Event>, skew: nat, j: nat) {
    forall k :: 0 <= k <= |es| ==> TooFew(Run(w, es[..k], skew), j)
  }

  ghost predicate TooFew(w: World, j: nat) {
    j < |w.nodes| && 1 + |w.nodes[j].peers| < w.nodes[j].quorum
  }

  /** An instance that never knows enough others never becomes lord. */
  lemma CutOffNeverLord(w: World, es: seq<Event>, skew: nat, j: nat)
    requires j < |w.nodes| && !w.nodes[j].iAmTheLord && AlwaysTooFew(w, es, skew, j)
    ensures j < |Run(w, es, skew).nodes| && !Run(w, es, skew).nodes[j].iAmTheLord
  {
    hide Run, Unanimous, Stands, React;
    LordHadQuorum(w, es, skew, j);
  }

  // ---- from empty lists to a complete group -----------------------------------------------------

  /** Instance `i` knows some other members, each once. */
  ghost predicate Partial(s: State, members: seq<Who>, i: nat)
    requires i < |members|
  {
    && s.me == members[i] && s.quorum <= |members| && !s.dead
    && DistinctPeers(s.peers) && forall p :: p in s.peers ==> p.who in members && p.who != s.me
  }

  /** Every instance of a group that is only forming. */
  ghost predicate Forming(w: World, members: seq<Who>) {
    && |w.nodes| == |members| && FromMembers(w.net, members)
    && (forall i :: 0 <= i < |members| ==> Partial(w.nodes[i], members, i))
  }

  ghost predicate AllListable(members: seq<Who>) {
    forall i :: 0 <= i < |members| ==> Listable(members[i])
  }

  /** The peer with that identity is listed. */
  ghost predicate Knows(s: State, x: Who) {
    exists p :: p in s.peers && p.who == x
  }

  lemma ReceivePartial(s: State, members: seq<Who>, i: nat, m: Msg, now: nat, skew: nat)
    requires i < |members| && Partial(s, members, i) && AllListable(members) && m.who in members && !m.dead
    ensures var t := Receive(s, m, now, skew);
            Partial(t, members, i) && t.suspendedTil == s.suspendedTil
    ensures var t := Receive(s, m, now, skew);
            forall x :: Knows(s, x) ==> Knows(t, x)
    ensures m.who != s.me && m.unix + skew >= now ==> Knows(Receive(s, m, now, skew), m.who)
  {
    hide DistinctPeers, Receive;
    ReceiveMeans(s, m, now, skew);
    var t := Receive(s, m, now, skew);
    if m.who != s.me && m.unix + skew >= now {
      assert AsPeer(m, now) in t.peers;
      forall x | Knows(s, x)
        ensures Knows(t, x)
      {
        var p :| p in s.peers && p.who == x;
        assert x != m.who ==> p in t.peers;
      }
    }
  }

  /** A check or an announcement leaves the list alone and says nothing of anybody else. */
  lemma OwnPartial(s: State, members: seq<Who>, i: nat, now: nat, t: State, m: Option<Msg>)
    requires i < |members| && Partial(s, members, i) && ((t, m) == Step2(s, now, 0) || (t, m) == Announce(s, now))
    ensures Partial(t, members, i) && t.peers == s.peers && t.suspendedTil <= s.suspendedTil
    ensures m.Some? ==> m.value.who in members && !m.value.dead
  {
    hide Best, Checksum, Votes, DistinctPeers;
  }

  /** What one event makes of instance `j`. */
  ghost predicate Grows(s: State, t: State, w: World, e: Event, skew: nat, j: nat) {
    && t.suspendedTil <= s.suspendedTil && (forall x :: Knows(s, x) ==> Knows(t, x))
    && (e.i == j && TakenIn(w, e, skew) && e.m.who != s.me ==> Knows(t, e.m.who))
  }

  lemma ReactForming(w: World, e: Event, skew: nat, members: seq<Who>)
    requires Forming(w, members) && AllListable(members)
    ensures Forming(React(w, e, skew), members)
    ensures forall j :: 0 <= j < |members| ==> Grows(w.nodes[j], React(w, e, skew).nodes[j], w, e, skew, j)
  {
    hide Step2, Announce, Receive, Partial;
    if e.i < |members| {
      var s := w.nodes[e.i];
      assert Partial(s, members, e.i);
      match e
      case Check(i, now) => OwnPartial(s, members, i, now, Step2(s, now, 0).0, Step2(s, now, 0).1);
      case Tell(i, now) => OwnPartial(s, members, i, now, Announce(s, now).0, Announce(s, now).1);
      case Hear(i, m, now) => if m in w.net { ReceivePartial(s, members, i, m, now, skew); }
    }
  }

  lemma {:induction false} RunForming(w: World, es: seq<Event>, skew: nat, members: seq<Who>, j: nat)
    requires Forming(w, members) && AllListable(members) && j < |members|
    ensures Forming(Run(w, es, skew), members) && Run(w, es, skew).nodes[j].suspendedTil <= w.nodes[j].suspendedTil
  {
    hide React, Partial;
    if es != [] {
      RunForming(w, es[..|es| - 1], skew, members, j);
      var v := Run(w, es[..|es| - 1], skew);
      ReactForming(v, es[|es| - 1], skew, members);
      assert Grows(v.nodes[j], React(v, es[|es| - 1], skew).nodes[j], v, es[|es| - 1], skew, j);
    }
  }

  /** Event `k` is instance `j` taking in a packet of `x`. */
  ghost predicate TakesIn(w: World, es: seq<Event>, skew: nat, j: nat, x: Who, k: int) {
    0 <= k < |es| && es[k].i == j && TakenIn(Run(w, es[..k], skew), es[k], skew) && es[k].m.who == x
  }

  /** Whom an instance has heard once it knows. */
  lemma {:induction false} HeardKnown(w: World, es: seq<Event>, skew: nat, members: seq<Who>, j: nat, x: Who, k: int)
    requires Forming(w, members) && AllListable(members) && j < |members| && x != members[j] && TakesIn(w, es, skew, j, x, k)
    ensures |Run(w, es, skew).nodes| == |members| && Knows(Run(w, es, skew).nodes[j], x)
  {
    hide React, Knows, DistinctPeers;
    var before, e := es[..|es| - 1], es[|es| - 1];
    var v := Run(w, before, skew);
    RunForming(w, before, skew, members, j);
    assert Partial(v.nodes[j], members, j);
    ReactForming(v, e, skew, members);
    assert Grows(v.nodes[j], React(v, e, skew).nodes[j], v, e, skew, j);
    if k < |es| - 1 {
      assert before[..k] == es[..k] && before[k] == es[k];
      HeardKnown(w, before, skew, members, j, x, k);
    }
  }

  /** Sequences without repetition that hold the same are permutations of each other. */
  lemma SameSets(a: seq<Who>, b: seq<Who>)
    requires forall i, j :: 0 <= i < j < |a| ==> a[i] != a[j]
    requires forall i, j :: 0 <= i < j < |b| ==> b[i] != b[j]
    requires forall x :: x in a <==> x in b
    ensures multiset(a) == multiset(b)
  {
    forall x
      ensures multiset(a)[x] == multiset(b)[x]
    {
      CountOne(a, x);
      CountOne(b, x);
      assert x in a <==> x in multiset(a);
      assert x in b <==> x in multiset(b);
    }
  }

  /** An instance that knows every other member is one of a complete group. */
  lemma KnowsAll(s: State, members: seq<Who>, i: nat)
    requires i < |members| && Partial(s, members, i)
    requires forall a, b :: 0 <= a < b < |members| ==> members[a] != members[b]
    requires forall j :: 0 <= j < |members| && j != i ==> Knows(s, members[j])
    ensures NodeOk(s, members, i)
  {
    var l := Whos(s.peers) + [s.me];
    forall k | 0 <= k < |s.peers|
      ensures l[k] in members && l[k] != s.me
    {
      assert s.peers[k] in s.peers;
    }
    forall x | x in members
      ensures x in l
    {
      var j :| 0 <= j < |members| && members[j] == x;
      if j == i {
        assert l[|s.peers|] == x;
      } else {
        var p :| p in s.peers && p.who == x;
        var k :| 0 <= k < |s.peers| && s.peers[k] == p;
        assert l[k] == x;
      }
    }
    SameSets(l, members);
  }

  /** Instance `j` has taken in a packet of every other member. */
  ghost predicate HasMet(w: World, es: seq<Event>, skew: nat, members: seq<Who>, j: nat)
    requires j < |members|
  {
    forall i :: 0 <= i < |members| && i != j ==> exists k :: TakesIn(w, es, skew, j, members[i], k)
  }

  /** Discovery: from instances with empty lists - or any that know only some members - once each has taken in a
      packet of every other member, at any time and in any order, every one knows exactly the group. */
  lemma GroupForms(w: World, es: seq<Event>, skew: nat, members: seq<Who>, top: nat, t0: nat)
    requires Forming(w, members) && AllListable(members) && Ranked(members, top) && w.nodes[top].suspendedTil < t0
    requires forall j :: 0 <= j < |members| ==> HasMet(w, es, skew, members, j)
    ensures Group(Run(w, es, skew), members, top, t0)
  {
    hide Run, Partial, Beats, Knows, NodeOk, TakesIn;
    RunForming(w, es, skew, members, top);
    var u := Run(w, es, skew);
    forall j | 0 <= j < |members|
      ensures NodeOk(u.nodes[j], members, j)
    {
      forall i | 0 <= i < |members| && i != j
        ensures Knows(u.nodes[j], members[i])
      {
        assert HasMet(w, es, skew, members, j);
        var k :| TakesIn(w, es, skew, j, members[i], k);
        assert members[i] != members[j];
        HeardKnown(w, es, skew, members, j, members[i], k);
      }
      KnowsAll(u.nodes[j], members, j);
    }
  }

  /** Instances just started, with empty lists, and nothing sent yet. */
  function Started(members: seq<Who>, quorum: int): World {
    World(seq(|members|, i requires 0 <= i < |members| =>
                State(members[i], quorum, [], 0, NO_UUID, 0, false, false, false, false, 0, 0)), {})
  }

  lemma StartedForming(members: seq<Who>, quorum: int)
    requires quorum <= |members|
    ensures Forming(Started(members, quorum), members)
  {
  }

  /** The whole election: members that start knowing nobody, and hear each other (es0), check (es1) and decide on votes that are not
      stale (es2), end up with exactly the greatest of them as lord, for ever after (es3). */
  lemma ElectedFromNothing(members: seq<Who>, quorum: int, es0: seq<Event>, es1: seq<Event>, es2: seq<Event>, es3: seq<Event>,
                           skew: nat, top: nat)
    requires AllListable(members) && Ranked(members, top) && quorum <= |members| && Later(es1, 1) && Later(es2, 1) && Later(es3, 1)
    requires forall j :: 0 <= j < |members| ==> HasMet(Started(members, quorum), es0, skew, members, j)
    requires forall j :: 0 <= j < |members| ==> Checks(es1, j)
    requires var w1 := Run(Run(Started(members, quorum), es0, skew), es1, skew);
             forall j :: 0 <= j < |members| ==> LegionWorld.Ready(w1, es2, skew, Stale(w1.net, members, top), members, j)
    ensures var w2 := Run(Run(Run(Started(members, quorum), es0, skew), es1, skew), es2, skew);
            OneLord(w2, members, top) && OneLord(Run(w2, es3, skew), members, top)
  {
    hide Run, Checks, LegionWorld.Ready, Stale, HasMet, Group, Ranked, OneLord;
    RankedTop(members, top);
    var w := Started(members, quorum);
    StartedForming(members, quorum);
    assert w.nodes[top].suspendedTil == 0;
    GroupForms(w, es0, skew, members, top, 1);
    Converges(Run(w, es0, skew), es1, es2, es3, {}, skew, members, top, 1);
    var w2 := Run(Run(Run(w, es0, skew), es1, skew), es2, skew);
    assert w2.(net := w2.net + {}) == w2;
  }

  lemma RankedTop(members: seq<Who>, top: nat)
    requires Ranked(members, top)
    ensures top < |members|
  {
  }
}
