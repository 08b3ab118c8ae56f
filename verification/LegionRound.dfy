/** One round of the group: everybody checks, everybody announces, everybody hears everybody, everybody checks. */
module LegionRound {

  import opened Basics
  import opened LegionModel
  import opened LegionWorld

  function CheckAll(n: nat, now: nat): seq<Event> {
    seq(n, i requires 0 <= i < n => Check(i, now))
  }

  function TellAll(n: nat, now: nat): (es: seq<Event>)
    ensures |es| == n
  {
    if n == 0 then [] else TellAll(n - 1, now) + [Tell(n - 1, now)]
  }

  /** The announcement of a settled member. */
  ghost function Vote(members: seq<Who>, top: nat, i: nat, now: nat): Msg
    requires top < |members| && i < |members|
  {
    Msg(members[i], members[top].valor, members[top].uuid, GroupSum(members), now, false)
  }

  /** Instance `j` takes in the announcements of the first `c` members. */
  ghost function HearFrom(members: seq<Who>, top: nat, j: nat, c: nat, now: nat): seq<Event>
    requires top < |members| && c <= |members|
  {
    if c == 0 then [] else HearFrom(members, top, j, c - 1, now) + [Hear(j, Vote(members, top, c - 1, now), now)]
  }

  /** The first `n` instances take in all announcements. */
  ghost function HearAll(members: seq<Who>, top: nat, n: nat, now: nat): seq<Event>
    requires top < |members|
  {
    if n == 0 then [] else HearAll(members, top, n - 1, now) + HearFrom(members, top, n - 1, |members|, now)
  }

  ghost function Round(members: seq<Who>, top: nat, now: nat): seq<Event>
    requires top < |members|
  {
    TellAll(|members|, now) + HearAll(members, top, |members|, now)
  }

  /** No instance is suspended from `t0` on. */
  ghost predicate Awake(w: World, t0: nat) {
    forall i :: 0 <= i < |w.nodes| ==> w.nodes[i].suspendedTil < t0
  }

  lemma ReactAwake(w: World, e: Event, skew: nat, t0: nat)
    requires Awake(w, t0)
    ensures Awake(React(w, e, skew), t0) && w.net <= React(w, e, skew).net
  {
    if e.i < |w.nodes| {
      var s := w.nodes[e.i];
      hide Best, Checksum, Votes;
      match e
      case Check(i, now) =>
        var t := Step2(s, now, 0).0;
        assert t.suspendedTil == s.suspendedTil || t.suspendedTil == 0;
      case Tell(i, now) =>
      case Hear(i, m, now) => assert Receive(s, m, now, skew).suspendedTil == s.suspendedTil;
    }
  }

  lemma {:induction false} RunAwake(w: World, es: seq<Event>, skew: nat, t0: nat)
    requires Awake(w, t0)
    ensures Awake(Run(w, es, skew), t0)
  {
    hide React, Awake;
    if es != [] {
      RunAwake(w, es[..|es| - 1], skew, t0);
      ReactAwake(Run(w, es[..|es| - 1], skew), es[|es| - 1], skew, t0);
    }
  }

  /** Packets stay about. */
  lemma {:induction false} NetGrows(w: World, es: seq<Event>, k: nat, skew: nat, t0: nat)
    requires Awake(w, t0) && k <= |es|
    ensures Run(w, es[..k], skew).net <= Run(w, es, skew).net
  {
    hide React, Awake;
    var n := |es|;
    if k < n {
      NetGrows(w, es[..n - 1], k, skew, t0);
      assert es[..n - 1][..k] == es[..k];
      RunAwake(w, es[..n - 1], skew, t0);
      ReactAwake(Run(w, es[..n - 1], skew), es[n - 1], skew, t0);
    } else {
      assert es[..k] == es;
    }
  }

  /** None of the packets to be heard is one of the `old` ones. */
  ghost predicate NoneOld(es: seq<Event>, old': set<Msg>) {
    forall k :: 0 <= k < |es| && es[k].Hear? ==> es[k].m !in old'
  }

  /** What is taken in once is heard, with no old packets behind it. */
  lemma {:induction false} HeardIfSent(w: World, es: seq<Event>, k: nat, skew: nat, old': set<Msg>)
    requires k < |es| && es[k].Hear? && es[k].m in Run(w, es[..k], skew).net && es[k].m.unix + skew >= es[k].now
    requires NoneOld(es, old')
    ensures (es[k].i, es[k].m.who) in Heard(w, es, skew, old')
  {
    hide Run;
    var n := |es|;
    if k < n - 1 {
      assert es[..n - 1][..k] == es[..k] && es[..n - 1][k] == es[k];
      HeardIfSent(w, es[..n - 1], k, skew, old');
    }
  }

  lemma AnnounceVote(s: State, members: seq<Who>, top: nat, i: nat, now: nat)
    requires top < |members| && i < |members| && NodeOk(s, members, i) && Settled(s, members, top) && s.suspendedTil < now
    ensures Announce(s, now).1 == Some(Vote(members, top, i, now))
  {
  }

  /** After everybody has announced, everybody's vote is about. */
  lemma {:induction false} TellsSend(w: World, n: nat, skew: nat, members: seq<Who>, top: nat, t0: nat, now: nat)
    requires Group(w, members, top, t0) && AllSettled(w, members, top) && Awake(w, t0) && now >= t0 && n <= |members|
    ensures var u := Run(w, TellAll(n, now), skew);
            (Group(u, members, top, t0) && AllSettled(u, members, top) &&
             forall i :: 0 <= i < n ==> Vote(members, top, i, now) in u.net)
  {
    if n > 0 {
      var es, e := TellAll(n - 1, now), Tell(n - 1, now);
      assert TellAll(n, now)[..n - 1] == es;
      TellsSend(w, n - 1, skew, members, top, t0, now);
      RunAwake(w, es, skew, t0);
      var b := Run(w, es, skew);
      AnnounceVote(b.nodes[n - 1], members, top, n - 1, now);
      ReactGroup(b, e, skew, members, top, t0);
      ReactAwake(b, e, skew, t0);
      OneMoreVote(b, n - 1, skew, members, top, now);
      hide Group, NodeOk, React, Settled, Vote;
      forall j | 0 <= j < |members|
        ensures |React(b, e, skew).nodes| == |members| && Settled(React(b, e, skew).nodes[j], members, top)
      {
        ReactSettles(b, e, skew, members, top, t0, j);
      }
      assert |React(b, e, skew).nodes| == |members|;
    }
  }

  lemma OneMoreVote(w: World, i: nat, skew: nat, members: seq<Who>, top: nat, now: nat)
    requires top < |members| && i < |members| && i < |w.nodes| && Announce(w.nodes[i], now).1 == Some(Vote(members, top, i, now))
    ensures Vote(members, top, i, now) in React(w, Tell(i, now), skew).net
  {
  }

  lemma {:induction false} HearFromHas(members: seq<Who>, top: nat, j: nat, c: nat, i: nat, now: nat)
    requires top < |members| && i < c <= |members|
    ensures Hear(j, Vote(members, top, i, now), now) in HearFrom(members, top, j, c, now)
  {
    if i < c - 1 { HearFromHas(members, top, j, c - 1, i, now); }
  }

  lemma {:induction false} HearAllHas(members: seq<Who>, top: nat, n: nat, i: nat, j: nat, now: nat)
    requires top < |members| && i < |members| && j < n
    ensures Hear(j, Vote(members, top, i, now), now) in HearAll(members, top, n, now)
  {
    hide HearFrom, Vote;
    var e, a, b := Hear(j, Vote(members, top, i, now), now), HearAll(members, top, n - 1, now), HearFrom(members, top, n - 1, |members|, now);
    if j < n - 1 {
      HearAllHas(members, top, n - 1, i, j, now);
    } else {
      HearFromHas(members, top, j, |members|, i, now);
    }
    InEither(e, a, b);
  }

  lemma InEither(e: Event, a: seq<Event>, b: seq<Event>)
    requires e in a || e in b
    ensures e in a + b
  {
  }

  lemma {:induction false} HearsLater(members: seq<Who>, top: nat, n: nat, now: nat, t0: nat)
    requires top < |members| && now >= t0
    ensures Later(HearAll(members, top, n, now), t0)
  {
    if n > 0 {
      HearsLater(members, top, n - 1, now, t0);
      HearsFromLater(members, top, n - 1, |members|, now, t0);
    }
  }

  lemma {:induction false} HearsFromLater(members: seq<Who>, top: nat, j: nat, c: nat, now: nat, t0: nat)
    requires top < |members| && now >= t0 && c <= |members|
    ensures Later(HearFrom(members, top, j, c, now), t0)
  {
    if c > 0 { HearsFromLater(members, top, j, c - 1, now, t0); }
  }

  lemma {:induction false} TellsLater(n: nat, now: nat, t0: nat)
    requires now >= t0
    ensures Later(TellAll(n, now), t0)
  {
    if n > 0 { TellsLater(n - 1, now, t0); }
  }

  lemma VoteIsGood(net: set<Msg>, members: seq<Who>, top: nat, i: nat, now: nat)
    requires top < |members| && i < |members|
    ensures Vote(members, top, i, now) !in Stale(net, members, top)
  {
  }

  lemma {:induction false} HearFromVotes(members: seq<Who>, top: nat, j: nat, c: nat, now: nat, old': set<Msg>)
    requires top < |members| && c <= |members| && forall i :: 0 <= i < |members| ==> Vote(members, top, i, now) !in old'
    ensures NoneOld(HearFrom(members, top, j, c, now), old')
  {
    hide Vote;
    if c > 0 { HearFromVotes(members, top, j, c - 1, now, old'); }
  }

  lemma {:induction false} HearAllVotes(members: seq<Who>, top: nat, n: nat, now: nat, old': set<Msg>)
    requires top < |members| && forall i :: 0 <= i < |members| ==> Vote(members, top, i, now) !in old'
    ensures NoneOld(HearAll(members, top, n, now), old')
  {
    hide Vote, HearFrom;
    if n > 0 {
      HearAllVotes(members, top, n - 1, now, old');
      HearFromVotes(members, top, n - 1, |members|, now, old');
    }
  }

  lemma {:induction false} TellAllVotes(n: nat, now: nat, old': set<Msg>)
    ensures NoneOld(TellAll(n, now), old')
  {
    if n > 0 { TellAllVotes(n - 1, now, old'); }
  }

  /** Only votes are heard in the round. */
  lemma RoundNoneOld(members: seq<Who>, top: nat, now: nat, net: set<Msg>, c: nat)
    requires top < |members|
    ensures NoneOld(Round(members, top, now) + CheckAll(c, now), Stale(net, members, top))
  {
    var old' := Stale(net, members, top);
    forall i | 0 <= i < |members|
      ensures Vote(members, top, i, now) !in old'
    {
      VoteIsGood(net, members, top, i, now);
    }
    hide Stale, HearAll, Vote;
    TellAllVotes(|members|, now, old');
    HearAllVotes(members, top, |members|, now, old');
  }

  /** In the round everybody hears everybody; `after` are more steps that hear nothing old. */
  lemma RoundHeard(w: World, skew: nat, members: seq<Who>, top: nat, t0: nat, now: nat, i: nat, j: nat, after: seq<Event>, old': set<Msg>)
    requires Group(w, members, top, t0) && AllSettled(w, members, top) && Awake(w, t0) && now >= t0
    requires top < |members| && i < |members| && j < |members| && NoneOld(Round(members, top, now) + after, old')
    ensures (j, members[i]) in Heard(w, Round(members, top, now) + after, skew, old')
  {
    hide Group, AllSettled, Awake, Run, Heard, HearAll;
    var n, es, hs := |members|, Round(members, top, now) + after, HearAll(members, top, |members|, now);
    HearAllHas(members, top, n, i, j, now);
    var k :| 0 <= k < |hs| && hs[k] == Hear(j, Vote(members, top, i, now), now);
    assert es[n + k] == hs[k];
    TellsSend(w, n, skew, members, top, t0, now);
    assert es[..n + k][..n] == TellAll(n, now);
    NetGrows(w, es[..n + k], n, skew, t0);
    HeardIfSent(w, es, n + k, skew, old');
  }

  lemma CheckAllChecks(n: nat, now: nat, j: nat)
    requires j < n
    ensures Checks(CheckAll(n, now), j)
  {
    assert CheckAll(n, now)[j] == Check(j, now);
  }

  /** The check of `j` behind the round decides. */
  lemma RoundReady(w: World, skew: nat, members: seq<Who>, top: nat, t0: nat, now: nat, j: nat)
    requires Group(w, members, top, t0) && AllSettled(w, members, top) && Awake(w, t0) && now >= t0
    requires top < |members| && j < |members|
    ensures Ready(w, Round(members, top, now) + CheckAll(|members|, now), skew, Stale(w.net, members, top), members, j)
  {
    hide Group, AllSettled, Awake, Run, Heard, Stale, Round;
    var r, cs, old' := Round(members, top, now), CheckAll(|members|, now), Stale(w.net, members, top);
    var es, k := r + cs, |r| + j;
    assert es[k] == cs[j] && cs[..j] == CheckAll(j, now) && es[..k] == r + cs[..j];
    RoundNoneOld(members, top, now, w.net, j);
    forall i | 0 <= i < |members|
      ensures (j, members[i]) in Heard(w, es[..k], skew, old')
    {
      RoundHeard(w, skew, members, top, t0, now, i, j, CheckAll(j, now), old');
    }
    assert DecidesAt(w, es, skew, old', members, j, k);
  }

  /** Everybody checks; everybody announces and hears everybody, whatever stale packets are about; everybody checks again:
      exactly the greatest member is lord, and stays it through every later run. */
  lemma RoundElects(w: World, later: seq<Event>, skew: nat, members: seq<Who>, top: nat, t0: nat, now: nat)
    requires top < |members| && Group(w, members, top, t0) && Awake(w, t0) && now >= t0 && Later(later, t0)
    ensures var n := |members|;
            var w2 := Run(Run(w, CheckAll(n, now), skew), Round(members, top, now) + CheckAll(n, now), skew);
            (OneLord(w2, members, top) && OneLord(Run(w2, later, skew), members, top))
  {
    hide Awake, Run, Heard, HearAll, Checks, NodeOk, OneLord, AllSettled, Ranked, Ready, Stale;
    var n, cs := |members|, CheckAll(|members|, now);
    var w1 := Run(w, cs, skew);
    forall j | 0 <= j < n
      ensures Checks(cs, j)
    {
      CheckAllChecks(n, now, j);
    }
    StageSettle(w, cs, skew, members, top, t0);
    RunAwake(w, cs, skew, t0);
    TellsLater(n, now, t0);
    HearsLater(members, top, n, now, t0);
    hide Group;
    forall j | 0 <= j < n
      ensures Ready(w1, Round(members, top, now) + cs, skew, Stale(w1.net, members, top), members, j)
    {
      RoundReady(w1, skew, members, top, t0, now, j);
    }
    var w2 := Run(w1, Round(members, top, now) + cs, skew);
    assert w2.net + {} == w2.net;
    NobodyOld(members);
    Converges(w, cs, Round(members, top, now) + cs, later, {}, skew, members, top, t0);
  }

  lemma NobodyOld(members: seq<Who>)
    ensures FromMembers({}, members)
  {
  }
}
