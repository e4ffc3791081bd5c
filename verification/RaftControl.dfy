/** Changing the members of a raft group: _set_peer and _diff_peers of
    raft_control.cc. What passes their checks is a change of one member, for
    which old and new majorities always meet (Ongaro's Raft dissertation,
    section 4.1). */
module RaftControl {
  import opened Replies
  import opened Wrappers

  type Peer = string

  function Set(s: seq<Peer>): set<Peer> {
    set p | p in s
  }

  predicate NoDups(s: seq<Peer>) {
    forall i, j :: 0 <= i < j < |s| ==> s[i] != s[j]
  }

  // ---- counting

  lemma {:induction false} SetSize(s: seq<Peer>)
    ensures |Set(s)| <= |s|
    ensures |Set(s)| == |s| <==> NoDups(s)
    decreases |s|
  {
    if s != [] {
      var front, last := s[..|s| - 1], s[|s| - 1];
      SetSize(front);
      assert s == front + [last];
      assert Set(s) == Set(front) + {last};
      if last in front {
        assert Set(s) == Set(front);
        var i :| 0 <= i < |front| && front[i] == last;
        assert s[i] == s[|s| - 1];
      } else if NoDups(front) {
        assert forall i :: 0 <= i < |front| ==> front[i] in front;
      } else {
        var i, j :| 0 <= i < j < |front| && front[i] == front[j];
        assert s[i] == s[j];
      }
    }
  }

  lemma {:induction false} SubsetSize(a: set<Peer>, b: set<Peer>)
    requires a <= b
    ensures |a| <= |b| && (|a| == |b| ==> a == b)
    decreases a
  {
    if a != {} {
      var x :| x in a;
      SubsetSize(a - {x}, b - {x});
      if |a| == |b| {
        assert a == (a - {x}) + {x} && b == (b - {x}) + {x};
      }
    }
  }

  /** A vector as long as a duplicate-free one that it covers is that one in
      another order. */
  lemma SameLengthCover(live: seq<Peer>, listed: seq<Peer>)
    requires NoDups(live) && |live| == |listed| && Set(live) <= Set(listed)
    ensures NoDups(listed) && Set(listed) == Set(live)
  {
    SetSize(live);
    SetSize(listed);
    SubsetSize(Set(live), Set(listed));
  }

  // ---- _diff_peers

  /** big is one longer than small, covers it, and has exactly p beyond it. */
  predicate OneMore(small: seq<Peer>, big: seq<Peer>, p: Peer) {
    |big| == |small| + 1 && Set(small) <= Set(big) && Set(big) - Set(small) == {p}
  }

  /** Taking the vectors as sets, as braft::Configuration does, hides no
      duplicate: the change is by one member even so. */
  lemma OneMoreIsOneMember(small: seq<Peer>, big: seq<Peer>, p: Peer)
    requires NoDups(small)
    ensures OneMore(small, big, p) <==> NoDups(big) && p !in Set(small) && Set(big) == Set(small) + {p}
  {
    SetSize(small);
    SetSize(big);
    if OneMore(small, big, p) {
      assert Set(big) == Set(small) + {p} && |Set(big)| == |Set(small)| + 1;
    }
    if NoDups(big) && p !in Set(small) && Set(big) == Set(small) + {p} {
      assert |Set(big)| == |Set(small)| + 1;
    }
  }

  /** The same seen from the longer vector. */
  lemma OneLessIsOneMember(small: seq<Peer>, big: seq<Peer>, p: Peer)
    requires NoDups(big)
    ensures OneMore(small, big, p) <==> NoDups(small) && p in Set(big) && Set(small) == Set(big) - {p}
  {
    SetSize(small);
    SetSize(big);
    if OneMore(small, big, p) {
      assert Set(big) == Set(small) + {p} && p !in Set(small) && |Set(big)| == |Set(small)| + 1;
      assert Set(small) == Set(big) - {p};
    }
    if NoDups(small) && p in Set(big) && Set(small) == Set(big) - {p} {
      assert |Set(small)| == |Set(big)| - 1;
    }
  }

  /** The loop of remove_peer calls. */
  method RemoveAll(conf: set<Peer>, peers: seq<Peer>) returns (left: set<Peer>)
    ensures left == conf - Set(peers)
  {
    left := conf;
    for i := 0 to |peers|
      invariant left == conf - Set(peers[..i])
    {
      assert Set(peers[..i + 1]) == Set(peers[..i]) + {peers[i]};
      left := left - {peers[i]};
    }
    assert peers[..|peers|] == peers;
  }

  method Only(s: set<Peer>) returns (p: Option<Peer>)
    ensures p.Some? <==> |s| == 1
    ensures p.Some? ==> s == {p.value}
  {
    if |s| != 1 {
      return None;
    }
    var x :| x in s;
    SubsetSize({x}, s);
    p := Some(x);
  }

  /** None is the return value -1. */
  method DiffPeers(oldPeers: seq<Peer>, newPeers: seq<Peer>) returns (peer: Option<Peer>)
    ensures peer.Some? ==> OneMore(oldPeers, newPeers, peer.value) || OneMore(newPeers, oldPeers, peer.value)
    ensures forall p :: OneMore(oldPeers, newPeers, p) || OneMore(newPeers, oldPeers, p) ==> peer == Some(p)
  {
    if |oldPeers| == |newPeers| - 1 && Set(oldPeers) <= Set(newPeers) {
      var left := RemoveAll(Set(newPeers), oldPeers);
      peer := Only(left);
    } else if |oldPeers| == |newPeers| + 1 && Set(newPeers) <= Set(oldPeers) {
      var left := RemoveAll(Set(oldPeers), newPeers);
      peer := Only(left);
    } else {
      peer := None;
    }
  }

  // ---- _set_peer

  /** A peer of the request; None is one that does not parse. */
  type Asked = Option<Peer>

  predicate AllParse(s: seq<Asked>) {
    forall i :: 0 <= i < |s| ==> s[i].Some?
  }

  function Parsed(s: seq<Asked>): seq<Peer>
    requires AllParse(s)
  {
    seq(|s|, i requires 0 <= i < |s| => s[i].value)
  }

  /** What the node answers to list_peers. */
  datatype Listing = NoLeader | ListFail | Peers(peers: seq<Peer>)

  datatype Outcome =
    | Answer(code: Code, msg: string)
    | AddPeer(peer: Peer)
    | RemovePeer(peer: Peer)

  /** A follower and its consecutive errors. */
  type Followers = seq<(Peer, int)>

  /** A faulty member may always go; a healthy one only while no other is faulty. */
  predicate MayRemove(p: Peer, followers: Followers, factor: int) {
    || (exists i :: 0 <= i < |followers| && followers[i].0 == p && followers[i].1 > factor)
    || (forall i :: 0 <= i < |followers| && followers[i].0 != p ==> followers[i].1 <= factor)
  }

  /** The loop over the stable followers, left at the first fault of p itself. */
  method CheckFollowers(p: Peer, followers: Followers, factor: int) returns (may: bool)
    ensures may <==> MayRemove(p, followers, factor)
    ensures may <==>
              || (exists i :: 0 <= i < |followers| && followers[i].0 == p && followers[i].1 > factor)
              || !(exists i :: 0 <= i < |followers| && followers[i].0 != p && followers[i].1 > factor)
  {
    var selfFaulty, otherFaulty := false, false;
    var i := 0;
    while i < |followers| && !selfFaulty
      invariant 0 <= i <= |followers|
      invariant selfFaulty <==> exists k :: 0 <= k < i && followers[k].0 == p && followers[k].1 > factor
      invariant otherFaulty <==> exists k :: 0 <= k < i && followers[k].0 != p && followers[k].1 > factor
    {
      if followers[i].0 == p {
        if followers[i].1 > factor {
          selfFaulty := true;
        }
      } else if followers[i].1 > factor {
        otherFaulty := true;
      }
      i := i + 1;
    }
    may := selfFaulty || (!selfFaulty && !otherFaulty);
  }

  method ParsePeers(asked: seq<Asked>) returns (peers: seq<Peer>, ok: bool)
    ensures ok <==> AllParse(asked)
    ensures ok ==> peers == Parsed(asked)
  {
    peers := [];
    for i := 0 to |asked|
      invariant AllParse(asked[..i]) && peers == Parsed(asked[..i])
    {
      if asked[i].None? {
        return peers, false;
      }
      assert asked[..i + 1] == asked[..i] + [asked[i]];
      peers := peers + [asked[i].value];
    }
    assert asked[..|asked|] == asked;
    ok := true;
  }

  /** The request names the live configuration. */
  predicate NamesLive(live: Listing, oldPeers: seq<Peer>) {
    live.Peers? && |live.peers| == |oldPeers| && Set(live.peers) <= Set(oldPeers)
  }

  /** What reaches the node: a peer is added or removed exactly when the request
      names the live members, differs from them by one and, for a removal, the
      followers allow it. */
  method SetPeer(force: bool, oldAsked: seq<Asked>, newAsked: seq<Asked>, live: Listing, resetOk: bool,
                 followers: Followers, factor: int) returns (out: Outcome)
    ensures !AllParse(oldAsked) ==> out == Answer(InputParamError, "old peer parse fail")
    ensures AllParse(oldAsked) && !AllParse(newAsked) ==> out == Answer(InputParamError, "new peer parse fail")
    ensures AllParse(oldAsked) && AllParse(newAsked) && force ==>
              out == if resetOk then Answer(Success, "force set peer success") else Answer(InternalError, "force set peer fail")
    ensures AllParse(oldAsked) && AllParse(newAsked) && !force ==>
              var olds, news := Parsed(oldAsked), Parsed(newAsked);
              && (live.NoLeader? ==> out.Answer? && out.code == NotLeader)
              && (live.ListFail? ==> out == Answer(PeerNotEqual, "node list peer fail"))
              && (live.Peers? && |live.peers| != |olds| ==> out == Answer(PeerNotEqual, "peer size not equal"))
              && (live.Peers? && |live.peers| == |olds| && (exists p :: p in live.peers && p !in olds) ==>
                    out == Answer(PeerNotEqual, "peer not equal"))
              && (NamesLive(live, olds) ==>
                    && (forall p :: out == AddPeer(p) <==> OneMore(olds, news, p))
                    && (forall p :: out == RemovePeer(p) <==> OneMore(news, olds, p) && MayRemove(p, followers, factor))
                    && (out.Answer? ==> out.code == InputParamError))
  {
    var oldPeers, oldOk := ParsePeers(oldAsked);
    if !oldOk {
      return Answer(InputParamError, "old peer parse fail");
    }
    var newPeers, newOk := ParsePeers(newAsked);
    if !newOk {
      return Answer(InputParamError, "new peer parse fail");
    }
    if force {
      if !resetOk {
        return Answer(InternalError, "force set peer fail");
      }
      return Answer(Success, "force set peer success");
    }
    if live.NoLeader? {
      return Answer(NotLeader, "");
    }
    if live.ListFail? {
      return Answer(PeerNotEqual, "node list peer fail");
    }
    if |live.peers| != |oldPeers| {
      return Answer(PeerNotEqual, "peer size not equal");
    }
    for i := 0 to |live.peers|
      invariant forall k :: 0 <= k < i ==> live.peers[k] in oldPeers
    {
      if live.peers[i] !in oldPeers {
        assert live.peers[i] in Set(live.peers) && live.peers[i] !in Set(oldPeers);
        return Answer(PeerNotEqual, "peer not equal");
      }
    }
    out := ChangePeer(oldPeers, newPeers, followers, factor);
  }

  /** The branches of _set_peer that talk to the node. */
  method ChangePeer(oldPeers: seq<Peer>, newPeers: seq<Peer>, followers: Followers, factor: int) returns (out: Outcome)
    ensures forall p :: out == AddPeer(p) <==> OneMore(oldPeers, newPeers, p)
    ensures forall p :: out == RemovePeer(p) <==> OneMore(newPeers, oldPeers, p) && MayRemove(p, followers, factor)
    ensures out.Answer? ==>
              && out.code == InputParamError
              && out.msg == if |newPeers| == |oldPeers| + 1 then "diff peer fail when add peer"
                            else if |oldPeers| != |newPeers| + 1 then "set peer fail"
                            else if exists p :: OneMore(newPeers, oldPeers, p) then "other peer is faulty"
                            else "diff peer fail when remove peer"
  {
    if |newPeers| == |oldPeers| + 1 {
      var peer := DiffPeers(oldPeers, newPeers);
      if peer.Some? {
        out := AddPeer(peer.value);
      } else {
        out := Answer(InputParamError, "diff peer fail when add peer");
      }
    } else if |oldPeers| == |newPeers| + 1 {
      var peer := DiffPeers(oldPeers, newPeers);
      if peer.Some? {
        var may := CheckFollowers(peer.value, followers, factor);
        if may {
          out := RemovePeer(peer.value);
        } else {
          out := Answer(InputParamError, "other peer is faulty");
        }
      } else {
        out := Answer(InputParamError, "diff peer fail when remove peer");
      }
    } else {
      out := Answer(InputParamError, "set peer fail");
    }
  }

  // ---- majorities

  predicate Majority(q: set<Peer>, conf: set<Peer>) {
    q <= conf && 2 * |q| > |conf|
  }

  /** Two sets too large to fit side by side share a member. */
  lemma Pigeonhole(q: set<Peer>, r: set<Peer>, conf: set<Peer>)
    requires q <= conf && r <= conf && |q| + |r| > |conf|
    ensures q * r != {}
  {
    SubsetSize(q + r, conf);
    assert |q + r| + |q * r| == |q| + |r|;
  }

  lemma NeighboursMeet(small: set<Peer>, p: Peer)
    requires p !in small
    ensures forall q, r :: Majority(q, small) && Majority(r, small + {p}) ==> q * r != {}
  {
    assert |small + {p}| == |small| + 1;
    forall q, r | Majority(q, small) && Majority(r, small + {p}) ensures q * r != {} {
      Pigeonhole(q, r, small + {p});
    }
  }

  ghost predicate MajoritiesMeet(before: set<Peer>, after: set<Peer>) {
    forall q, r :: Majority(q, before) && Majority(r, after) ==> q * r != {}
  }

  /** An addition that was let through: the request lists the live members once
      each, the new vector is those and one more, and majorities before and after
      share a member. Nothing else is let through, and all of it is. */
  lemma AdditionIsSafe(live: seq<Peer>, olds: seq<Peer>, news: seq<Peer>, p: Peer)
    requires NoDups(live) && NamesLive(Peers(live), olds)
    ensures NoDups(olds) && Set(olds) == Set(live)
    ensures OneMore(olds, news, p) <==> NoDups(news) && p !in Set(live) && Set(news) == Set(live) + {p}
    ensures OneMore(olds, news, p) ==> MajoritiesMeet(Set(live), Set(news))
  {
    SameLengthCover(live, olds);
    OneMoreIsOneMember(olds, news, p);
    if OneMore(olds, news, p) {
      NeighboursMeet(Set(live), p);
    }
  }

  /** The same of a removal. */
  lemma RemovalIsSafe(live: seq<Peer>, olds: seq<Peer>, news: seq<Peer>, p: Peer)
    requires NoDups(live) && NamesLive(Peers(live), olds)
    ensures NoDups(olds) && Set(olds) == Set(live)
    ensures OneMore(news, olds, p) <==> NoDups(news) && p in Set(live) && Set(news) == Set(live) - {p}
    ensures OneMore(news, olds, p) ==> MajoritiesMeet(Set(live), Set(news))
  {
    SameLengthCover(live, olds);
    OneLessIsOneMember(news, olds, p);
    if OneMore(news, olds, p) {
      NeighboursMeet(Set(news), p);
      assert Set(news) + {p} == Set(live);
      forall q, r | Majority(q, Set(live)) && Majority(r, Set(news)) ensures q * r != {} {
        assert r * q != {} && r * q == q * r;
      }
    }
  }

  /** Changing two members at once, which the length checks shut out, can leave
      two majorities without a common member. */
  lemma TwoAtOnceIsNot(a: Peer, b: Peer, c: Peer)
    requires a != b && a != c && b != c
    ensures !MajoritiesMeet({a}, {a, b, c})
  {
    assert |{b, c}| == 2 && |{a, b, c}| == 3 && |{a}| == 1;
    assert Majority({a}, {a}) && Majority({b, c}, {a, b, c}) && {a} * {b, c} == {};
  }
}
