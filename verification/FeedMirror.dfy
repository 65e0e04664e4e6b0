/** Every store history in which follows come before the followee's videos is matched by a run of the
    feed machine: what the refinement assumes about the two contents can always be met. */
module FeedMirror {
  import opened Collections
  import opened FeedRefinement
  import opened FeedWrites
  import ST = Store

  /** A follow adds no edge to somebody who has published, and an unfollow removes none. */
  predicate Fits(d: ST.Data, op: ST.Op) {
    match op
    case Follow(a, b) =>
      a in ST.SetOf(d.followers, b) || forall v | v in d.videos :: d.videos[v].authorID != b
    case Unfollow(a, b) => a !in ST.SetOf(d.followers, b)
    case _ => true
  }

  predicate FollowsFirst(ops: seq<ST.Op>) {
    forall k | 0 <= k < |ops| :: Fits(ST.Run(ST.EMPTY, ops[..k]), ops[k])
  }

  /** The machine's state s shows the store d, with everything pushed; publish times are the IDs. */
  ghost predicate Mirrors(s: System, d: ST.Data) {
    && SameContent(s, d) && Settled(s)
    && forall v | v in s.videos :: s.videos[v].ts == v
  }

  lemma {:induction false} RunFrom(s: System, steps: seq<Step>, more: seq<Step>)
    ensures Run(s, steps + more) == Run(Run(s, steps), more)
  {
    if more == [] {
      assert steps + more == steps;
    } else {
      var init := more[..|more| - 1];
      RunFrom(s, steps, init);
      assert (steps + more)[..|steps + more| - 1] == steps + init;
    }
  }

  lemma {:induction false} Listed(users: set<int>) returns (list: seq<int>)
    ensures forall i | 0 <= i < |list| :: list[i] in users
    ensures forall u | u in users :: u in list
    decreases |users|
  {
    if users == {} {
      list := [];
    } else {
      var u := AnyElement(users);
      var rest := Listed(users - {u});
      list := rest + [u];
    }
  }

  /** Operations that publish nothing and change no edge. */
  lemma MirrorSame(s: System, d: ST.Data, op: ST.Op)
    requires ST.Inv(d) && Mirrors(s, d)
    requires !op.CreateVideo? && !op.Follow? && !op.Unfollow?
    ensures Mirrors(s, ST.Apply(d, op))
  {
    OthersKeep(d, op);
  }

  lemma OthersKeep(d: ST.Data, op: ST.Op)
    requires !op.CreateVideo? && !op.Follow? && !op.Unfollow?
    ensures var d' := ST.Apply(d, op);
            && d'.following == d.following
            && (forall v :: v in d'.videos <==> v in d.videos)
            && (forall v | v in d.videos :: d'.videos[v].authorID == d.videos[v].authorID)
  {
  }

  lemma MirrorUnfollow(s: System, d: ST.Data, a: int, b: int)
    requires ST.Inv(d) && Mirrors(s, d) && a !in ST.SetOf(d.followers, b)
    ensures Mirrors(s, ST.Apply(d, ST.Op.Unfollow(a, b)))
  {
    assert !ST.Linked(d.followers, b, a);
    assert !ST.Linked(d.following, a, b);
  }

  lemma FollowedMirrors(s: System, d: ST.Data, a: int, b: int)
    requires ST.Inv(d) && Mirrors(s, d) && a != b && a in d.users && b in d.users
    requires forall v | v in d.videos :: d.videos[v].authorID != b
    ensures Mirrors(s.(following := s.following + {(a, b)}), ST.Apply(d, ST.Op.Follow(a, b)))
  {
    var d' := ST.Apply(d, ST.Op.Follow(a, b));
    ST.LinkChange(d.following, a, ST.SetOf(d.following, a) + {b});
    forall u, x
      ensures x in ST.SetOf(d'.following, u) <==> (u, x) in s.following + {(a, b)}
    {
      assert ST.Linked(d'.following, u, x) <==> ST.Linked(d.following, u, x) || (u == a && x == b);
    }
  }

  lemma MirrorFollow(s: System, d: ST.Data, a: int, b: int) returns (more: seq<Step>)
    requires ST.Inv(d) && Mirrors(s, d) && Fits(d, ST.Op.Follow(a, b))
    ensures Mirrors(Run(s, more), ST.Apply(d, ST.Op.Follow(a, b)))
  {
    if a == b || a !in d.users || b !in d.users {
      more := [];
    } else if a in ST.SetOf(d.followers, b) {
      more := [];
      FollowedTwice(s, d, a, b);
    } else {
      more := [] + [Step.Follow(a, b)];
      RunNext(s, [], Step.Follow(a, b));
      FollowedMirrors(s, d, a, b);
      forall v | v in s.videos
        ensures s.videos[v].author != b
      {
        assert v in d.videos;
      }
    }
  }

  lemma FollowedTwice(s: System, d: ST.Data, a: int, b: int)
    requires ST.Inv(d) && Mirrors(s, d) && a in ST.SetOf(d.followers, b)
    ensures Mirrors(s, ST.Apply(d, ST.Op.Follow(a, b)))
  {
    assert ST.Linked(d.followers, b, a);
    assert ST.Linked(d.following, a, b);
  }

  /** The pushes of a video to all its followers. */
  lemma PushAll(s: System, vid: int, followers: set<int>) returns (more: seq<Step>)
    requires vid in s.videos && vid in s.appended
    requires forall u | u in followers :: (u, s.videos[vid].author) in s.following
    requires forall u | (u, s.videos[vid].author) in s.following :: u in followers
    ensures var t := Run(s, more);
            && t.videos == s.videos && t.following == s.following
            && s.appended <= t.appended && s.delivered <= t.delivered && VideoSettled(t, vid)
  {
    var list := Listed(followers);
    forall i | 0 <= i < |list|
      ensures (list[i], s.videos[vid].author) in s.following
    {
      var u := list[i];
      assert u in followers;
      assert (u, s.videos[vid].author) in s.following;
    }
    PushRun(s, list, vid);
    AllPushed(s, list, vid);
    more := PushSteps(list, vid);
  }

  lemma CreateAppend(s: System, vid: int, author: int) returns (steps: seq<Step>)
    requires vid > 0 && forall v | v in s.videos :: v < vid && s.videos[v].ts < vid
    ensures var t := Run(s, steps);
            && t.videos == s.videos[vid := Video(author, vid)] && t.following == s.following
            && t.appended == s.appended + {vid} && t.delivered == s.delivered
  {
    RunNext(s, [], Create(vid, author, vid));
    RunNext(s, [] + [Create(vid, author, vid)], Append(vid));
    steps := [] + [Create(vid, author, vid)] + [Append(vid)];
  }

  /** The machine's steps for a new video: created, appended, pushed to every follower. */
  lemma MirrorCreate(s: System, d: ST.Data, author: int) returns (more: seq<Step>)
    requires ST.Inv(d) && Mirrors(s, d) && author in d.users
    ensures Mirrors(Run(s, more), ST.Apply(d, ST.Op.CreateVideo(author, true)))
  {
    var vid := d.videoSeq + 1;
    forall v | v in s.videos
      ensures v < vid && s.videos[v].ts < vid
    {
      assert v in d.videos;
    }
    var made := CreateAppend(s, vid, author);
    FollowersOf(s, d, author);
    var pushes := PushAll(Run(s, made), vid, ST.SetOf(d.followers, author));
    RunFrom(s, made, pushes);
    more := made + pushes;
    CreatedMirrors(s, d, author, Run(s, more));
  }

  lemma FollowersOf(s: System, d: ST.Data, author: int)
    requires ST.Inv(d) && SameContent(s, d)
    ensures forall u :: u in ST.SetOf(d.followers, author) <==> (u, author) in s.following
  {
    forall u
      ensures u in ST.SetOf(d.followers, author) <==> (u, author) in s.following
    {
      assert ST.Linked(d.following, u, author) <==> ST.Linked(d.followers, author, u);
    }
  }

  lemma CreatedMirrors(s: System, d: ST.Data, author: int, t: System)
    requires ST.Inv(d) && Mirrors(s, d) && author in d.users
    requires var vid := d.videoSeq + 1;
             && t.videos == s.videos[vid := Video(author, vid)] && t.following == s.following
             && s.appended <= t.appended && s.delivered <= t.delivered && VideoSettled(t, vid)
    ensures Mirrors(t, ST.Apply(d, ST.Op.CreateVideo(author, true)))
  {
  }

  lemma MirrorStep(s: System, d: ST.Data, op: ST.Op) returns (more: seq<Step>)
    requires ST.Inv(d) && Mirrors(s, d) && Fits(d, op)
    ensures Mirrors(Run(s, more), ST.Apply(d, op))
  {
    more := [];
    match op {
      case Follow(a, b) => more := MirrorFollow(s, d, a, b);
      case Unfollow(a, b) => MirrorUnfollow(s, d, a, b);
      case CreateVideo(a, ok) =>
        if ok && a in d.users {
          more := MirrorCreate(s, d, a);
        }
      case _ => MirrorSame(s, d, op);
    }
  }

  lemma {:induction false} MirrorStore(ops: seq<ST.Op>) returns (steps: seq<Step>)
    requires FollowsFirst(ops)
    ensures SameContent(Run(INIT, steps), ST.Run(ST.EMPTY, ops)) && Settled(Run(INIT, steps))
    ensures Mirrors(Run(INIT, steps), ST.Run(ST.EMPTY, ops))
    decreases |ops|
  {
    if ops == [] {
      steps := [];
    } else {
      var n := |ops| - 1;
      assert forall k | 0 <= k < n :: ops[..n][..k] == ops[..k];
      var init := MirrorStore(ops[..n]);
      ST.RunKeepsInv(ops[..n]);
      var more := MirrorStep(Run(INIT, init), ST.Run(ST.EMPTY, ops[..n]), ops[n]);
      RunFrom(INIT, init, more);
      steps := init + more;
    }
  }
}
