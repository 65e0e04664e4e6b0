/** The in-memory store: redundant counters and indices kept consistent, and cursor paging
    (internal/store/store.go). */
module Store {
  import opened Collections
  import opened RankedSet
  import opened Paging
  import Followers

  datatype Video = Video(id: int, authorID: int, likeCount: int, commentCount: int)

  datatype Comment = Comment(id: int, videoID: int, userID: int)

  datatype Error = NoError | NotFound | Invalid | TooShort | HashFailed

  datatype Data = Data(
    users: set<int>, userSeq: int,
    videos: map<int, Video>, videoSeq: int,
    comments: map<int, Comment>, commentSeq: int,
    userLikes: map<int, set<int>>,
    following: map<int, set<int>>,
    followers: map<int, set<int>>,
    videoComments: map<int, seq<int>>)

  const EMPTY: Data := Data({}, 0, map[], 0, map[], 0, map[], map[], map[], map[])

  function SetOf(m: map<int, set<int>>, k: int): set<int> {
    if k in m then m[k] else {}
  }

  function ListOf(m: map<int, seq<int>>, k: int): seq<int> {
    if k in m then m[k] else []
  }

  // ---------------- operations ----------------

  const MIN_PASSWORD := 6

  /** `wellFormed` stands for the checks on titles, addresses and comment texts. */
  datatype Op =
    | CreateUser(username: string, password: seq<bv8>, hashFails: bool)
    | CreateVideo(author: int, wellFormed: bool)
    | Like(user: int, video: int)
    | Unlike(user: int, video: int)
    | AddComment(video: int, user: int, wellFormed: bool)
    | Follow(follower: int, followee: int)
    | Unfollow(follower: int, followee: int)

  predicate Known(d: Data, user: int, video: int) {
    user in d.users && video in d.videos
  }

  predicate Accepted(username: string, password: seq<bv8>, hashFails: bool) {
    username != "" && |password| >= MIN_PASSWORD && !hashFails
  }

  function Apply(d: Data, op: Op): Data {
    match op
    case CreateUser(name, password, hashFails) =>
      if !Accepted(name, password, hashFails) then d
      else d.(userSeq := d.userSeq + 1, users := d.users + {d.userSeq + 1})
    case CreateVideo(a, ok) =>
      if !ok || a !in d.users then d
      else d.(videoSeq := d.videoSeq + 1, videos := d.videos[d.videoSeq + 1 := Video(d.videoSeq + 1, a, 0, 0)])
    case Like(u, v) =>
      if !Known(d, u, v) || v in SetOf(d.userLikes, u) then d
      else d.(userLikes := d.userLikes[u := SetOf(d.userLikes, u) + {v}],
              videos := d.videos[v := d.videos[v].(likeCount := d.videos[v].likeCount + 1)])
    case Unlike(u, v) =>
      if !Known(d, u, v) || v !in SetOf(d.userLikes, u) then d
      else d.(userLikes := d.userLikes[u := SetOf(d.userLikes, u) - {v}],
              videos := d.videos[v := if d.videos[v].likeCount > 0
                                      then d.videos[v].(likeCount := d.videos[v].likeCount - 1) else d.videos[v]])
    case AddComment(v, u, ok) =>
      if !ok || !Known(d, u, v) then d
      else
        var id := d.commentSeq + 1;
        d.(commentSeq := id, comments := d.comments[id := Comment(id, v, u)],
           videoComments := d.videoComments[v := ListOf(d.videoComments, v) + [id]],
           videos := d.videos[v := d.videos[v].(commentCount := d.videos[v].commentCount + 1)])
    case Follow(a, b) =>
      if a == b || a !in d.users || b !in d.users then d
      else d.(following := d.following[a := SetOf(d.following, a) + {b}],
              followers := d.followers[b := SetOf(d.followers, b) + {a}])
    case Unfollow(a, b) =>
      d.(following := if a in d.following then d.following[a := d.following[a] - {b}] else d.following,
         followers := if b in d.followers then d.followers[b := d.followers[b] - {a}] else d.followers)
  }

  function Run(d: Data, ops: seq<Op>): Data {
    if ops == [] then d else Apply(Run(d, ops[..|ops| - 1]), ops[|ops| - 1])
  }

  // ---------------- invariant ----------------

  /** The users whose like set holds v. */
  function Likers(userLikes: map<int, set<int>>, v: int): set<int> {
    set u | u in userLikes && v in userLikes[u]
  }

  predicate IdsInRange(d: Data) {
    && d.userSeq >= 0 && d.videoSeq >= 0 && d.commentSeq >= 0
    && (forall u | u in d.users :: 0 < u <= d.userSeq)
    && (forall v | v in d.videos :: 0 < v <= d.videoSeq && d.videos[v].id == v && d.videos[v].authorID in d.users)
    && (forall c | c in d.comments :: 0 < c <= d.commentSeq && d.comments[c].id == c)
  }

  ghost predicate LikesCounted(d: Data) {
    && (forall v | v in d.videos :: d.videos[v].likeCount == |Likers(d.userLikes, v)|)
    && (forall u, v | u in d.userLikes && v in d.userLikes[u] :: Known(d, u, v))
  }

  /** b is in the set that m keeps for a. */
  predicate Linked(m: map<int, set<int>>, a: int, b: int) {
    b in SetOf(m, a)
  }

  ghost predicate Transposed(d: Data) {
    && (forall a, b :: Linked(d.following, a, b) <==> Linked(d.followers, b, a))
    && (forall a, b | Linked(d.following, a, b) :: a != b && a in d.users && b in d.users)
  }

  predicate IsCommentOf(d: Data, c: int, v: int) {
    c in d.comments && d.comments[c].videoID == v
  }

  ghost predicate CommentsListed(d: Data) {
    && (forall v | v in d.videos :: d.videos[v].commentCount == |ListOf(d.videoComments, v)|)
    && (forall v :: Ascending(ListOf(d.videoComments, v)))
    && (forall v, c :: c in ListOf(d.videoComments, v) <==> IsCommentOf(d, c, v))
    && (forall c | c in d.comments :: d.comments[c].videoID in d.videos)
  }

  ghost predicate Inv(d: Data) {
    IdsInRange(d) && LikesCounted(d) && Transposed(d) && CommentsListed(d)
  }

  /** A liked video has a positive count, so the guard before the decrement never blocks it. */
  lemma LikedIsCounted(d: Data, u: int, v: int)
    requires Inv(d) && v in SetOf(d.userLikes, u)
    ensures v in d.videos && d.videos[v].likeCount > 0
  {
    assert u in Likers(d.userLikes, v);
    assert Known(d, u, v);
  }

  lemma LikersUpdated(m: map<int, set<int>>, u: int, likes: set<int>, w: int)
    ensures Likers(m[u := likes], w) == Likers(m, w) - {u} + (if w in likes then {u} else {})
    ensures u in Likers(m, w) <==> w in SetOf(m, u)
  {
    var m' := m[u := likes];
    forall x
      ensures x in Likers(m', w) <==> x in Likers(m, w) - {u} + (if w in likes then {u} else {})
    {
      if x != u {
        assert x in m' <==> x in m;
      }
    }
  }

  lemma AddLiker(m: map<int, set<int>>, u: int, v: int, w: int)
    requires v !in SetOf(m, u)
    ensures |Likers(m[u := SetOf(m, u) + {v}], w)| == |Likers(m, w)| + (if w == v then 1 else 0)
  {
    LikersUpdated(m, u, SetOf(m, u) + {v}, w);
    if w != v {
      assert Likers(m, w) - {u} + (if w in SetOf(m, u) then {u} else {}) == Likers(m, w);
    }
  }

  lemma DropLiker(m: map<int, set<int>>, u: int, v: int, w: int)
    requires v in SetOf(m, u)
    ensures |Likers(m[u := SetOf(m, u) - {v}], w)| == |Likers(m, w)| - (if w == v then 1 else 0)
  {
    LikersUpdated(m, u, SetOf(m, u) - {v}, w);
    if w != v {
      assert Likers(m, w) - {u} + (if w in SetOf(m, u) then {u} else {}) == Likers(m, w);
    }
  }

  lemma NoLikersYet(d: Data, v: int)
    requires LikesCounted(d) && v !in d.videos
    ensures |Likers(d.userLikes, v)| == 0
  {
    forall u | u in d.userLikes
      ensures v !in d.userLikes[u]
    {
      assert !Known(d, u, v);
    }
    assert Likers(d.userLikes, v) == {};
  }

  lemma LikeKept(d: Data, u: int, v: int)
    requires Inv(d)
    ensures LikesCounted(Apply(d, Like(u, v)))
  {
    var d' := Apply(d, Like(u, v));
    if d' != d {
      forall w | w in d'.videos
        ensures d'.videos[w].likeCount == |Likers(d'.userLikes, w)|
      {
        AddLiker(d.userLikes, u, v, w);
      }
      forall x, w | x in d'.userLikes && w in d'.userLikes[x]
        ensures Known(d', x, w)
      {
        assert (x != u || w != v) ==> Known(d, x, w);
      }
    }
  }

  lemma UnlikeKept(d: Data, u: int, v: int)
    requires Inv(d)
    ensures LikesCounted(Apply(d, Unlike(u, v)))
  {
    var d' := Apply(d, Unlike(u, v));
    if d' != d {
      LikedIsCounted(d, u, v);
      forall w | w in d'.videos
        ensures d'.videos[w].likeCount == |Likers(d'.userLikes, w)|
      {
        DropLiker(d.userLikes, u, v, w);
      }
      forall x, w | x in d'.userLikes && w in d'.userLikes[x]
        ensures Known(d', x, w)
      {
        assert Known(d, x, w);
      }
    }
  }

  lemma LikesFramed(d: Data, d': Data)
    requires LikesCounted(d) && d'.userLikes == d.userLikes
    requires forall u | u in d.users :: u in d'.users
    requires forall v | v in d.videos :: v in d'.videos && d'.videos[v].likeCount == d.videos[v].likeCount
    requires forall v | v in d'.videos && v !in d.videos :: d'.videos[v].likeCount == 0
    ensures LikesCounted(d')
  {
    forall v | v in d'.videos
      ensures d'.videos[v].likeCount == |Likers(d'.userLikes, v)|
    {
      if v !in d.videos {
        NoLikersYet(d, v);
      }
    }
    forall u, v | u in d'.userLikes && v in d'.userLikes[u]
      ensures Known(d', u, v)
    {
      assert Known(d, u, v);
    }
  }

  lemma OtherOpsKeepLikes(d: Data, op: Op)
    requires !op.Like? && !op.Unlike?
    ensures Apply(d, op).userLikes == d.userLikes && forall u | u in d.users :: u in Apply(d, op).users
  {
  }

  lemma OtherOpsKeepLikeCounts(d: Data, op: Op)
    requires IdsInRange(d) && !op.Like? && !op.Unlike?
    ensures var d' := Apply(d, op);
            && (forall v | v in d.videos :: v in d'.videos && d'.videos[v].likeCount == d.videos[v].likeCount)
            && (forall v | v in d'.videos && v !in d.videos :: d'.videos[v].likeCount == 0)
  {
  }

  lemma LikesKept(d: Data, op: Op)
    requires Inv(d)
    ensures LikesCounted(Apply(d, op))
  {
    var d' := Apply(d, op);
    if op.Like? {
      LikeKept(d, op.user, op.video);
    } else if op.Unlike? {
      UnlikeKept(d, op.user, op.video);
    } else {
      OtherOpsKeepLikes(d, op);
      OtherOpsKeepLikeCounts(d, op);
      LikesFramed(d, d');
    }
  }

  lemma LinkChange(m: map<int, set<int>>, k: int, likes: set<int>)
    ensures forall a, b :: Linked(m[k := likes], a, b) <==> (if a == k then b in likes else Linked(m, a, b))
  {
    forall a, b
      ensures Linked(m[k := likes], a, b) <==> (if a == k then b in likes else Linked(m, a, b))
    {
      if a != k {
        assert SetOf(m[k := likes], a) == SetOf(m, a);
      }
    }
  }

  lemma FollowKept(d: Data, a: int, b: int)
    requires Transposed(d)
    ensures Transposed(Apply(d, Follow(a, b)))
  {
    if Apply(d, Follow(a, b)) != d {
      LinkChange(d.following, a, SetOf(d.following, a) + {b});
      LinkChange(d.followers, b, SetOf(d.followers, b) + {a});
      forall x, y
        ensures Linked(Apply(d, Follow(a, b)).following, x, y) <==> Linked(d.following, x, y) || (x == a && y == b)
        ensures Linked(Apply(d, Follow(a, b)).followers, y, x) <==> Linked(d.followers, y, x) || (x == a && y == b)
      {
      }
    }
  }

  lemma UnfollowKept(d: Data, a: int, b: int)
    requires Transposed(d)
    ensures Transposed(Apply(d, Unfollow(a, b)))
  {
    var d' := Apply(d, Unfollow(a, b));
    forall x, y
      ensures Linked(d'.following, x, y) <==> Linked(d.following, x, y) && !(x == a && y == b)
      ensures Linked(d'.followers, y, x) <==> Linked(d.followers, y, x) && !(x == a && y == b)
    {
    }
  }

  lemma TransposedFramed(d: Data, d': Data)
    requires Transposed(d) && d'.following == d.following && d'.followers == d.followers
    requires forall u | u in d.users :: u in d'.users
    ensures Transposed(d')
  {
  }

  lemma FollowsKept(d: Data, op: Op)
    requires Inv(d)
    ensures Transposed(Apply(d, op))
  {
    match op {
      case Follow(a, b) => FollowKept(d, a, b);
      case Unfollow(a, b) => UnfollowKept(d, a, b);
      case _ =>
        TransposedFramed(d, Apply(d, op));
    }
  }

  lemma IdsKept(d: Data, op: Op)
    requires IdsInRange(d)
    ensures IdsInRange(Apply(d, op))
  {
  }

  lemma NoCommentsYet(d: Data, v: int)
    requires CommentsListed(d) && v !in d.videos
    ensures |ListOf(d.videoComments, v)| == 0
  {
    var list := ListOf(d.videoComments, v);
    forall c
      ensures c !in list
    {
      assert !IsCommentOf(d, c, v);
    }
    if |list| > 0 {
      HeadIn(list);
    }
  }

  /** The new ID is above all of the video's comments. */
  lemma NewestComment(d: Data, v: int)
    requires IdsInRange(d) && CommentsListed(d)
    ensures Ascending(ListOf(d.videoComments, v) + [d.commentSeq + 1])
  {
    var list := ListOf(d.videoComments, v);
    forall i | 0 <= i < |list|
      ensures list[i] <= d.commentSeq
    {
      assert list[i] in list && IsCommentOf(d, list[i], v);
    }
  }

  lemma CommentAdded(d: Data, v: int, u: int, ok: bool)
    requires Inv(d) && Apply(d, AddComment(v, u, ok)) != d
    ensures CommentsListed(Apply(d, AddComment(v, u, ok)))
  {
    var d' := Apply(d, AddComment(v, u, ok));
    NewestComment(d, v);
    forall w, c
      ensures c in ListOf(d'.videoComments, w) <==> IsCommentOf(d', c, w)
    {
      assert c in ListOf(d.videoComments, w) <==> IsCommentOf(d, c, w);
    }
    forall w
      ensures Ascending(ListOf(d'.videoComments, w))
    {
      assert Ascending(ListOf(d.videoComments, w));
    }
  }

  lemma CommentsFramed(d: Data, d': Data)
    requires CommentsListed(d) && d'.videoComments == d.videoComments && d'.comments == d.comments
    requires forall v | v in d.videos :: v in d'.videos && d'.videos[v].commentCount == d.videos[v].commentCount
    requires forall v | v in d'.videos && v !in d.videos :: d'.videos[v].commentCount == 0
    ensures CommentsListed(d')
  {
    forall v | v in d'.videos
      ensures d'.videos[v].commentCount == |ListOf(d'.videoComments, v)|
    {
      if v !in d.videos {
        NoCommentsYet(d, v);
      }
    }
    forall w, c
      ensures c in ListOf(d'.videoComments, w) <==> IsCommentOf(d', c, w)
    {
      assert c in ListOf(d.videoComments, w) <==> IsCommentOf(d, c, w);
    }
  }

  lemma NoNewComments(d: Data, op: Op)
    requires op.AddComment? ==> Apply(d, op) == d
    ensures Apply(d, op).videoComments == d.videoComments && Apply(d, op).comments == d.comments
  {
  }

  lemma OtherOpsFrame(d: Data, op: Op)
    requires IdsInRange(d) && (op.AddComment? ==> Apply(d, op) == d)
    ensures var d' := Apply(d, op);
            && (forall v | v in d.videos :: v in d'.videos && d'.videos[v].commentCount == d.videos[v].commentCount)
            && (forall v | v in d'.videos && v !in d.videos :: d'.videos[v].commentCount == 0)
  {
  }

  lemma CommentsKept(d: Data, op: Op)
    requires Inv(d)
    ensures CommentsListed(Apply(d, op))
  {
    if op.AddComment? && Apply(d, op) != d {
      CommentAdded(d, op.video, op.user, op.wellFormed);
    } else {
      NoNewComments(d, op);
      OtherOpsFrame(d, op);
      CommentsFramed(d, Apply(d, op));
    }
  }

  lemma OpKeepsInv(d: Data, op: Op)
    requires Inv(d)
    ensures Inv(Apply(d, op))
  {
    IdsKept(d, op);
    LikesKept(d, op);
    FollowsKept(d, op);
    CommentsKept(d, op);
  }

  lemma {:induction false} RunKeepsInv(ops: seq<Op>)
    ensures Inv(Run(EMPTY, ops))
    decreases |ops|
  {
    if ops != [] {
      var d, op := Run(EMPTY, ops[..|ops| - 1]), ops[|ops| - 1];
      RunKeepsInv(ops[..|ops| - 1]);
      OpKeepsInv(d, op);
    }
  }

  // ---------------- cursor paging ----------------

  datatype Selection = All | By(author: int) | FollowedBy(user: int)

  predicate Selects(d: Data, sel: Selection, author: int) {
    match sel
    case All => true
    case By(a) => author == a
    case FollowedBy(u) => author in SetOf(d.following, u)
  }

  /** The matching videos, ranked by ID. */
  function Selected(d: Data, sel: Selection): ZSet {
    map v | v in d.videos && Selects(d, sel, d.videos[v].authorID) :: v
  }

  function ClampLimit(limit: int): nat {
    if limit <= 0 || limit > 50 then 10 else limit
  }

  /** Videos are only added, with fresh IDs above all earlier ones. */
  ghost predicate Later(d: Data, e: Data) {
    && d.videoSeq <= e.videoSeq
    && (forall v | v in d.videos :: v in e.videos && e.videos[v].authorID == d.videos[v].authorID)
    && (forall v | v in e.videos && v !in d.videos :: v > d.videoSeq)
  }

  lemma OpLater(d: Data, op: Op)
    requires IdsInRange(d)
    ensures Later(d, Apply(d, op))
  {
  }

  lemma {:induction false} RunLater(d: Data, ops: seq<Op>)
    requires IdsInRange(d)
    ensures IdsInRange(Run(d, ops)) && Later(d, Run(d, ops))
    decreases |ops|
  {
    if ops != [] {
      RunLater(d, ops[..|ops| - 1]);
      IdsKept(Run(d, ops[..|ops| - 1]), ops[|ops| - 1]);
      OpLater(Run(d, ops[..|ops| - 1]), ops[|ops| - 1]);
    }
  }

  lemma SelectionGrows(d: Data, e: Data, sel: Selection)
    requires IdsInRange(d) && Later(d, e)
    requires sel.FollowedBy? ==> SetOf(e.following, sel.user) == SetOf(d.following, sel.user)
    ensures GrowsAbove(Selected(d, sel), Selected(e, sel))
  {
  }

  /** The page as the list methods return it. */
  predicate IsVideoPage(d: Data, res: seq<Video>, page: seq<Entry>) {
    && |res| == |page|
    && forall i | 0 <= i < |res| :: page[i].id in d.videos && res[i] == d.videos[page[i].id]
  }

  /** A client's pages of one list method: page k is read from ds[k], with the last ID of the page
      before as maxID. */
  ghost predicate Browses(ds: seq<Data>, limits: seq<int>, maxID: int, sel: Selection, pages: seq<seq<Video>>)
    requires |ds| == |limits| == |pages|
  {
    pages != [] ==>
      && IsVideoPage(ds[0], pages[0], Page(Selected(ds[0], sel), maxID, ClampLimit(limits[0])))
      && (|pages| > 1 ==>
            && pages[0] != []
            && Browses(ds[1..], limits[1..], pages[0][|pages[0]| - 1].id, sel, pages[1..]))
  }

  function EntriesOf(vs: seq<Video>): (s: seq<Entry>)
    ensures |s| == |vs|
  {
    seq(|vs|, i requires 0 <= i < |vs| => Entry(vs[i].id, vs[i].id))
  }

  function VideoIds(vs: seq<Video>): seq<int> {
    seq(|vs|, i requires 0 <= i < |vs| => vs[i].id)
  }

  function EntryPages(pages: seq<seq<Video>>): (s: seq<seq<Entry>>)
    ensures |s| == |pages|
  {
    seq(|pages|, k requires 0 <= k < |pages| => EntriesOf(pages[k]))
  }

  function Selections(ds: seq<Data>, sel: Selection): (zs: seq<ZSet>)
    ensures |zs| == |ds|
  {
    seq(|ds|, k requires 0 <= k < |ds| => Selected(ds[k], sel))
  }

  function Clamped(limits: seq<int>): (ns: seq<nat>)
    ensures |ns| == |limits|
  {
    seq(|limits|, k requires 0 <= k < |limits| => ClampLimit(limits[k]))
  }

  lemma {:induction false} ConcatEntries(pages: seq<seq<Video>>)
    ensures Concat(EntryPages(pages)) == EntriesOf(Concat(pages))
  {
    if pages != [] {
      ConcatEntries(pages[1..]);
      assert EntryPages(pages)[1..] == EntryPages(pages[1..]);
    }
  }

  lemma PageEntries(d: Data, res: seq<Video>, sel: Selection, maxID: int, limit: nat)
    requires IdsInRange(d) && IsVideoPage(d, res, Page(Selected(d, sel), maxID, limit))
    ensures EntriesOf(res) == Page(Selected(d, sel), maxID, limit)
  {
    var z := Below(Selected(d, sel), maxID);
    var page := Page(Selected(d, sel), maxID, limit);
    forall i | 0 <= i < |page|
      ensures EntriesOf(res)[i] == page[i]
    {
      ListingAt(Listing(z), z, i);
    }
  }

  lemma Tails(ds: seq<Data>, limits: seq<int>, sel: Selection, pages: seq<seq<Video>>)
    requires |ds| == |limits| == |pages| > 0
    ensures Selections(ds, sel)[1..] == Selections(ds[1..], sel)
    ensures Clamped(limits)[1..] == Clamped(limits[1..]) && EntryPages(pages)[1..] == EntryPages(pages[1..])
  {
  }

  lemma BrowsesOn(ds: seq<Data>, limits: seq<int>, maxID: int, sel: Selection, pages: seq<seq<Video>>)
    requires |ds| == |limits| == |pages| > 0
    requires EntriesOf(pages[0]) == Page(Selected(ds[0], sel), maxID, ClampLimit(limits[0]))
    requires |pages| > 1 ==>
               && pages[0] != []
               && Follows(Selections(ds[1..], sel), Clamped(limits[1..]), pages[0][|pages[0]| - 1].id,
                          EntryPages(pages[1..]))
    ensures Follows(Selections(ds, sel), Clamped(limits), maxID, EntryPages(pages))
  {
    Tails(ds, limits, sel, pages);
    FollowsOn(Selections(ds, sel), Clamped(limits), maxID, EntryPages(pages));
  }

  lemma {:induction false} BrowseFollows(ds: seq<Data>, limits: seq<int>, maxID: int, sel: Selection,
                                         pages: seq<seq<Video>>)
    requires |ds| == |limits| == |pages| && Browses(ds, limits, maxID, sel, pages)
    requires forall k | 0 <= k < |ds| :: IdsInRange(ds[k])
    ensures Follows(Selections(ds, sel), Clamped(limits), maxID, EntryPages(pages))
    decreases |pages|
  {
    if pages != [] {
      PageEntries(ds[0], pages[0], sel, maxID, ClampLimit(limits[0]));
      if |pages| > 1 {
        BrowseFollows(ds[1..], limits[1..], pages[0][|pages[0]| - 1].id, sel, pages[1..]);
      }
      BrowsesOn(ds, limits, maxID, sel, pages);
    }
  }

  /** The states after each of `later`. */
  function States(d: Data, later: seq<seq<Op>>): (ds: seq<Data>)
    ensures |ds| == |later|
  {
    seq(|later|, k requires 0 <= k < |later| => Run(d, later[k]))
  }

  predicate SameFollows(d: Data, sel: Selection, later: seq<seq<Op>>) {
    sel.FollowedBy? ==>
      forall k | 0 <= k < |later| :: SetOf(Run(d, later[k]).following, sel.user) == SetOf(d.following, sel.user)
  }

  lemma SelectionsGrow(d: Data, sel: Selection, later: seq<seq<Op>>)
    requires IdsInRange(d) && SameFollows(d, sel, later)
    ensures forall k | 0 <= k < |later| ::
              && IdsInRange(States(d, later)[k]) && PositiveScores(Selections(States(d, later), sel)[k])
              && GrowsAbove(Selected(d, sel), Selections(States(d, later), sel)[k])
  {
    forall k | 0 <= k < |later|
      ensures IdsInRange(Run(d, later[k])) && PositiveScores(Selected(Run(d, later[k]), sel))
      ensures GrowsAbove(Selected(d, sel), Selected(Run(d, later[k]), sel))
    {
      RunLater(d, later[k]);
      SelectionGrows(d, Run(d, later[k]), sel);
    }
  }

  /** Pages read one after the other, each with its own limit and with any operations in between
      (as long as the reader's follow set stays the same), concatenate to exactly the matching
      videos of the first read, strictly descending; a short page ends them. */
  lemma PagesUnderGrowth(ops: seq<Op>, later: seq<seq<Op>>, limits: seq<int>, sel: Selection, pages: seq<seq<Video>>)
    requires |later| == |limits| == |pages| > 0 && later[0] == []
    requires Browses(States(Run(EMPTY, ops), later), limits, 0, sel, pages)
    requires SameFollows(Run(EMPTY, ops), sel, later)
    ensures var all := Listing(Selected(Run(EMPTY, ops), sel));
            && EntriesOf(Concat(pages)) <= all && |pages| <= |all| + 1
            && (Finished(pages, Clamped(limits)) ==> EntriesOf(Concat(pages)) == all)
  {
    var d := Run(EMPTY, ops);
    RunKeepsInv(ops);
    SelectionsGrow(d, sel, later);
    BrowseFollows(States(d, later), limits, 0, sel, pages);
    ConcatEntries(pages);
    PagesAreListing(Selections(States(d, later), sel), Clamped(limits), EntryPages(pages), Selected(d, sel));
  }

  /** The videos the filter loop has kept when `todo` is still to come. */
  function Visited(d: Data, sel: Selection, maxID: int, todo: set<int>): ZSet {
    map v | v in Below(Selected(d, sel), maxID) && v !in todo :: v
  }

  lemma VisitOne(d: Data, sel: Selection, maxID: int, todo: set<int>, id: int)
    requires id in todo && id in d.videos
    ensures id !in Visited(d, sel, maxID, todo)
    ensures Visited(d, sel, maxID, todo - {id}) ==
              if Selects(d, sel, d.videos[id].authorID) && !(maxID > 0 && id >= maxID)
              then Visited(d, sel, maxID, todo)[id := id] else Visited(d, sel, maxID, todo)
  {
  }

  /** One turn of the filter loop. */
  method Keep(d: Data, sel: Selection, maxID: int, matched: seq<Entry>, ghost todo: set<int>, id: int)
    returns (r: seq<Entry>)
    requires id in todo && id in d.videos && d.videos[id].id == id
    requires IsListing(matched, Visited(d, sel, maxID, todo))
    ensures IsListing(r, Visited(d, sel, maxID, todo - {id}))
  {
    var v := d.videos[id];
    VisitOne(d, sel, maxID, todo, id);
    if Selects(d, sel, v.authorID) && !(maxID > 0 && v.id >= maxID) {
      InsertListing(matched, Visited(d, sel, maxID, todo), Entry(v.id, v.id));
      r := Insert(matched, Entry(v.id, v.id));
    } else {
      r := matched;
    }
  }

  /** The filter loop over the map, in its unspecified order. */
  method Matching(d: Data, sel: Selection, maxID: int) returns (matched: seq<Entry>)
    requires forall v | v in d.videos :: d.videos[v].id == v
    ensures IsListing(matched, Below(Selected(d, sel), maxID))
  {
    matched := [];
    var todo := d.videos.Keys;
    while todo != {}
      invariant todo <= d.videos.Keys
      invariant IsListing(matched, Visited(d, sel, maxID, todo))
      decreases todo
    {
      ghost var some := AnyElement(todo);
      var id :| id in todo;
      matched := Keep(d, sel, maxID, matched, todo, id);
      todo := todo - {id};
    }
    AllVisited(d, sel, maxID);
  }

  lemma AllVisited(d: Data, sel: Selection, maxID: int)
    ensures Visited(d, sel, maxID, {}) == Below(Selected(d, sel), maxID)
  {
  }

  /** res holds the newest n of the wanted videos, newest first, among those below maxID if that is
      positive. */
  predicate ListsNewest(videos: map<int, Video>, wanted: set<int>, maxID: int, n: int, res: seq<Video>) {
    && |res| <= n
    && (forall i, j | 0 <= i < j < |res| :: res[i].id > res[j].id)
    && (forall v | v in res :: v.id in wanted && v.id in videos && videos[v.id] == v && (maxID > 0 ==> v.id < maxID))
    && (forall id | id in wanted && id in videos && (maxID > 0 ==> id < maxID) ::
          videos[id] in res || (|res| == n && forall v | v in res :: v.id > id))
  }

  lemma PageIsNewest(d: Data, sel: Selection, maxID: int, n: nat, res: seq<Video>)
    requires IdsInRange(d) && IsVideoPage(d, res, Page(Selected(d, sel), maxID, n))
    ensures ListsNewest(d.videos, Selected(d, sel).Keys, maxID, n, res)
  {
    var z := Below(Selected(d, sel), maxID);
    var all := Listing(z);
    assert |res| == |Take(all, n)|;
    forall i | 0 <= i < |res|
      ensures all[i].id in z && res[i] == d.videos[all[i].id] && res[i].id == all[i].id == all[i].score
    {
      ListingAt(all, z, i);
    }
    forall i, j | 0 <= i < j < |res|
      ensures res[i].id > res[j].id
    {
      ListingAt(all, z, i);
      assert Lower(all[j], all[i]);
    }
    forall id | id in Selected(d, sel) && (maxID > 0 ==> id < maxID)
      ensures d.videos[id] in res || (|res| == n && forall v | v in res :: v.id > id)
    {
      var k := ListingIndex(all, z, id);
      if k < |res| {
        assert res[k] == d.videos[id];
      } else {
        LeftOutIsOlder(d, sel, maxID, res, k);
      }
    }
  }

  lemma LeftOutIsOlder(d: Data, sel: Selection, maxID: int, res: seq<Video>, k: nat)
    requires IdsInRange(d)
    requires var all := Listing(Below(Selected(d, sel), maxID));
             |res| <= k < |all| && forall i | 0 <= i < |res| :: res[i].id == all[i].id
    ensures forall v | v in res :: v.id > Listing(Below(Selected(d, sel), maxID))[k].id
  {
    var z := Below(Selected(d, sel), maxID);
    var all := Listing(z);
    ListingAt(all, z, k);
    forall i | 0 <= i < |res|
      ensures res[i].id > all[k].id
    {
      ListingAt(all, z, i);
      assert Lower(all[k], all[i]);
    }
  }

  // ---------------- the store object ----------------

  class Store {
    var users: set<int>
    var userSeq: int
    var videos: map<int, Video>
    var videoSeq: int
    var comments: map<int, Comment>
    var commentSeq: int
    var userLikes: map<int, set<int>>
    var following: map<int, set<int>>
    var followers: map<int, set<int>>
    var videoComments: map<int, seq<int>>

    function View(): Data
      reads this
    {
      Data(users, userSeq, videos, videoSeq, comments, commentSeq, userLikes, following, followers, videoComments)
    }

    ghost predicate Valid()
      reads this
    {
      Inv(View())
    }

    constructor ()
      ensures Valid() && View() == EMPTY
    {
      users, userSeq := {}, 0;
      videos, videoSeq := map[], 0;
      comments, commentSeq := map[], 0;
      userLikes, following, followers, videoComments := map[], map[], map[], map[];
      new;
      RunKeepsInv([]);
    }

    ghost method Preserve(d: Data, op: Op)
      requires Inv(d) && View() == Apply(d, op)
      ensures Valid()
    {
      OpKeepsInv(d, op);
    }

    method CreateUser(username: string, password: seq<bv8>, hashFails: bool) returns (id: int, err: Error)
      requires Valid()
      modifies `users, `userSeq
      ensures Valid() && View() == Apply(old(View()), Op.CreateUser(username, password, hashFails))
      ensures err == if username == "" || password == [] then Invalid
                     else if |password| < MIN_PASSWORD then TooShort
                     else if hashFails then HashFailed else NoError
      ensures err == NoError ==> id == userSeq == old(userSeq) + 1 && id !in old(users) && users == old(users) + {id}
      ensures err != NoError ==> users == old(users) && userSeq == old(userSeq)
    {
      id := 0;
      if username == "" || password == [] { return id, Invalid; }
      if |password| < MIN_PASSWORD { return id, TooShort; }
      if hashFails { return id, HashFailed; }
      userSeq := userSeq + 1;
      users := users + {userSeq};
      id := userSeq;
      Preserve(old(View()), Op.CreateUser(username, password, hashFails));
      return id, NoError;
    }

    method CreateVideo(authorID: int, wellFormed: bool) returns (v: Video, err: Error)
      requires Valid()
      modifies `videos, `videoSeq
      ensures Valid() && View() == Apply(old(View()), Op.CreateVideo(authorID, wellFormed))
      ensures err == if !wellFormed then Invalid else if authorID !in old(users) then NotFound else NoError
      ensures err == NoError ==>
                && v == Video(old(videoSeq) + 1, authorID, 0, 0) && v.id !in old(videos)
                && videos == old(videos)[v.id := v] && videoSeq == v.id
      ensures err != NoError ==> videos == old(videos) && videoSeq == old(videoSeq)
    {
      v, err := Video(0, 0, 0, 0), NoError;
      if !wellFormed { return v, Invalid; }
      if authorID !in users { return v, NotFound; }
      videoSeq := videoSeq + 1;
      v := Video(videoSeq, authorID, 0, 0);
      videos := videos[videoSeq := v];
      Preserve(old(View()), Op.CreateVideo(authorID, wellFormed));
    }

    method Like(userID: int, videoID: int) returns (changed: bool, err: Error)
      requires Valid()
      modifies `userLikes, `videos
      ensures Valid() && View() == Apply(old(View()), Op.Like(userID, videoID))
      ensures err == if userID in users && videoID in old(videos) then NoError else NotFound
      ensures changed <==> err == NoError && videoID !in SetOf(old(userLikes), userID)
      ensures changed ==>
                && userLikes == old(userLikes)[userID := SetOf(old(userLikes), userID) + {videoID}]
                && var v := old(videos)[videoID];
                   videos == old(videos)[videoID := v.(likeCount := v.likeCount + 1)]
      ensures !changed ==> userLikes == old(userLikes) && videos == old(videos)
    {
      if userID !in users || videoID !in videos { return false, NotFound; }
      var likes := SetOf(userLikes, userID);
      if videoID in likes { return false, NoError; }
      userLikes := userLikes[userID := likes + {videoID}];
      videos := videos[videoID := videos[videoID].(likeCount := videos[videoID].likeCount + 1)];
      Preserve(old(View()), Op.Like(userID, videoID));
      return true, NoError;
    }

    method Unlike(userID: int, videoID: int) returns (changed: bool, err: Error)
      requires Valid()
      modifies `userLikes, `videos
      ensures Valid() && View() == Apply(old(View()), Op.Unlike(userID, videoID))
      ensures err == if userID in users && videoID in old(videos) then NoError else NotFound
      ensures changed <==> err == NoError && videoID in SetOf(old(userLikes), userID)
      ensures changed ==>
                && userLikes == old(userLikes)[userID := SetOf(old(userLikes), userID) - {videoID}]
                && var v := old(videos)[videoID];
                   videos == old(videos)[videoID := v.(likeCount := v.likeCount - 1)]
      ensures !changed ==> userLikes == old(userLikes) && videos == old(videos)
    {
      if userID !in users || videoID !in videos { return false, NotFound; }
      if userID !in userLikes || videoID !in userLikes[userID] { return false, NoError; }
      LikedIsCounted(View(), userID, videoID);
      userLikes := userLikes[userID := userLikes[userID] - {videoID}];
      if videos[videoID].likeCount > 0 {
        videos := videos[videoID := videos[videoID].(likeCount := videos[videoID].likeCount - 1)];
      }
      assert videos == old(videos)[videoID := videos[videoID]];
      Preserve(old(View()), Op.Unlike(userID, videoID));
      return true, NoError;
    }

    method AddComment(videoID: int, userID: int, wellFormed: bool) returns (c: Comment, err: Error)
      requires Valid()
      modifies `comments, `commentSeq, `videoComments, `videos
      ensures Valid() && View() == Apply(old(View()), Op.AddComment(videoID, userID, wellFormed))
      ensures err == if !wellFormed then Invalid
                     else if userID in users && videoID in old(videos) then NoError else NotFound
      ensures err == NoError ==>
                && c == Comment(old(commentSeq) + 1, videoID, userID) && c.id !in old(comments)
                && comments == old(comments)[c.id := c] && commentSeq == c.id
                && videoComments == old(videoComments)[videoID := ListOf(old(videoComments), videoID) + [c.id]]
                && var v := old(videos)[videoID];
                   videos == old(videos)[videoID := v.(commentCount := v.commentCount + 1)]
      ensures err != NoError ==> View() == old(View())
    {
      c, err := Comment(0, 0, 0), NoError;
      if !wellFormed { return c, Invalid; }
      if userID !in users || videoID !in videos { return c, NotFound; }
      c := AppendComment(videoID, userID);
      Preserve(old(View()), Op.AddComment(videoID, userID, wellFormed));
    }

    /** The new comment, its place in the video's list, and the counter. */
    method AppendComment(videoID: int, userID: int) returns (c: Comment)
      requires userID in users && videoID in videos
      modifies `comments, `commentSeq, `videoComments, `videos
      ensures View() == Apply(old(View()), Op.AddComment(videoID, userID, true))
      ensures c == Comment(old(commentSeq) + 1, videoID, userID)
      ensures comments == old(comments)[c.id := c] && commentSeq == c.id
      ensures videoComments == old(videoComments)[videoID := ListOf(old(videoComments), videoID) + [c.id]]
      ensures var v := old(videos)[videoID];
              videos == old(videos)[videoID := v.(commentCount := v.commentCount + 1)]
    {
      commentSeq := commentSeq + 1;
      c := Comment(commentSeq, videoID, userID);
      comments := comments[commentSeq := c];
      videoComments := videoComments[videoID := ListOf(videoComments, videoID) + [commentSeq]];
      videos := videos[videoID := videos[videoID].(commentCount := videos[videoID].commentCount + 1)];
    }

    method Follow(followerID: int, followeeID: int) returns (err: Error)
      requires Valid()
      modifies `following, `followers
      ensures Valid() && View() == Apply(old(View()), Op.Follow(followerID, followeeID))
      ensures err == if followerID == followeeID then Invalid
                     else if followerID in users && followeeID in users then NoError else NotFound
      ensures err == NoError ==>
                && following == old(following)[followerID := SetOf(old(following), followerID) + {followeeID}]
                && followers == old(followers)[followeeID := SetOf(old(followers), followeeID) + {followerID}]
      ensures err != NoError ==> following == old(following) && followers == old(followers)
    {
      if followerID == followeeID { return Invalid; }
      if followerID !in users || followeeID !in users { return NotFound; }
      following := following[followerID := SetOf(following, followerID) + {followeeID}];
      followers := followers[followeeID := SetOf(followers, followeeID) + {followerID}];
      Preserve(old(View()), Op.Follow(followerID, followeeID));
      return NoError;
    }

    method Unfollow(followerID: int, followeeID: int)
      requires Valid()
      modifies `following, `followers
      ensures Valid() && View() == Apply(old(View()), Op.Unfollow(followerID, followeeID))
      ensures forall a, b :: Linked(following, a, b) <==>
                Linked(old(following), a, b) && !(a == followerID && b == followeeID)
      ensures forall a, b :: Linked(followers, b, a) <==>
                Linked(old(followers), b, a) && !(a == followerID && b == followeeID)
    {
      if followerID in following {
        following := following[followerID := following[followerID] - {followeeID}];
      }
      if followeeID in followers {
        followers := followers[followeeID := followers[followeeID] - {followerID}];
      }
      Preserve(old(View()), Op.Unfollow(followerID, followeeID));
    }

    /** All comments of a video, oldest first; none of the listed IDs is dangling. */
    method ListComments(videoID: int) returns (res: seq<Comment>, err: Error)
      requires Valid()
      ensures err == if videoID in videos then NoError else NotFound
      ensures err == NoError ==> |res| == videos[videoID].commentCount
      ensures err == NoError ==> forall i | 0 <= i < |res| ::
                var id := ListOf(videoComments, videoID)[i];
                id in comments && res[i] == comments[id] && res[i].videoID == videoID
    {
      if videoID !in videos { return [], NotFound; }
      var ids := ListOf(videoComments, videoID);
      res := [];
      for k := 0 to |ids|
        invariant |res| == k
        invariant forall i | 0 <= i < k :: ids[i] in comments && res[i] == comments[ids[i]] && res[i].videoID == videoID
      {
        assert ids[k] in ids && IsCommentOf(View(), ids[k], videoID);
        if ids[k] in comments {
          res := res + [comments[ids[k]]];
        }
      }
      err := NoError;
    }

    method ListVideos(maxID: int, limit: int) returns (res: seq<Video>)
      requires Valid()
      ensures IsVideoPage(View(), res, Page(Selected(View(), All), maxID, ClampLimit(limit)))
      ensures ListsNewest(videos, videos.Keys, maxID, if limit <= 0 || limit > 50 then 10 else limit, res)
    {
      res := ListSelected(All, maxID, ClampLimit(limit));
    }

    method ListUserVideos(authorID: int, maxID: int, limit: int) returns (res: seq<Video>, err: Error)
      requires Valid()
      ensures err == if authorID in users then NoError else NotFound
      ensures err == NoError ==>
                IsVideoPage(View(), res, Page(Selected(View(), By(authorID)), maxID, ClampLimit(limit)))
      ensures err == NoError ==>
                ListsNewest(videos, (set id | id in videos && videos[id].authorID == authorID), maxID,
                            if limit <= 0 || limit > 50 then 10 else limit, res)
    {
      if authorID !in users { return [], NotFound; }
      res := ListSelected(By(authorID), maxID, ClampLimit(limit));
      err := NoError;
    }

    method FollowingFeed(userID: int, maxID: int, limit: int) returns (res: seq<Video>, err: Error)
      requires Valid()
      ensures err == if userID in users then NoError else NotFound
      ensures err == NoError ==>
                IsVideoPage(View(), res, Page(Selected(View(), FollowedBy(userID)), maxID, ClampLimit(limit)))
      ensures err == NoError ==>
                ListsNewest(videos, (set id | id in videos && videos[id].authorID in SetOf(following, userID)), maxID,
                            if limit <= 0 || limit > 50 then 10 else limit, res)
    {
      if userID !in users { return [], NotFound; }
      res := ListSelected(FollowedBy(userID), maxID, ClampLimit(limit));
      err := NoError;
    }

    /** The common part of the three list methods: filter, sort by ID descending, truncate. */
    method ListSelected(sel: Selection, maxID: int, limit: nat) returns (res: seq<Video>)
      requires Valid()
      ensures IsVideoPage(View(), res, Page(Selected(View(), sel), maxID, limit))
      ensures ListsNewest(videos, Selected(View(), sel).Keys, maxID, limit, res)
    {
      ghost var range := Below(Selected(View(), sel), maxID);
      var matched := Matching(View(), sel, maxID);
      ListingUnique(matched, Listing(range), range);
      var page := Take(matched, limit);
      res := [];
      for i := 0 to |page|
        invariant |res| == i && forall j | 0 <= j < i :: page[j].id in videos && res[j] == videos[page[j].id]
      {
        ListingAt(matched, range, i);
        res := res + [videos[page[i].id]];
      }
      PageIsNewest(View(), sel, maxID, limit, res);
    }

    method ListFollowers(authorID: int, cursor: int, limit: nat) returns (ids: seq<int>, next: int)
      requires Valid() && limit > 0
      ensures Followers.IsFollowerPage(SetOf(followers, authorID), cursor, limit, ids, next)
    {
      ids, next := Followers.ListFollowers(SetOf(followers, authorID), cursor, limit);
    }
  }
}
