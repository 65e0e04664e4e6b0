/** Events of the like pipeline (internal/like/service.go). */
module LikeEvents {
  datatype Action = Like | Unlike | Other

  datatype LikeEvent = LikeEvent(userID: int, videoID: int, action: Action, tsMilli: int)

  function DeltaOf(a: Action): int {
    match a
    case Like => 1
    case Unlike => -1
    case Other => 0
  }

  /** Net likes of a video in a sequence of events. */
  function NetLikes(es: seq<LikeEvent>, vid: int): int {
    if es == [] then 0
    else
      var e := es[|es| - 1];
      NetLikes(es[..|es| - 1], vid) + (if e.videoID == vid then DeltaOf(e.action) else 0)
  }

  lemma NetLikesAppend(es: seq<LikeEvent>, e: LikeEvent, vid: int)
    ensures NetLikes(es + [e], vid) == NetLikes(es, vid) + (if e.videoID == vid then DeltaOf(e.action) else 0)
  {
    assert (es + [e])[..|es|] == es;
  }
}
