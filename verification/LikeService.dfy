/** One like or unlike call, start to end (internal/like/service.go). */
module LikeService {
  import opened Collections
  import opened LikeKeys
  import opened LikeCounters
  import opened LikeEvents
  import LM = LikeMachine

  class Service {
    const redis: Redis
    const counter: CounterAggregator?
    var published: seq<LikeEvent>

    constructor (redis: Redis, counter: CounterAggregator?)
      ensures this.redis == redis && this.counter == counter && published == []
    {
      this.redis, this.counter := redis, counter;
      published := [];
    }

    /** The machine's state s shows what this service, its Redis and its aggregator hold. */
    ghost predicate Shows(s: LM.State)
      reads this, redis, counter
    {
      && redis.gate == s.gate && redis.counters == s.counters && published == s.events
      && s.aggregated == (counter != null)
      && (counter != null ==> counter.deltas == s.deltas)
    }

    /** Publishing is best effort: a failure is ignored. */
    method Publish(e: LikeEvent, fails: bool)
      modifies this`published
      ensures published == if fails then old(published) else old(published) + [e]
    {
      if !fails { published := published + [e]; }
    }

    /** A call that reports an error leaves gate and counters as they were, provided its rollback
        got through; a call that changes nothing touches nothing. */
    method Like(uid: int, vid: int, gateFails: bool, countFails: bool, rollbackFails: bool, publishFails: bool,
                now: int)
      returns (changed: bool, err: bool)
      modifies this`published, redis, counter
      ensures err <==> gateFails || ((uid, vid) !in old(redis.gate) && counter == null && countFails)
      ensures changed <==> !err && (uid, vid) !in old(redis.gate)
      ensures redis.gate == if changed || (err && !gateFails && rollbackFails)
                            then old(redis.gate) + {(uid, vid)} else old(redis.gate)
      ensures redis.counters == if changed && counter == null
                                then Bump(old(redis.counters), HomeKey(vid), 1) else old(redis.counters)
      ensures counter != null ==>
                counter.deltas == if changed then Bump(old(counter.deltas), vid, 1) else old(counter.deltas)
      ensures published == if changed && !publishFails
                           then old(published) + [LikeEvent(uid, vid, Action.Like, now)] else old(published)
    {
      var added, saddErr := redis.SAdd(uid, vid, gateFails);
      if saddErr { return false, true; }
      if added == 0 {
        assert redis.gate == old(redis.gate);
        return false, false;
      }
      if counter != null {
        counter.Add(vid, 1);
      } else {
        var incrErr := redis.IncrBy(ShardKey(vid, GoMod(vid, COUNTER_SHARDS)), 1, countFails);
        if incrErr {
          var _, _ := redis.SRem(uid, vid, rollbackFails);
          assert !rollbackFails ==> redis.gate == old(redis.gate);
          return false, true;
        }
      }
      Publish(LikeEvent(uid, vid, Action.Like, now), publishFails);
      return true, false;
    }

    method Unlike(uid: int, vid: int, gateFails: bool, countFails: bool, rollbackFails: bool, publishFails: bool,
                  now: int)
      returns (changed: bool, err: bool)
      modifies this`published, redis, counter
      ensures err <==> gateFails || ((uid, vid) in old(redis.gate) && counter == null && countFails)
      ensures changed <==> !err && (uid, vid) in old(redis.gate)
      ensures redis.gate == if changed || (err && !gateFails && rollbackFails)
                            then old(redis.gate) - {(uid, vid)} else old(redis.gate)
      ensures redis.counters == if changed && counter == null
                                then Bump(old(redis.counters), HomeKey(vid), -1) else old(redis.counters)
      ensures counter != null ==>
                counter.deltas == if changed then Bump(old(counter.deltas), vid, -1) else old(counter.deltas)
      ensures published == if changed && !publishFails
                           then old(published) + [LikeEvent(uid, vid, Action.Unlike, now)] else old(published)
    {
      var removed, sremErr := redis.SRem(uid, vid, gateFails);
      if sremErr { return false, true; }
      if removed == 0 {
        assert redis.gate == old(redis.gate);
        return false, false;
      }
      if counter != null {
        counter.Add(vid, -1);
      } else {
        var decrErr := redis.IncrBy(ShardKey(vid, GoMod(vid, COUNTER_SHARDS)), -1, countFails);
        if decrErr {
          var _, _ := redis.SAdd(uid, vid, rollbackFails);
          assert !rollbackFails ==> redis.gate == old(redis.gate);
          return false, true;
        }
      }
      Publish(LikeEvent(uid, vid, Action.Unlike, now), publishFails);
      return true, false;
    }

    /** Without interleaving, a call is the machine's run of its commands. */
    method RunCall(ghost s: LM.State, liking: bool, uid: int, vid: int,
                   gateFails: bool, countFails: bool, rollbackFails: bool, publishFails: bool, now: int)
      requires Shows(s)
      modifies this`published, redis, counter
      ensures Shows(LM.Solo(s, liking, uid, vid, gateFails, countFails, rollbackFails, publishFails, now))
    {
      LM.SoloEffect(s, liking, uid, vid, gateFails, countFails, rollbackFails, publishFails, now);
      if liking {
        var _, _ := Like(uid, vid, gateFails, countFails, rollbackFails, publishFails, now);
      } else {
        var _, _ := Unlike(uid, vid, gateFails, countFails, rollbackFails, publishFails, now);
      }
    }

    /** The steps of a flush, each on its own, so that calls and other flushes can come between: the
        aggregator's swap is the machine's, and the batch is the one now in flight. */
    method RunSwap(ghost s: LM.State) returns (batch: Deltas)
      requires counter != null && Shows(s) && counter.deltas.Keys != {}
      modifies counter
      ensures Shows(LM.Apply(s, LM.Swap)) && LM.Apply(s, LM.Swap).batches == s.batches + [batch]
    {
      batch := counter.Swap();
    }

    /** Sending a batch in flight is the machine's successful exec; a failing one changes nothing yet. */
    method RunSend(batch: Deltas, execFails: bool, ghost k: nat, ghost s: LM.State) returns (err: bool)
      requires counter != null && counter.redis == redis && Shows(s)
      requires k < |s.batches| && s.batches[k] == batch
      modifies redis`counters
      ensures err == execFails && Shows(if err then s else LM.Apply(s, LM.ExecOk(k)))
    {
      err := counter.Send(batch, execFails);
    }

    /** Putting an unsent batch back is the machine's failed exec. */
    method RunPutBack(batch: Deltas, ghost k: nat, ghost s: LM.State)
      requires counter != null && Shows(s) && k < |s.batches| && s.batches[k] == batch
      modifies counter
      ensures Shows(LM.Apply(s, LM.ExecErr(k)))
    {
      counter.PutBack(batch);
    }

    /** A whole tick with nothing in between. */
    method RunFlush(execFails: bool, ghost s: LM.State)
      requires counter != null && counter.redis == redis && Shows(s)
      modifies counter, redis`counters
      ensures var k := |s.batches|;
              Shows(LM.Apply(LM.Apply(s, LM.Swap), if execFails then LM.ExecErr(k) else LM.ExecOk(k)))
    {
      FlushNothing(redis.counters, counter.deltas);
      counter.Flush(execFails);
    }
  }
}
