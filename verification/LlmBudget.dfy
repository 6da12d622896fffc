/** The shared daily budget of cloud calls. */
module LlmBudget {
  import opened Common
  import opened LlmTypes
  import opened Redis

  /** Lifetime given to a day's counter when it is created. */
  const COUNTER_TTL: nat := 2 * DAY

  /** Clock readings and faults met by one charge: when the date is read for the key, and when INCR and EXPIRE run. */
  datatype ChargeEnv = ChargeEnv(dateAt: nat, incrAt: nat, incrFails: bool, expireAt: nat, expireFails: bool)

  function Charge(limit: int, store: Store, env: ChargeEnv): (Result<(), LlmError>, Store) {
    var day := DayOf(env.dateAt);
    if env.incrFails then (Err(RedisUnavailable), store)
    else
      var counted := Incr(store, day, env.incrAt);
      var count := Counter(counted, day, env.incrAt);
      if count == 1 && env.expireFails then (Err(RedisUnavailable), counted)
      else
        var kept := if count == 1 then Expire(counted, day, env.expireAt, COUNTER_TTL) else counted;
        (if count > limit then Err(BudgetExceeded) else Ok(()), kept)
  }

  class DailyCallBudget {
    const redis: RedisServer
    const limit: int

    constructor (redis: RedisServer, limit: int)
      ensures this.redis == redis && this.limit == limit
    {
      this.redis := redis;
      this.limit := limit;
    }

    /** Counts one call against today's budget and raises when the budget is spent. */
    method Consume(env: ChargeEnv) returns (charged: Result<(), LlmError>)
      modifies redis
      ensures (charged, redis.store) == Charge(limit, old(redis.store), env)
    {
      var day := DayOf(env.dateAt);
      var count := redis.DoIncr(day, env.incrAt, env.incrFails);
      if count.Err? {
        return Err(count.error);
      }
      if count.value == 1 {
        var expired := redis.DoExpire(day, env.expireAt, COUNTER_TTL, env.expireFails);
        if expired.Err? {
          return Err(expired.error);
        }
      }
      if count.value > limit {
        return Err(BudgetExceeded);
      }
      charged := Ok(());
    }
  }
}
