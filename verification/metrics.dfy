/**
 * `collect_metrics` (app/core/metrics.py): the heartbeat's health record.
 * The database pool, the connection test and the Redis ping are outside
 * the model; what each probe did is an input. The record is the metrics
 * dictionary, one field per key; `Absent` marks a key the run never set.
 */
module Metrics {
  import opened Text

  const UP := "UP"
  const DOWN := "DOWN"

  /** A key of the metrics dictionary: never set, or set to a value (which may itself be None). */
  datatype Field<T> = Absent | Present(value: T)

  /** `db_connections`. */
  datatype PoolStats = PoolStats(checkedOut: int, checkedIn: int, overflow: int, poolSize: int)

  /**
   * What the database probe saw: no engine; a pool whose statistics could
   * not be read; or the pool's statistics and the outcome of the
   * `SELECT 1` connection test (None when it succeeded, else the error).
   */
  datatype DbProbe =
    | NoEngine
    | PoolRaised(error: string)
    | Pool(checkedOut: int, poolSize: int, overflow: int, connectError: Option<string>)

  /** What the Redis probe saw: no client; a ping answer and its latency; or the ping's exception. */
  datatype RedisProbe = NoRedis | Ping(pong: bool, latencyMs: int) | PingRaised(error: string)

  datatype HealthMetrics = HealthMetrics(
    timestamp: string,
    uptimeSeconds: int,
    dbConnections: Field<Option<PoolStats>>,
    dbStatus: string,
    dbError: Field<string>,
    redisLatencyMs: Field<Option<int>>,
    redisStatus: string,
    redisError: Field<string>,
    taskQueueLength: int,
    status: string)

  /** The overall status from the two component statuses. */
  function OverallStatus(dbStatus: string, redisStatus: string): (r: string)
    ensures r == "down" <==> dbStatus == DOWN && redisStatus == DOWN
    ensures r == "degraded" <==> (dbStatus == DOWN) != (redisStatus == DOWN)
    ensures r == "healthy" <==> dbStatus != DOWN && redisStatus != DOWN
  {
    if dbStatus == DOWN && redisStatus == DOWN then "down"
    else if dbStatus == DOWN || redisStatus == DOWN then "degraded"
    else "healthy"
  }

  /** `collect_metrics(redis)`: the record filled key by key, the DB section first, then Redis. */
  method CollectMetrics(db: DbProbe, redis: RedisProbe, timestamp: string, uptimeSeconds: int) returns (m: HealthMetrics)
    ensures m.timestamp == timestamp && m.uptimeSeconds == uptimeSeconds
    ensures db.NoEngine? ==> m.dbStatus == DOWN && m.dbConnections == Present(None) && m.dbError == Absent
    ensures db.PoolRaised? ==> m.dbStatus == DOWN && m.dbConnections == Absent && m.dbError == Present(db.error)
    ensures db.Pool? ==>
      && m.dbConnections == Present(Some(PoolStats(db.checkedOut, db.poolSize - db.checkedOut, db.overflow, db.poolSize)))
      && (db.connectError.None? ==> m.dbStatus == UP && m.dbError == Absent)
      && (db.connectError.Some? ==> m.dbStatus == DOWN && m.dbError == Present(db.connectError.value))
    ensures redis.NoRedis? ==> m.redisStatus == DOWN && m.redisLatencyMs == Present(None) && m.redisError == Absent
    ensures redis.Ping? ==>
      && m.redisLatencyMs == Present(Some(redis.latencyMs)) && m.redisError == Absent
      && (m.redisStatus == UP <==> redis.pong) && (m.redisStatus == DOWN <==> !redis.pong)
    ensures redis.PingRaised? ==> m.redisStatus == DOWN && m.redisLatencyMs == Absent && m.redisError == Present(redis.error)
    ensures m.dbConnections.Present? && m.dbConnections.value.Some? ==>
      m.dbConnections.value.value.checkedIn == m.dbConnections.value.value.poolSize - m.dbConnections.value.value.checkedOut
    ensures m.taskQueueLength == 0
    ensures m.status == OverallStatus(m.dbStatus, m.redisStatus)
  {
    m := HealthMetrics(timestamp, uptimeSeconds, Absent, "", Absent, Absent, "", Absent, 0, "");
    // the database section
    match db {
      case Pool(checkedOut, poolSize, overflow, connectError) =>
        m := m.(dbConnections := Present(Some(PoolStats(checkedOut, poolSize - checkedOut, overflow, poolSize))));
        if connectError.None? {
          m := m.(dbStatus := UP);
        } else {
          m := m.(dbStatus := DOWN, dbError := Present(connectError.value));
        }
      case NoEngine =>
        m := m.(dbStatus := DOWN, dbConnections := Present(None));
      case PoolRaised(e) =>
        m := m.(dbStatus := DOWN, dbError := Present(e));
    }
    // the Redis section
    match redis {
      case Ping(pong, latency) =>
        m := m.(redisLatencyMs := Present(Some(latency)), redisStatus := if pong then UP else DOWN);
      case NoRedis =>
        m := m.(redisStatus := DOWN, redisLatencyMs := Present(None));
      case PingRaised(e) =>
        m := m.(redisStatus := DOWN, redisError := Present(e));
    }
    m := m.(taskQueueLength := 0);
    if m.dbStatus == DOWN && m.redisStatus == DOWN {
      m := m.(status := "down");
    } else if m.dbStatus == DOWN || m.redisStatus == DOWN {
      m := m.(status := "degraded");
    } else {
      m := m.(status := "healthy");
    }
  }
}
