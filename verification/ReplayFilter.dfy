/** The replay filter of process/replay.go: twenty-four hourly buckets that shift with the clock,
    and the unbounded log of accepted (hash, hour) pairs that they stand for. */
module ReplayFilter {
  import opened Basics

  const NUM_BUCKETS: int := 24

  /** process/replay.go:21-23 */
  function Hours(unix: int): int {
    TruncDiv(TruncDiv(unix, 60), 60)
  }

  /** Every (hash, hour) pair ever accepted. */
  type Log = set<(Digest, int)>

  /** What the filter has to decide, with unlimited memory. */
  predicate Fresh(log: Log, hash: Digest, timestamp: int, now: int) {
    var t := Hours(timestamp);
    Hours(now) - 12 <= t <= Hours(now) + 11 && (hash, t) !in log
  }

  function Record(log: Log, hash: Digest, timestamp: int, now: int): Log {
    if Fresh(log, hash, timestamp, now) then log + {(hash, Hours(timestamp))} else log
  }

  /** An hour has 3600 seconds; times before the epoch are cut toward it. */
  lemma HoursMeans(x: int)
    ensures x >= 0 ==> 3600 * Hours(x) <= x < 3600 * (Hours(x) + 1) && Hours(x) == x / 3600
    ensures x <= 0 ==> 3600 * (Hours(x) - 1) < x <= 3600 * Hours(x)
  {
  }

  /** The decision and the record in seconds. */
  lemma FreshInSeconds(log: Log, hash: Digest, timestamp: int, now: int)
    ensures timestamp >= 0 && now >= 0 ==>
      var ok := now / 3600 - 12 <= timestamp / 3600 <= now / 3600 + 11 && (hash, timestamp / 3600) !in log;
      && Fresh(log, hash, timestamp, now) == ok
      && Record(log, hash, timestamp, now) == if ok then log + {(hash, timestamp / 3600)} else log
  {
    hide Hours;
    HoursMeans(timestamp);
    HoursMeans(now);
  }

  /** A hash never accepted before passes within eleven hours of its time, in either direction; nothing
      passes that is more than thirteen hours old or more than twelve hours ahead. */
  lemma AcceptanceWindow(log: Log, hash: Digest, timestamp: int, now: int)
    ensures (forall hour :: (hash, hour) !in log) && -11 * 3600 <= timestamp - now <= 11 * 3600 ==>
      Fresh(log, hash, timestamp, now)
    ensures timestamp >= 0 && now >= 0 && !(-13 * 3600 <= timestamp - now <= 12 * 3600) ==>
        !Fresh(log, hash, timestamp, now)
  {
    hide Hours;
    HoursMeans(timestamp);
    HoursMeans(now);
  }

  type Bucket = map<Digest, int>

  class Filter {
    const buckets: array<Bucket>
    var lasttime: int
    /** The unbounded log, and whether the filter has been used (it starts with nil maps). */
    ghost var log: Log
    ghost var used: bool

    /** Bucket i holds the hashes accepted for hour lasttime - 12 + i. */
    ghost predicate Valid()
      reads this, buckets
    {
      && buckets.Length == NUM_BUCKETS
      && (!used ==> log == {} && lasttime == 0)
      && (used ==>
            forall i, h :: 0 <= i < NUM_BUCKETS ==>
              (h in buckets[i] <==> (h, lasttime - 12 + i) in log))
      && (forall p :: p in log ==> p.1 <= lasttime + 11)
    }

    constructor ()
      ensures Valid() && log == {} && !used && lasttime == 0 && fresh(buckets)
    {
      buckets := new Bucket[NUM_BUCKETS](_ => map[]);
      lasttime, log, used := 0, {}, false;
    }

    /** process/replay.go:50-56: one hour passes, one bucket is dropped. */
    method Shift()
      requires buckets.Length == NUM_BUCKETS
      modifies this`lasttime, buckets
      ensures lasttime == old(lasttime) + 1
      ensures forall i :: 0 <= i < NUM_BUCKETS - 1 ==> buckets[i] == old(buckets[i + 1])
      ensures buckets[NUM_BUCKETS - 1] == map[]
    {
      for i := 0 to NUM_BUCKETS - 1
        invariant lasttime == old(lasttime)
        invariant forall j :: 0 <= j < i ==> buckets[j] == old(buckets[j + 1])
        invariant forall j :: i <= j < NUM_BUCKETS ==> buckets[j] == old(buckets[j])
      {
        buckets[i] := buckets[i + 1];
      }
      buckets[NUM_BUCKETS - 1] := map[];
      lasttime := lasttime + 1;
    }

    /** process/replay.go:44-56: bring the window up to hour `now`. */
    method Advance(now: int)
      requires Valid()
      requires lasttime <= now
      requires !used ==> NUM_BUCKETS <= now
      modifies this, buckets
      ensures Valid() && used && lasttime == now && log == old(log)
    {
      if now - lasttime > NUM_BUCKETS {
        lasttime := now - NUM_BUCKETS;
      }
      // After a day or more nothing old can matter; otherwise the window is right at every hour.
      ghost var gap := now - old(lasttime) >= NUM_BUCKETS;
      while lasttime < now
        invariant log == old(log) && used == old(used)
        invariant now - NUM_BUCKETS <= lasttime <= now
        invariant gap ==> forall i :: now - lasttime <= i < NUM_BUCKETS ==> buckets[i] == map[]
        invariant !gap ==> old(lasttime) <= lasttime
        invariant !gap ==> forall i, h :: 0 <= i < NUM_BUCKETS ==>
          (h in buckets[i] <==> (h, lasttime - 12 + i) in log)
      {
        Shift();
      }
      used := true;
    }

    /** process/replay.go:37-75. The clock must not run backwards, and its first reading must be at
        least a day after the epoch, before which the buckets are nil maps. */
    method IsTSValid(hash: Digest, timestamp: int, now0: int) returns (ok: bool)
      requires Valid()
      requires lasttime <= Hours(now0)
      requires !used ==> NUM_BUCKETS <= Hours(now0)
      modifies this, buckets
      ensures Valid() && used && lasttime == Hours(now0)
      ensures ok == Fresh(old(log), hash, timestamp, now0)
      ensures log == Record(old(log), hash, timestamp, now0)
      ensures timestamp >= 0 && now0 >= 0 ==>
        && ok == (now0 / 3600 - 12 <= timestamp / 3600 <= now0 / 3600 + 11 && (hash, timestamp / 3600) !in old(log))
        && log == if ok then old(log) + {(hash, timestamp / 3600)} else old(log)
    {
      hide Hours;
      FreshInSeconds(log, hash, timestamp, now0);
      var now := Hours(now0);
      Advance(now);
      var t := Hours(timestamp);
      var index := t - now + NUM_BUCKETS / 2;
      if index < 0 || index >= NUM_BUCKETS {
        return false;
      }
      if hash in buckets[index] {
        return false;
      }
      buckets[index] := buckets[index][hash := t];
      log := log + {(hash, t)};
      return true;
    }
  }

  // ---------------------------------------------------------------- whole runs

  /** One call of the filter: what is asked, at what time. */
  datatype Query = Query(hash: Digest, timestamp: int, now: int)

  function LogAfter(qs: seq<Query>): Log {
    if qs == [] then {}
    else
      var q := qs[|qs| - 1];
      Record(LogAfter(qs[..|qs| - 1]), q.hash, q.timestamp, q.now)
  }

  predicate Accepted(qs: seq<Query>, i: nat)
    requires i < |qs|
  {
    Fresh(LogAfter(qs[..i]), qs[i].hash, qs[i].timestamp, qs[i].now)
  }

  lemma {:induction false} AcceptedIsLogged(qs: seq<Query>, i: nat)
    requires i < |qs| && Accepted(qs, i)
    ensures (qs[i].hash, Hours(qs[i].timestamp)) in LogAfter(qs)
    decreases |qs|
  {
    var n := |qs| - 1;
    if i < n {
      assert qs[..n][..i] == qs[..i];
      AcceptedIsLogged(qs[..n], i);
    }
  }

  /** Over a whole run no pair is accepted twice, however far apart the two calls are. */
  lemma NeverTwice(qs: seq<Query>, i: nat, j: nat)
    requires i < j < |qs| && Accepted(qs, i) && Accepted(qs, j)
    ensures (qs[i].hash, Hours(qs[i].timestamp)) != (qs[j].hash, Hours(qs[j].timestamp))
    ensures qs[i].hash == qs[j].hash && qs[i].timestamp >= 0 && qs[j].timestamp >= 0 ==>
      qs[i].timestamp / 3600 != qs[j].timestamp / 3600
  {
    assert qs[..j][..i] == qs[..i];
    AcceptedIsLogged(qs[..j], i);
    HoursMeans(qs[i].timestamp);
    HoursMeans(qs[j].timestamp);
  }
}
