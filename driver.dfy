/**
 * One load-test run: the staggered start of `numUsers` sessions, the
 * flattening of their result pairs, and the statistics of the run.
 */
module Driver {
  import opened Outcome
  import opened Session
  import opened Stats

  /** When user `userId` of `numUsers` starts, in seconds after dispatch: spread linearly over the
      ramp-up window when there is a window and more than one user, otherwise immediately. */
  function StartDelay(userId: nat, numUsers: nat, rampUp: real): real
  {
    if rampUp > 0.0 && numUsers > 1 then (userId as real / (numUsers - 1) as real) * rampUp else 0.0
  }

  /** The first user starts at once and the last at the end of the window. */
  lemma StartDelayEnds(numUsers: nat, rampUp: real)
    requires rampUp > 0.0 && numUsers > 1
    ensures StartDelay(0, numUsers, rampUp) == 0.0
    ensures StartDelay(numUsers - 1, numUsers, rampUp) == rampUp
  {
    assert (numUsers - 1) as real / (numUsers - 1) as real == 1.0;
  }

  /** Every user starts within the window; without a window (or with one user) all start at 0. */
  lemma StartDelayBounds(userId: nat, numUsers: nat, rampUp: real)
    requires userId < numUsers
    ensures rampUp > 0.0 ==> 0.0 <= StartDelay(userId, numUsers, rampUp) <= rampUp
    ensures rampUp <= 0.0 || numUsers <= 1 ==> StartDelay(userId, numUsers, rampUp) == 0.0
  {
    if rampUp > 0.0 && numUsers > 1 {
      var f := userId as real / (numUsers - 1) as real;
      assert 0.0 <= f <= 1.0;
      ScaleWithin(f, rampUp);
      assert StartDelay(userId, numUsers, rampUp) == f * rampUp;
    }
  }

  lemma ScaleWithin(f: real, x: real)
    requires 0.0 <= f <= 1.0 && x > 0.0
    ensures 0.0 <= f * x <= x
  {
    assert x - f * x == (1.0 - f) * x;
  }

  /** Start delays never decrease with the user id. */
  lemma StartDelayMonotone(i: nat, j: nat, numUsers: nat, rampUp: real)
    requires i <= j < numUsers
    ensures StartDelay(i, numUsers, rampUp) <= StartDelay(j, numUsers, rampUp)
  {
    if rampUp > 0.0 && numUsers > 1 {
      var n := (numUsers - 1) as real;
      var fi, fj := i as real / n, j as real / n;
      assert fj - fi == (j - i) as real / n;
      assert fj * rampUp - fi * rampUp == (fj - fi) * rampUp;
    }
  }

  /** Five users over four seconds start one second apart. */
  lemma StartDelayExample()
    ensures StartDelay(0, 5, 4.0) == 0.0
    ensures StartDelay(2, 5, 4.0) == 2.0
    ensures StartDelay(4, 5, 4.0) == 4.0
  {
    assert 2.0 / 4.0 * 4.0 == 2.0;
    assert 4.0 / 4.0 * 4.0 == 4.0;
  }

  /** A scheduled session: which user, after what delay. */
  datatype Task = Task(userId: nat, delay: real)

  /** The task-creation loop of `run_load_test`. */
  method PlanTasks(numUsers: nat, rampUp: real) returns (tasks: seq<Task>)
    ensures |tasks| == numUsers
    ensures forall i :: 0 <= i < numUsers ==> tasks[i] == Task(i, StartDelay(i, numUsers, rampUp))
  {
    tasks := [];
    var userId := 0;
    while userId < numUsers
      invariant 0 <= userId <= numUsers
      invariant |tasks| == userId
      invariant forall i :: 0 <= i < userId ==> tasks[i] == Task(i, StartDelay(i, numUsers, rampUp))
    {
      var delay: real;
      if rampUp > 0.0 && numUsers > 1 {
        delay := (userId as real / (numUsers - 1) as real) * rampUp;
      } else {
        delay := 0.0;
      }
      tasks := tasks + [Task(userId, delay)];
      userId := userId + 1;
    }
  }

  /** The concatenation of the sessions' record lists, in session order. */
  function Flatten(rss: seq<seq<Record>>): seq<Record>
  {
    if rss == [] then [] else Flatten(rss[..|rss| - 1]) + rss[|rss| - 1]
  }

  /** `for user_results in results: test_results.extend(user_results)`. */
  method CollectResults(results: seq<seq<Record>>) returns (testResults: seq<Record>)
    ensures testResults == Flatten(results)
  {
    testResults := [];
    var i := 0;
    while i < |results|
      invariant 0 <= i <= |results|
      invariant testResults == Flatten(results[..i])
    {
      assert results[..i + 1][..i] == results[..i];
      testResults := testResults + results[i];
      i := i + 1;
    }
    assert results[..i] == results;
  }

  /** Sessions of exactly two records flatten to twice as many records, session `i` occupying
      positions `2i` and `2i+1`. */
  lemma {:induction false} FlattenPairs(rss: seq<seq<Record>>)
    requires forall i :: 0 <= i < |rss| ==> |rss[i]| == 2
    ensures |Flatten(rss)| == 2 * |rss|
    ensures forall i :: 0 <= i < |rss| ==> Flatten(rss)[2 * i] == rss[i][0] && Flatten(rss)[2 * i + 1] == rss[i][1]
  {
    if rss != [] {
      var init := rss[..|rss| - 1];
      assert forall i :: 0 <= i < |init| ==> init[i] == rss[i];
      FlattenPairs(init);
      assert Flatten(rss) == Flatten(init) + rss[|rss| - 1];
    }
  }

  lemma {:induction false} FilterConcat(a: seq<Record>, b: seq<Record>, e: string)
    ensures Filter(a + b, e) == Filter(a, e) + Filter(b, e)
  {
    if b != [] {
      var init := b[..|b| - 1];
      var x := b[|b| - 1];
      assert b == init + [x];
      assert a + b == (a + init) + [x];
      FilterConcat(a, init, e);
      FilterSnoc(a + init, x, e);
      FilterSnoc(init, x, e);
      var fx := if x.endpoint == e then [x] else [];
      calc {
        Filter(a + b, e);
        Filter((a + init) + [x], e);
        Filter(a + init, e) + fx;
        (Filter(a, e) + Filter(init, e)) + fx;
        Filter(a, e) + (Filter(init, e) + fx);
        Filter(a, e) + Filter(init + [x], e);
      }
    } else {
      assert a + b == a;
    }
  }

  /** When every session leads with one record of endpoint `e` and follows with one of another
      endpoint, the group of `e` has one record per session. */
  lemma {:induction false} FilterLeadingPairs(rss: seq<seq<Record>>, e: string)
    requires forall i :: 0 <= i < |rss| ==> |rss[i]| == 2 && rss[i][0].endpoint == e && rss[i][1].endpoint != e
    ensures |Filter(Flatten(rss), e)| == |rss|
  {
    if rss != [] {
      var init := rss[..|rss| - 1];
      var last := rss[|rss| - 1];
      assert forall i :: 0 <= i < |init| ==> init[i] == rss[i];
      FilterLeadingPairs(init, e);
      FilterConcat(Flatten(init), last, e);
      assert last == [last[0]] + [last[1]];
      FilterConcat([last[0]], [last[1]], e);
      FilterSnoc([], last[0], e);
      FilterSnoc([], last[1], e);
    }
  }

  /** The environment of a run: the reply to the pre-populating fetch, each user's catalog reply,
      the server's answer to a signup (by path and e-mail), and the measured call durations. */
  datatype Network = Network(
    prefetch: CatalogReply,
    catalog: nat -> CatalogReply,
    signup: (string, string) -> SignupReply,
    fetchTime: nat -> real,
    signupTime: nat -> real)

  /** The cached list after the first `n` sessions of `tasks` ran in order, starting from
      `start`. */
  function CacheAfter(start: seq<string>, tasks: seq<Task>, n: nat, net: Network): seq<string>
    requires n <= |tasks|
  {
    if n == 0 then start else Refresh(CacheAfter(start, tasks, n - 1, net), net.catalog(tasks[n - 1].userId))
  }

  /** A list that is already filled stays what it is through any number of sessions. */
  lemma {:induction false} CacheAfterKeeps(start: seq<string>, tasks: seq<Task>, n: nat, net: Network)
    requires start != [] && n <= |tasks|
    ensures CacheAfter(start, tasks, n, net) == start
  {
    if n > 0 {
      CacheAfterKeeps(start, tasks, n - 1, net);
    }
  }

  /** The two records of user `u`'s session when its fetch left the cached list as `activities`:
      the catalog record, then the signup record for the activity the user picks from that list. */
  function SessionRecords(u: nat, runId: nat, activities: seq<string>, net: Network): seq<Record>
  {
    var name := SelectActivity(activities, u);
    [FetchRecord(u, net.catalog(u), net.fetchTime(u)),
     SignupRecord(name, u, net.signup(SignupPath(name), Email(u, runId)), net.signupTime(u))]
  }

  /** The record pairs of the sessions of `tasks`, run in order from the cached list `start`:
      session `k` is the pair of task `k`'s user, who reads the list as the first `k + 1`
      fetches left it. */
  function Sessions(start: seq<string>, tasks: seq<Task>, runId: nat, net: Network): (rss: seq<seq<Record>>)
    ensures |rss| == |tasks|
  {
    seq(|tasks|, k requires 0 <= k < |tasks| =>
      SessionRecords(tasks[k].userId, runId, CacheAfter(start, tasks, k + 1, net), net))
  }

  /** A session leads with one catalog record of its user and follows with one signup record of
      the same user, whatever list its fetch left. */
  lemma SessionRecordsLead(u: nat, runId: nat, activities: seq<string>, net: Network)
    ensures var rs := SessionRecords(u, runId, activities, net);
      |rs| == 2 && rs[0].endpoint == CatalogEndpoint && rs[1].endpoint != CatalogEndpoint &&
      rs[0].userId == u && rs[1].userId == u
  {
    SignupEndpointMentionsSignup(SelectActivity(activities, u));
  }

  /** Every session of a run leads with its catalog record and follows with a signup record. */
  lemma SessionsLead(start: seq<string>, tasks: seq<Task>, runId: nat, net: Network)
    ensures forall k :: 0 <= k < |tasks| ==>
      var rs := Sessions(start, tasks, runId, net)[k];
      |rs| == 2 && rs[0].endpoint == CatalogEndpoint && rs[1].endpoint != CatalogEndpoint
  {
    forall k | 0 <= k < |tasks|
      ensures var rs := Sessions(start, tasks, runId, net)[k];
        |rs| == 2 && rs[0].endpoint == CatalogEndpoint && rs[1].endpoint != CatalogEndpoint
    {
      var activities := CacheAfter(start, tasks, k + 1, net);
      assert Sessions(start, tasks, runId, net)[k] == SessionRecords(tasks[k].userId, runId, activities, net);
      SessionRecordsLead(tasks[k].userId, runId, activities, net);
    }
  }

  /** The loop step of `RunSessions`: after task `i`, the list is that of the first `i + 1`
      tasks, and the session's records are session `i` of the run. */
  lemma SessionsGrow(start: seq<string>, tasks: seq<Task>, i: nat, runId: nat, net: Network,
                     before: seq<string>, after: seq<string>, rs: seq<Record>)
    requires i < |tasks| && before == CacheAfter(start, tasks, i, net)
    requires after == Refresh(before, net.catalog(tasks[i].userId))
    requires rs == SessionRecords(tasks[i].userId, runId, after, net)
    ensures after == CacheAfter(start, tasks, i + 1, net)
    ensures Sessions(start, tasks, runId, net)[i] == rs
  {
    var all := Sessions(start, tasks, runId, net);
    var activities := CacheAfter(start, tasks, i + 1, net);
    assert activities == after;
    assert all[i] == SessionRecords(tasks[i].userId, runId, activities, net);
  }

  /** The sessions of the planned tasks, run in task order (one interleaving of the concurrent
      sessions). */
  method RunSessions(cache: ActivityCache, tasks: seq<Task>, runId: nat, net: Network)
    returns (results: seq<seq<Record>>)
    modifies cache
    ensures cache.activities == CacheAfter(old(cache.activities), tasks, |tasks|, net)
    ensures results == Sessions(old(cache.activities), tasks, runId, net)
  {
    ghost var start := cache.activities;
    ghost var all := Sessions(start, tasks, runId, net);
    results := [];
    var i := 0;
    while i < |tasks|
      invariant 0 <= i <= |tasks|
      invariant cache.activities == CacheAfter(start, tasks, i, net)
      invariant results == all[..i]
    {
      var u := tasks[i].userId;
      ghost var before := cache.activities;
      var rs := cache.SimulateUserSession(u, runId, net.catalog(u), net.signup, net.fetchTime(u), net.signupTime(u));
      SessionsGrow(start, tasks, i, runId, net, before, cache.activities, rs);
      assert all[..i + 1] == all[..i] + [rs];
      results := results + [rs];
      i := i + 1;
    }
    assert all[..i] == all;
  }

  /** `run_load_test`: pre-populate the cache, plan the staggered tasks, run every session, flatten
      the pairs and compute the statistics. The flattened records are a ghost result. */
  method RunLoadTest(cache: ActivityCache, numUsers: nat, rampUp: real, runId: nat, net: Network, totalTime: real)
    returns (tasks: seq<Task>, stats: RunStats, ghost testResults: seq<Record>)
    requires totalTime != 0.0
    modifies cache
    ensures |tasks| == numUsers
    ensures forall i :: 0 <= i < numUsers ==> tasks[i] == Task(i, StartDelay(i, numUsers, rampUp))
    ensures var start := Refresh(old(cache.activities), net.prefetch);
      cache.activities == CacheAfter(start, tasks, numUsers, net) &&
      testResults == Flatten(Sessions(start, tasks, runId, net))
    ensures old(cache.activities) != [] ==> cache.activities == old(cache.activities)
    ensures |testResults| == 2 * numUsers
    ensures stats.totalRequests == |testResults| && stats.concurrentUsers == numUsers
    ensures stats.testDuration == totalTime && stats.requestsPerSecond == (2 * numUsers) as real / totalTime
    ensures stats.successRate == CalculateSuccessRate(testResults)
    ensures forall k :: k in stats.endpoints <==> Filter(testResults, k) != []
    ensures forall k :: k in stats.endpoints ==> stats.endpoints[k] == Summarize(k, Filter(testResults, k))
    ensures numUsers > 0 ==> CatalogEndpoint in stats.endpoints && stats.endpoints[CatalogEndpoint].requests == numUsers
  {
    ghost var start := Refresh(cache.activities, net.prefetch);
    var prefetched := cache.FetchActivities(0, net.prefetch, net.fetchTime(0));
    tasks := PlanTasks(numUsers, rampUp);
    var results := RunSessions(cache, tasks, runId, net);
    SessionsLead(start, tasks, runId, net);
    if old(cache.activities) != [] {
      CacheAfterKeeps(start, tasks, numUsers, net);
    }
    var flat := CollectResults(results);
    testResults := flat;
    FlattenPairs(results);
    stats := ProcessResults(flat, totalTime, numUsers);
    if numUsers > 0 {
      FilterLeadingPairs(results, CatalogEndpoint);
      EndpointsListed(flat, CatalogEndpoint);
    }
  }
}
