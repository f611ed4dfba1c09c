/** The registry of executors and its heartbeats (orchestrator/manager/executors.go).  Times are in nanoseconds. */
module ExecutorRegistry {

  const HEARTBEAT_FREQUENCY_SECONDS: nat := 5
  const MAX_MISSED_HEARTBEATS: nat := 3
  const HEARTBEAT_FAILURE_NANOS: nat := HEARTBEAT_FREQUENCY_SECONDS * MAX_MISSED_HEARTBEATS * 1_000_000_000

  // ---- The registry as a value

  datatype Member = Member(workers: int, heartbeat: int)

  type Members = map<string, Member>

  datatype Event = Joined(id: string, workers: int) | Beat(id: string) | Swept

  /** An event and the time at which it happens. */
  datatype Timed = Timed(event: Event, at: int)

  predicate Expired(m: Member, now: int) {
    now > m.heartbeat + HEARTBEAT_FAILURE_NANOS
  }

  function Apply(members: Members, t: Timed): Members {
    match t.event
    case Joined(id, workers) => if id in members then members else members[id := Member(workers, t.at)]
    case Beat(id) => if id in members then members[id := members[id].(heartbeat := t.at)] else members
    case Swept => map id | id in members && !Expired(members[id], t.at) :: members[id]
  }

  function After(members: Members, ts: seq<Timed>): Members {
    if ts == [] then members else Apply(After(members, ts[..|ts| - 1]), ts[|ts| - 1])
  }

  /** When the executor last sent a heartbeat, going by the events alone. */
  function LastBeat(id: string, since: int, ts: seq<Timed>): int {
    if ts == [] then since
    else if ts[|ts| - 1].event == Beat(id) then ts[|ts| - 1].at
    else LastBeat(id, since, ts[..|ts| - 1])
  }

  /** The executor is never evicted along the way. */
  ghost predicate Survives(members: Members, id: string, ts: seq<Timed>) {
    forall k :: 0 <= k <= |ts| ==> id in After(members, ts[..k])
  }

  /** Every sweep finds the last heartbeat at most fifteen seconds old. */
  ghost predicate Punctual(id: string, since: int, ts: seq<Timed>) {
    forall k :: 0 <= k < |ts| && ts[k].event.Swept? ==>
      ts[k].at <= LastBeat(id, since, ts[..k]) + 15_000_000_000
  }

  /** A registered executor stays, sweep after sweep, exactly as long as every sweep finds a heartbeat at most
      fifteen seconds old; and while it stays, registering it again changes neither its workers nor its heartbeat. */
  lemma {:induction false} SurvivesIffPunctual(members: Members, id: string, ts: seq<Timed>)
    requires id in members
    ensures Survives(members, id, ts) <==> Punctual(id, members[id].heartbeat, ts)
    ensures Survives(members, id, ts) ==>
              && id in After(members, ts)
              && After(members, ts)[id] == Member(members[id].workers, LastBeat(id, members[id].heartbeat, ts))
    decreases |ts|
  {
    if ts == [] {
      assert ts[..0] == ts;
    } else {
      SurvivesIffPunctual(members, id, ts[..|ts| - 1]);
      SurvivesOneMore(members, id, ts);
      PunctualOneMore(id, members[id].heartbeat, ts);
      hide Survives, Punctual;
    }
  }

  /** An executor that joins anew stays exactly as long as it is punctual from the moment it joined, with the
      workers it joined with; an evicted one has to join again. */
  lemma JoinedSurvivesIffPunctual(members: Members, id: string, workers: int, at: int, ts: seq<Timed>)
    requires id !in members
    ensures var joined := Apply(members, Timed(Joined(id, workers), at));
            && (Survives(joined, id, ts) <==> Punctual(id, at, ts))
            && (Survives(joined, id, ts) ==> id in After(joined, ts) && After(joined, ts)[id].workers == workers)
  {
    hide After, Survives, Punctual;
    SurvivesIffPunctual(Apply(members, Timed(Joined(id, workers), at)), id, ts);
  }

  lemma SurvivesOneMore(members: Members, id: string, ts: seq<Timed>)
    requires ts != []
    ensures Survives(members, id, ts) <==> Survives(members, id, ts[..|ts| - 1]) && id in After(members, ts)
  {
    hide Apply, After;
    var front := ts[..|ts| - 1];
    assert ts[..|ts|] == ts;
    assert forall k :: 0 <= k <= |front| ==> front[..k] == ts[..k];
    if Survives(members, id, front) && id in After(members, ts) {
      forall k | 0 <= k <= |ts|
        ensures id in After(members, ts[..k])
      {
        if k <= |front| {
          assert front[..k] == ts[..k];
        }
      }
    }
    if Survives(members, id, ts) {
      forall k | 0 <= k <= |front|
        ensures id in After(members, front[..k])
      {
        assert front[..k] == ts[..k];
      }
    }
  }

  lemma PunctualOneMore(id: string, since: int, ts: seq<Timed>)
    requires ts != []
    ensures var front, t := ts[..|ts| - 1], ts[|ts| - 1];
            Punctual(id, since, ts) <==>
            && Punctual(id, since, front)
            && (t.event.Swept? ==> t.at <= LastBeat(id, since, front) + 15_000_000_000)
  {
    hide LastBeat;
    var front := ts[..|ts| - 1];
    assert forall k :: 0 <= k < |front| ==> front[k] == ts[k] && front[..k] == ts[..k];
  }

  // ---- The registry as the source keeps it

  class Executor {
    const id: string
    const workers: int
    var heartbeatTime: int

    constructor (id: string, workers: int, now: int)
      ensures this.id == id && this.workers == workers && heartbeatTime == now
    {
      this.id, this.workers, heartbeatTime := id, workers, now;
    }
  }

  class Registry {
    var executorMap: map<string, Executor>

    ghost predicate Valid()
      reads this
    {
      forall id :: id in executorMap ==> executorMap[id].id == id
    }

    ghost function State(): Members
      reads this, executorMap.Values
    {
      map id | id in executorMap :: Member(executorMap[id].workers, executorMap[id].heartbeatTime)
    }

    constructor ()
      ensures Valid() && State() == map[] && executorMap == map[]
    {
      executorMap := map[];
    }

    method AddExecutor(id: string, workerCount: int, now: int)
      requires Valid()
      modifies this
      ensures Valid() && fresh(executorMap.Values - old(executorMap.Values))
      ensures State() == Apply(old(State()), Timed(Joined(id, workerCount), now))
    {
      if id !in executorMap {
        var executor := new Executor(id, workerCount, now);
        executorMap := executorMap[id := executor];
      }
    }

    method RecordHeartbeat(id: string, now: int)
      requires Valid()
      modifies executorMap.Values
      ensures Valid()
      ensures State() == Apply(old(State()), Timed(Beat(id), now))
    {
      if id in executorMap {
        executorMap[id].heartbeatTime := now;
        assert State() == old(State())[id := Member(executorMap[id].workers, now)];
      }
    }

    /** Evicts the executors whose heartbeat is too old, visiting them in any order, and lists all the others. */
    method EligibleExecutors(now: int) returns (executors: seq<Executor>)
      requires Valid()
      modifies this
      ensures Valid()
      ensures forall id :: id in executorMap ==> id in old(executorMap) && executorMap[id] == old(executorMap)[id]
      ensures State() == Apply(old(State()), Timed(Swept, now))
      ensures Lists(executors, executorMap)
      ensures forall id :: id in old(executorMap) ==>
                (id in executorMap <==> now <= old(executorMap[id].heartbeatTime) + 15_000_000_000)
      ensures forall id :: id in old(executorMap) ==>
                (old(executorMap)[id] in executors <==> now <= old(executorMap[id].heartbeatTime) + 15_000_000_000)
    {
      executors := [];
      var unvisited := executorMap.Keys;
      while unvisited != {}
        invariant Valid()
        invariant unvisited <= executorMap.Keys <= old(executorMap).Keys
        invariant forall id :: id in executorMap ==> executorMap[id] == old(executorMap)[id]
        invariant forall id :: id in old(executorMap) && id !in unvisited ==>
                    (id in executorMap <==> !Expired(old(State())[id], now))
        invariant Lists(executors, executorMap - unvisited)
        decreases unvisited
      {
        var id :| id in unvisited;
        ghost var visited := executorMap - unvisited;
        unvisited := unvisited - {id};
        if now > executorMap[id].heartbeatTime + HEARTBEAT_FAILURE_NANOS {
          executorMap := executorMap - {id};
          assert executorMap - unvisited == visited;
        } else {
          ListsOneMore(executors, visited, id, executorMap[id]);
          executors := executors + [executorMap[id]];
          assert executorMap - unvisited == visited[id := executorMap[id]];
        }
      }
      assert executorMap - unvisited == executorMap;
      forall id | id in old(executorMap)
        ensures old(executorMap)[id] in executors <==> id in executorMap
      {
        assert old(executorMap)[id].id == id;
      }
    }
  }

  /** The sequence holds the map's executors, each once. */
  ghost predicate Lists(executors: seq<Executor>, members: map<string, Executor>) {
    && (forall i :: 0 <= i < |executors| ==> executors[i].id in members && members[executors[i].id] == executors[i])
    && (forall i, j :: 0 <= i < j < |executors| ==> executors[i].id != executors[j].id)
    && (forall id :: id in members ==> members[id] in executors)
  }

  lemma ListsOneMore(executors: seq<Executor>, members: map<string, Executor>, id: string, executor: Executor)
    requires Lists(executors, members) && id !in members && executor.id == id
    ensures Lists(executors + [executor], members[id := executor])
  {
    var more := executors + [executor];
    assert more[|executors|] == executor;
    forall x | x in members || x == id
      ensures members[id := executor][x] in more
    {
      if x != id {
        assert members[x] in executors;
      }
    }
  }
}
