/**
 * The part of `query_elasticsearch_realtime` (app.py, lines 163-257) that runs
 * after the remote queries: per office, the raw line size from the three day
 * counts and the number of distinct agents among the front-office hits the
 * last-hour search returned. That search is run with `execute()` and no size,
 * so it returns one page of hits (10 by Elasticsearch's default), not every
 * event of the hour. The remote counts and the returned hits are the
 * `snapshot` parameter.
 */
module LiveQueue {
  import opened OfficeScope

  type AgentId = int

  /** One front-office hit returned by the last-hour search; the handler reads only its agent id. */
  datatype FrontOfficeEvent = FrontOfficeEvent(agentId: AgentId)

  /**
   * What the telemetry store answered for one office id: the three day counts
   * and the page of last-hour hits the search returned.
   */
  datatype Telemetry = Telemetry(addCitizen: nat, customerLeft: nat, finish: nat, events: seq<FrontOfficeEvent>)

  /** One entry of `results_list`; `lineSize` is not yet clamped and may be negative. */
  datatype LiveRecord = LiveRecord(officeId: RawId, lineSize: int, numAgents: nat)

  /** Arrivals minus those who left unserved and those served. */
  function LineSize(t: Telemetry): (n: int)
    ensures n <= t.addCitizen
    ensures n < 0 <==> t.addCitizen < t.customerLeft + t.finish
  {
    t.addCitizen - (t.customerLeft + t.finish)
  }

  /** The agent ids in event order (`agent_list`). */
  function AgentIds(events: seq<FrontOfficeEvent>): (ids: seq<AgentId>)
    ensures |ids| == |events|
    ensures forall i :: 0 <= i < |events| ==> ids[i] == events[i].agentId
  {
    if events == [] then [] else [events[0].agentId] + AgentIds(events[1..])
  }

  /** `set(agent_list)`. */
  function Elems(s: seq<AgentId>): (r: set<AgentId>)
    ensures forall a :: a in r <==> a in s
  {
    if s == [] then {} else {s[0]} + Elems(s[1..])
  }

  predicate AllDistinct(s: seq<AgentId>) {
    forall i, j :: 0 <= i < j < |s| ==> s[i] != s[j]
  }

  /** `len(list(set(agent_list)))`. */
  function DistinctCount(s: seq<AgentId>): nat {
    |Elems(s)|
  }

  /** There are never more agents than events. */
  lemma {:induction false} DistinctAtMostLength(s: seq<AgentId>)
    ensures DistinctCount(s) <= |s|
  {
    if s != [] {
      DistinctAtMostLength(s[1..]);
    }
  }

  /** No events means no agents, and any event means at least one agent. */
  lemma DistinctZeroIffEmpty(s: seq<AgentId>)
    ensures DistinctCount(s) == 0 <==> s == []
  {
    if s != [] {
      assert s[0] in Elems(s);
    }
  }

  /** Every event counts as a separate agent exactly when no agent id repeats. */
  lemma DistinctCountIffAllDistinct(s: seq<AgentId>)
    ensures DistinctCount(s) == |s| <==> AllDistinct(s)
  {
    if AllDistinct(s) {
      DistinctKeepsAll(s);
    } else {
      var i, j :| 0 <= i < j < |s| && s[i] == s[j];
      RepeatLosesOne(s, i, j);
    }
  }

  lemma {:induction false} DistinctKeepsAll(s: seq<AgentId>)
    requires AllDistinct(s)
    ensures DistinctCount(s) == |s|
  {
    if s != [] {
      var t := s[1..];
      assert AllDistinct(t) by {
        forall a, b | 0 <= a < b < |t| ensures t[a] != t[b] {
          assert t[a] == s[a + 1] && t[b] == s[b + 1];
        }
      }
      DistinctKeepsAll(t);
      assert s[0] !in Elems(t) by {
        forall k | 0 <= k < |t| ensures t[k] != s[0] {
          assert t[k] == s[k + 1];
        }
      }
    }
  }

  lemma {:induction false} RepeatLosesOne(s: seq<AgentId>, i: nat, j: nat)
    requires i < j < |s| && s[i] == s[j]
    ensures DistinctCount(s) < |s|
  {
    var t := s[1..];
    if i == 0 {
      assert s[0] == t[j - 1];
      assert Elems(s) == Elems(t);
      DistinctAtMostLength(t);
    } else {
      assert t[i - 1] == t[j - 1];
      RepeatLosesOne(t, i - 1, j - 1);
    }
  }

  /** The record the loop appends for one office. */
  function RecordFor(id: RawId, t: Telemetry): (r: LiveRecord)
    ensures r.officeId == id
    ensures r.numAgents <= |t.events|
    ensures r.numAgents == 0 <==> t.events == []
    ensures r.lineSize == LineSize(t)
    ensures r.numAgents == |set i | 0 <= i < |t.events| :: t.events[i].agentId|
  {
    var ids := AgentIds(t.events);
    assert Elems(ids) == set i | 0 <= i < |t.events| :: t.events[i].agentId;
    DistinctAtMostLength(ids);
    DistinctZeroIffEmpty(ids);
    LiveRecord(id, LineSize(t), DistinctCount(ids))
  }

  /**
   * The per-office loop: one record per office id, appended in scope order,
   * with the agent ids gathered event by event.
   */
  method QueryRealtime(officeIds: seq<RawId>, snapshot: RawId -> Telemetry) returns (results: seq<LiveRecord>)
    ensures |results| == |officeIds|
    ensures forall i :: 0 <= i < |officeIds| ==> results[i] == RecordFor(officeIds[i], snapshot(officeIds[i]))
  {
    results := [];
    for k := 0 to |officeIds|
      invariant |results| == k
      invariant forall i {:trigger RecordAt(results, officeIds, snapshot, i)} :: 0 <= i < k ==> RecordAt(results, officeIds, snapshot, i)
    {
      var id := officeIds[k];
      var t := snapshot(id);
      var agentList := CollectAgents(t.events);
      var numAgents := |Elems(agentList)|;
      var lineSize := t.addCitizen - (t.customerLeft + t.finish);
      ghost var before := results;
      results := results + [LiveRecord(id, lineSize, numAgents)];
      forall i | 0 <= i <= k ensures RecordAt(results, officeIds, snapshot, i) {
        if i < k {
          assert RecordAt(before, officeIds, snapshot, i);
        }
      }
    }
    forall i | 0 <= i < |officeIds| ensures results[i] == RecordFor(officeIds[i], snapshot(officeIds[i])) {
      assert RecordAt(results, officeIds, snapshot, i);
    }
  }

  /** Position `i` of the results holds the record of the `i`-th office. */
  predicate RecordAt(results: seq<LiveRecord>, officeIds: seq<RawId>, snapshot: RawId -> Telemetry, i: int)
    requires 0 <= i < |results| && i < |officeIds|
  {
    results[i] == RecordFor(officeIds[i], snapshot(officeIds[i]))
  }

  /** The agent id of every front-office event, in hit order. */
  method CollectAgents(events: seq<FrontOfficeEvent>) returns (agentList: seq<AgentId>)
    ensures agentList == AgentIds(events)
  {
    agentList := [];
    for j := 0 to |events|
      invariant |agentList| == j
      invariant forall m :: 0 <= m < j ==> agentList[m] == events[m].agentId
    {
      agentList := agentList + [events[j].agentId];
    }
  }

  /** Five arrivals, two who left and four served give a raw line of -1. */
  lemma NegativeRawLine()
    ensures LineSize(Telemetry(5, 2, 4, [])) == -1
  {
  }
}
