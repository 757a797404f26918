/**
 * The wait estimator inside `lambda_handler` (app.py, lines 85-99): the
 * `times` dictionary built from the warehouse rows, and the loop that turns
 * each live record into an `office_id` / `current_line_length` /
 * `estimated_wait` entry.
 */
module WaitEstimator {
  import opened Wrappers
  import opened Rounding
  import opened OfficeScope
  import opened LiveQueue

  /** One warehouse row: `office_id` and `time_per`, the average seconds of service per customer. */
  datatype ServeTimeRow = ServeTimeRow(officeId: int, timePer: real)

  /** `estimated_wait`: whole minutes, or the empty-string sentinel when the office has no history. */
  datatype Wait = Minutes(minutes: int) | Unknown

  /** One entry of `api_response_data`. */
  datatype OfficeResult = OfficeResult(officeId: int, currentLineLength: nat, estimatedWait: Wait)

  /** `max(0, line_size)`: the reported line is never negative. */
  function Clamp(lineSize: int): (n: nat)
    ensures lineSize >= 0 ==> n == lineSize
    ensures lineSize <= 0 ==> n == 0
  {
    if lineSize < 0 then 0 else lineSize
  }

  /** `max(1, num_agents)`: the divisor is at least one agent. */
  function Staff(numAgents: nat): (m: nat)
    ensures m >= 1 && m >= numAgents
    ensures numAgents >= 1 ==> m == numAgents
  {
    if numAgents < 1 then 1 else numAgents
  }

  /** `time_per / max(1, num_agents)`: seconds of staff time per customer, shared among the agents. */
  function PerAgentSeconds(timePer: real, numAgents: nat): (q: real)
    ensures q * Staff(numAgents) as real == timePer
    ensures timePer >= 0.0 ==> 0.0 <= q <= timePer
  {
    timePer / Staff(numAgents) as real
  }

  /** `q * current_line_length / 60`: minutes of work for the whole line at `q` seconds each. */
  function MinutesOfShare(q: real, lineLength: nat): (x: real)
    ensures x * 60.0 == q * lineLength as real
  {
    q * lineLength as real / 60.0
  }

  /** More seconds each, or more people in line, never means fewer minutes of work. */
  lemma MinutesOfShareMonotone(q1: real, l1: nat, q2: real, l2: nat)
    requires 0.0 <= q1 <= q2 && l1 <= l2
    ensures MinutesOfShare(q1, l1) <= MinutesOfShare(q2, l2)
  {
    assert q1 * l1 as real <= q2 * l1 as real <= q2 * l2 as real;
  }

  /**
   * `round((time_per / max(1, num_agents)) * current_line_length / 60)`: the
   * staff-seconds needed by everyone in line, shared among the agents,
   * in minutes, rounded half to even.
   */
  function WaitMinutes(timePer: real, numAgents: nat, lineLength: nat): (w: int)
    ensures lineLength == 0 ==> w == 0
    ensures timePer >= 0.0 ==> w >= 0
  {
    RoundHalfEven(MinutesOfShare(PerAgentSeconds(timePer, numAgents), lineLength))
  }

  /**
   * The estimate is the whole number of minutes nearest to the staff-seconds
   * of everyone in line divided among the agents (ties to even).
   */
  lemma WaitIsNearestMinute(timePer: real, numAgents: nat, lineLength: nat)
    ensures RoundsTo(timePer * lineLength as real / (60.0 * Staff(numAgents) as real), WaitMinutes(timePer, numAgents, lineLength))
  {
    SharedMinutes(timePer, numAgents, lineLength);
  }

  lemma SharedMinutes(timePer: real, numAgents: nat, lineLength: nat)
    ensures MinutesOfShare(PerAgentSeconds(timePer, numAgents), lineLength) == timePer * lineLength as real / (60.0 * Staff(numAgents) as real)
  {
    var q, m, len := PerAgentSeconds(timePer, numAgents), Staff(numAgents) as real, lineLength as real;
    var x := MinutesOfShare(q, lineLength);
    assert x * 60.0 == q * len;
    assert x * (60.0 * m) == (q * len) * m == (q * m) * len == timePer * len;
  }

  /** Zero observed agents estimate the same wait as one agent. */
  lemma ZeroAgentsCountAsOne(timePer: real, lineLength: nat)
    ensures WaitMinutes(timePer, 0, lineLength) == WaitMinutes(timePer, 1, lineLength)
  {
  }

  /** 600 seconds per customer, two agents, ten in line: 50 minutes. */
  lemma TwoAgentsTenInLine()
    ensures WaitMinutes(600.0, 2, 10) == 50
  {
    assert PerAgentSeconds(600.0, 2) == 300.0;
    assert MinutesOfShare(300.0, 10) == 50.0;
    RoundUnique(50.0, 50);
  }

  /** With a non-negative history, a longer line never shortens the estimate. */
  lemma LongerLineNeverShorterWait(timePer: real, numAgents: nat, l1: nat, l2: nat)
    requires timePer >= 0.0 && l1 <= l2
    ensures WaitMinutes(timePer, numAgents, l1) <= WaitMinutes(timePer, numAgents, l2)
  {
    var q := PerAgentSeconds(timePer, numAgents);
    MinutesOfShareMonotone(q, l1, q, l2);
    RoundMonotone(MinutesOfShare(q, l1), MinutesOfShare(q, l2));
  }

  /** With a non-negative history, more agents never lengthen the estimate. */
  lemma MoreAgentsNeverLongerWait(timePer: real, n1: nat, n2: nat, lineLength: nat)
    requires timePer >= 0.0 && n1 <= n2
    ensures WaitMinutes(timePer, n2, lineLength) <= WaitMinutes(timePer, n1, lineLength)
  {
    var q1, q2 := PerAgentSeconds(timePer, n1), PerAgentSeconds(timePer, n2);
    QuotientAntitone(timePer, Staff(n1) as real, q1, Staff(n2) as real, q2);
    MinutesOfShareMonotone(q2, lineLength, q1, lineLength);
    RoundMonotone(MinutesOfShare(q2, lineLength), MinutesOfShare(q1, lineLength));
  }

  /** Sharing a non-negative amount among more agents leaves each less. */
  lemma QuotientAntitone(a: real, m1: real, q1: real, m2: real, q2: real)
    requires a >= 0.0 && 1.0 <= m1 <= m2 && q1 * m1 == a && q2 * m2 == a
    ensures q2 <= q1
  {
  }

  /** The `times` dictionary: rows applied in order, so a later row for the same office wins. */
  function TimesOf(rows: seq<ServeTimeRow>): map<int, real> {
    if rows == [] then map[]
    else TimesOf(rows[..|rows| - 1])[rows[|rows| - 1].officeId := rows[|rows| - 1].timePer]
  }

  /** The dictionary filled row by row. */
  method BuildTimes(rows: seq<ServeTimeRow>) returns (times: map<int, real>)
    ensures times == TimesOf(rows)
  {
    times := map[];
    for i := 0 to |rows|
      invariant times == TimesOf(rows[..i])
    {
      assert rows[..i + 1][..i] == rows[..i];
      times := times[rows[i].officeId := rows[i].timePer];
    }
    assert rows[..|rows|] == rows;
  }

  /** An office has a historical time exactly when some row names it. */
  lemma {:induction false} TimesDomain(rows: seq<ServeTimeRow>, id: int)
    ensures id in TimesOf(rows) <==> exists i :: 0 <= i < |rows| && rows[i].officeId == id
  {
    if rows != [] {
      var init := rows[..|rows| - 1];
      TimesDomain(init, id);
      if id in TimesOf(init) {
        var i :| 0 <= i < |init| && init[i].officeId == id;
        assert rows[i].officeId == id;
      }
      if exists i :: 0 <= i < |rows| && rows[i].officeId == id {
        var i :| 0 <= i < |rows| && rows[i].officeId == id;
        if i < |init| {
          assert init[i].officeId == id;
        }
      }
    }
  }

  /** The time recorded for an office is that of the last row naming it. */
  lemma {:induction false} LastRowWins(rows: seq<ServeTimeRow>, i: nat)
    requires i < |rows|
    requires forall j :: i < j < |rows| ==> rows[j].officeId != rows[i].officeId
    ensures rows[i].officeId in TimesOf(rows)
    ensures TimesOf(rows)[rows[i].officeId] == rows[i].timePer
  {
    if i < |rows| - 1 {
      var init := rows[..|rows| - 1];
      LastRowWins(init, i);
    }
  }

  /** One `api_response_data` entry for a live record whose id `int()` read as `officeId`. */
  function ResultFor(rec: LiveRecord, officeId: int, times: map<int, real>): (r: OfficeResult)
    ensures r.officeId == officeId
    ensures r.currentLineLength == Clamp(rec.lineSize)
    ensures r.estimatedWait.Unknown? <==> officeId !in times
    ensures officeId in times ==>
      r.estimatedWait == Minutes(WaitMinutes(times[officeId], rec.numAgents, Clamp(rec.lineSize)))
    ensures officeId in times && rec.lineSize <= 0 ==> r.estimatedWait == Minutes(0)
  {
    var len := Clamp(rec.lineSize);
    var wait := if officeId in times then Minutes(WaitMinutes(times[officeId], rec.numAgents, len)) else Unknown;
    OfficeResult(officeId, len, wait)
  }

  /** Five arrivals, two who left and four served: reported as an empty line, and a zero wait. */
  lemma OverCountedLineReportsEmpty(id: RawId, times: map<int, real>)
    requires 7 in times
    ensures ResultFor(RecordFor(id, Telemetry(5, 2, 4, [])), 7, times) == OfficeResult(7, 0, Minutes(0))
  {
  }

  /**
   * The estimate loop: `int()` each record's id in order (the first bad id
   * raises), clamp its line and estimate its wait.
   */
  method EstimateWaits(live: seq<LiveRecord>, times: map<int, real>) returns (r: Result<seq<OfficeResult>, HandlerError>)
    ensures r.Success? <==> forall i :: 0 <= i < |live| ==> OfficeIdValue(live[i].officeId).Some?
    ensures r.Failure? ==> exists k :: (0 <= k < |live|
      && OfficeIdValue(live[k].officeId).None?
      && r.error == InvalidOfficeId(live[k].officeId)
      && forall j :: 0 <= j < k ==> OfficeIdValue(live[j].officeId).Some?)
    ensures r.Success? ==> |r.value| == |live|
    ensures r.Success? ==> forall i :: 0 <= i < |live| ==>
      r.value[i] == ResultFor(live[i], OfficeIdValue(live[i].officeId).value, times)
  {
    var data: seq<OfficeResult> := [];
    for i := 0 to |live|
      invariant |data| == i
      invariant forall j :: 0 <= j < i ==> OfficeIdValue(live[j].officeId).Some?
      invariant forall j :: 0 <= j < i ==> data[j] == ResultFor(live[j], OfficeIdValue(live[j].officeId).value, times)
    {
      var office := live[i];
      var parsed := OfficeIdValue(office.officeId);
      if parsed.None? {
        return Failure(InvalidOfficeId(office.officeId));
      }
      var officeId := parsed.value;
      var currentLineLength := Clamp(office.lineSize);
      var estimatedWait := Unknown;
      if officeId in times {
        estimatedWait := Minutes(WaitMinutes(times[officeId], office.numAgents, currentLineLength));
      }
      data := data + [OfficeResult(officeId, currentLineLength, estimatedWait)];
    }
    r := Success(data);
  }
}
