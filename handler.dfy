/**
 * `lambda_handler` (app.py, lines 57-106): select the scope, take the
 * warehouse rows and the telemetry snapshot as given, build the times map,
 * estimate every office in scope order and render the response.
 */
module Handler {
  import opened Wrappers
  import opened OfficeScope
  import opened LiveQueue
  import opened WaitEstimator
  import opened Renderer

  predicate AllIdsParse(ids: seq<RawId>) {
    forall i :: 0 <= i < |ids| ==> OfficeIdValue(ids[i]).Some?
  }

  /** The entry the handler reports for one scope id, from what the telemetry store and the warehouse returned. */
  function ExpectedResult(id: RawId, snapshot: RawId -> Telemetry, rows: seq<ServeTimeRow>): OfficeResult
    requires OfficeIdValue(id).Some?
  {
    ResultFor(RecordFor(id, snapshot(id)), OfficeIdValue(id).value, TimesOf(rows))
  }

  /**
   * The handler. `rows` stands for what `query_redshift` returned and
   * `snapshot` for what the telemetry store answered for each office id.
   */
  method LambdaHandler(event: Event, directory: seq<ServiceCenter>, rows: seq<ServeTimeRow>,
                       snapshot: RawId -> Telemetry, apiEnv: string) returns (r: Result<Response, HandlerError>)
    ensures r.Success? <==> AllIdsParse(ScopeIds(event, directory))
    ensures r.Failure? ==> var scope := ScopeIds(event, directory);
      exists k :: (0 <= k < |scope| && OfficeIdValue(scope[k]).None? && r.error == InvalidOfficeId(scope[k])
        && forall j :: 0 <= j < k ==> OfficeIdValue(scope[j]).Some?)
    ensures r.Success? ==> r.value.statusCode == 200 && (r.value.body.Html? <==> VisRequested(event))
    ensures r.Success? && !VisRequested(event) ==> var scope := ScopeIds(event, directory);
      && r.value.contentType == "application/json"
      && r.value.body.payload == Payload("sbc-wt", apiEnv, "0.1", |scope|, r.value.body.payload.data)
      && |r.value.body.payload.data| == |scope|
      && forall i :: 0 <= i < |scope| ==> r.value.body.payload.data[i] == ExpectedResult(scope[i], snapshot, rows)
    ensures r.Success? && VisRequested(event) ==> var scope := ScopeIds(event, directory);
      && r.value.contentType == "text/html"
      && r.value.body.fragment.wrapped == IsAllOffices(event, directory)
      && |r.value.body.fragment.blocks| == |scope|
      && forall i :: 0 <= i < |scope| ==>
           r.value.body.fragment.blocks[i] == BlockFor(ExpectedResult(scope[i], snapshot, rows), IsAllOffices(event, directory), directory)
  {
    var officeIds, allOffices := SelectScope(event, directory);
    var estimated := EstimateScope(officeIds, rows, snapshot);
    if estimated.Failure? {
      return Failure(estimated.error);
    }
    var vis := VisRequested(event);
    var resp := GenerateApiResponse(officeIds, estimated.value, vis, allOffices, directory, apiEnv);
    r := Success(resp);
  }

  /**
   * The middle of the handler: the warehouse rows become the `times`
   * dictionary, the telemetry of each scope id a live record, and the records
   * the response entries, failing on the first id `int()` rejects.
   */
  method EstimateScope(officeIds: seq<RawId>, rows: seq<ServeTimeRow>, snapshot: RawId -> Telemetry)
    returns (r: Result<seq<OfficeResult>, HandlerError>)
    ensures r.Success? <==> AllIdsParse(officeIds)
    ensures r.Failure? ==> exists k :: (0 <= k < |officeIds| && OfficeIdValue(officeIds[k]).None?
      && r.error == InvalidOfficeId(officeIds[k])
      && forall j :: 0 <= j < k ==> OfficeIdValue(officeIds[j]).Some?)
    ensures r.Success? ==> |r.value| == |officeIds|
    ensures r.Success? ==> forall i :: 0 <= i < |officeIds| ==> r.value[i] == ExpectedResult(officeIds[i], snapshot, rows)
  {
    var live := QueryRealtime(officeIds, snapshot);
    var times := BuildTimes(rows);
    r := EstimateWaits(live, times);
    if r.Success? {
      forall i | 0 <= i < |officeIds| ensures r.value[i] == ExpectedResult(officeIds[i], snapshot, rows) {
        assert live[i] == RecordFor(officeIds[i], snapshot(officeIds[i]));
      }
    } else {
      var k :| 0 <= k < |live| && OfficeIdValue(live[k].officeId).None? && r.error == InvalidOfficeId(live[k].officeId)
        && forall j :: 0 <= j < k ==> OfficeIdValue(live[j].officeId).Some?;
      assert live[k].officeId == officeIds[k];
    }
  }

  /** An office gets the empty-string sentinel exactly when no warehouse row names it. */
  lemma UnknownIffNoHistory(id: RawId, snapshot: RawId -> Telemetry, rows: seq<ServeTimeRow>)
    requires OfficeIdValue(id).Some?
    ensures ExpectedResult(id, snapshot, rows).estimatedWait.Unknown? <==>
      forall i :: 0 <= i < |rows| ==> rows[i].officeId != OfficeIdValue(id).value
  {
    TimesDomain(rows, OfficeIdValue(id).value);
  }

  /** When several rows name the office, the estimate uses the last one's time. */
  lemma LastRowTimeIsUsed(id: RawId, snapshot: RawId -> Telemetry, rows: seq<ServeTimeRow>, i: nat)
    requires OfficeIdValue(id).Some?
    requires i < |rows| && rows[i].officeId == OfficeIdValue(id).value
    requires forall j :: i < j < |rows| ==> rows[j].officeId != rows[i].officeId
    ensures var rec := RecordFor(id, snapshot(id));
      ExpectedResult(id, snapshot, rows).estimatedWait == Minutes(WaitMinutes(rows[i].timePer, rec.numAgents, Clamp(rec.lineSize)))
  {
    LastRowWins(rows, i);
  }

  /** The reported line is the raw line clamped at zero, whatever the history. */
  lemma ReportedLineIsClampedRawLine(id: RawId, snapshot: RawId -> Telemetry, rows: seq<ServeTimeRow>)
    requires OfficeIdValue(id).Some?
    ensures var t := snapshot(id);
      ExpectedResult(id, snapshot, rows).currentLineLength as int ==
        if t.addCitizen >= t.customerLeft + t.finish then t.addCitizen - (t.customerLeft + t.finish) else 0
  {
  }

  /** Five arrivals, two who left unserved and four served, with history: line 0, wait 0. */
  lemma OverCountedOfficeShowsNoWait(snapshot: RawId -> Telemetry)
    requires snapshot(FromDirectory(7)) == Telemetry(5, 2, 4, [])
    ensures ExpectedResult(FromDirectory(7), snapshot, [ServeTimeRow(7, 600.0)]) == OfficeResult(7, 0, Minutes(0))
  {
    assert TimesOf([ServeTimeRow(7, 600.0)]) == map[7 := 600.0];
  }

  /** Ten waiting, two distinct agents over three events, 600 seconds per customer: 50 minutes. */
  lemma TwoAgentsTenWaiting(snapshot: RawId -> Telemetry)
    requires snapshot(FromDirectory(7)) ==
      Telemetry(14, 1, 3, [FrontOfficeEvent(40), FrontOfficeEvent(41), FrontOfficeEvent(40)])
    ensures ExpectedResult(FromDirectory(7), snapshot, [ServeTimeRow(7, 600.0)]) == OfficeResult(7, 10, Minutes(50))
  {
    TwoAgentsOverThreeEvents(snapshot(FromDirectory(7)));
    assert TimesOf([ServeTimeRow(7, 600.0)]) == map[7 := 600.0];
    TwoAgentsTenInLine();
  }

  /** Agents 40, 41 and 40 are two agents; 14 arrivals less 1 who left and 3 served leave 10 in line. */
  lemma TwoAgentsOverThreeEvents(t: Telemetry)
    requires t == Telemetry(14, 1, 3, [FrontOfficeEvent(40), FrontOfficeEvent(41), FrontOfficeEvent(40)])
    ensures RecordFor(FromDirectory(7), t) == LiveRecord(FromDirectory(7), 10, 2)
  {
    assert AgentIds(t.events) == [40, 41, 40];
    assert Elems([40, 41, 40]) == {40, 41};
  }
}
