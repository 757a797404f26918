/**
 * The office directory, the request event, and how `lambda_handler` picks the
 * offices a request is about (app.py, lines 62-75) and whether it asked for
 * the HTML view (lines 101-104).
 */
module OfficeScope {
  import opened Wrappers
  import opened Text

  /** One entry of the static service-centre directory: `cfms_poc.office_id` and `cfms_poc.office_name`. */
  datatype ServiceCenter = ServiceCenter(officeId: int, officeName: string)

  /**
   * An office id as it travels through the pipeline before `int()` is applied:
   * the directory's number, or one comma-separated piece of the `id` query parameter.
   */
  datatype RawId = FromDirectory(id: int) | FromQuery(text: string)

  /** The request fields the handler reads: the optional query-string dictionary. */
  datatype Event = Event(queryStringParameters: Option<map<string, string>>)

  /** `int(office_id)` raising ValueError is the one error the handler's own logic can raise. */
  datatype HandlerError = InvalidOfficeId(raw: RawId)

  /** Python's `int(office_id)` on either kind of id. */
  function OfficeIdValue(raw: RawId): (r: Option<int>)
    ensures raw.FromDirectory? ==> r == Some(raw.id)
    ensures raw.FromQuery? ==> (r.Some? <==> IsIntText(raw.text))
    ensures raw.FromQuery? && r.Some? && raw.text[0] != '-' ==> r.value >= 0
    ensures forall n {:trigger IntToDecimal(n)} :: raw == FromQuery(IntToDecimal(n)) ==> r == Some(n)
  {
    match raw
    case FromDirectory(id) => Some(id)
    case FromQuery(text) => ParseInt(text)
  }

  predicate HasIdParam(event: Event) {
    event.queryStringParameters.Some? && "id" in event.queryStringParameters.value
  }

  /** The directory's office ids, in directory order. */
  function DirectoryIds(directory: seq<ServiceCenter>): (ids: seq<RawId>)
    ensures |ids| == |directory|
    ensures forall i :: 0 <= i < |directory| ==> ids[i] == FromDirectory(directory[i].officeId)
  {
    if directory == [] then [] else [FromDirectory(directory[0].officeId)] + DirectoryIds(directory[1..])
  }

  /** The comma-separated pieces of the `id` parameter, in request order. */
  function QueryIds(pieces: seq<string>): (ids: seq<RawId>)
    ensures |ids| == |pieces|
    ensures forall i :: 0 <= i < |pieces| ==> ids[i] == FromQuery(pieces[i])
  {
    if pieces == [] then [] else [FromQuery(pieces[0])] + QueryIds(pieces[1..])
  }

  /** The `office_ids` list the handler builds. */
  function ScopeIds(event: Event, directory: seq<ServiceCenter>): (ids: seq<RawId>)
    ensures HasIdParam(event) ==> |ids| >= 1 && forall i :: 0 <= i < |ids| ==> ids[i].FromQuery?
    ensures !HasIdParam(event) ==> |ids| == |directory| && forall i :: 0 <= i < |ids| ==> ids[i].FromDirectory?
  {
    if HasIdParam(event) then QueryIds(Split(event.queryStringParameters.value["id"], ','))
    else DirectoryIds(directory)
  }

  /** The `all_offices` flag: set inside the directory loop, so only if the directory has an entry. */
  predicate IsAllOffices(event: Event, directory: seq<ServiceCenter>) {
    !HasIdParam(event) && |directory| > 0
  }

  /** Scope selection as the handler performs it, appending one id at a time. */
  method SelectScope(event: Event, directory: seq<ServiceCenter>) returns (officeIds: seq<RawId>, allOffices: bool)
    ensures officeIds == ScopeIds(event, directory)
    ensures allOffices == IsAllOffices(event, directory)
    ensures !HasIdParam(event) ==> |officeIds| == |directory|
  {
    allOffices := false;
    officeIds := [];
    if HasIdParam(event) {
      officeIds := QueryIds(Split(event.queryStringParameters.value["id"], ','));
    } else {
      for i := 0 to |directory|
        invariant |officeIds| == i
        invariant forall k :: 0 <= k < i ==> officeIds[k] == FromDirectory(directory[k].officeId)
        invariant allOffices == (i > 0)
      {
        officeIds := officeIds + [FromDirectory(directory[i].officeId)];
        allOffices := true;
      }
    }
  }

  /**
   * With an `id` parameter, the scope is one query id per comma-separated piece:
   * none of them holds a comma, and joined back with commas they give the parameter.
   */
  lemma ExplicitScopeIsTheIdParameter(event: Event, directory: seq<ServiceCenter>)
    requires HasIdParam(event)
    ensures var ids := ScopeIds(event, directory);
      && |ids| >= 1
      && !IsAllOffices(event, directory)
      && (forall i :: 0 <= i < |ids| ==> ids[i].FromQuery? && ',' !in ids[i].text)
      && Join(seq(|ids|, i requires 0 <= i < |ids| => ids[i].text), ',') == event.queryStringParameters.value["id"]
  {
    var text := event.queryStringParameters.value["id"];
    var ids := ScopeIds(event, directory);
    JoinSplit(text, ',');
    assert seq(|ids|, i requires 0 <= i < |ids| => ids[i].text) == Split(text, ',');
  }

  /** Without an `id` parameter the scope is the whole directory, and all_offices follows its emptiness. */
  lemma DefaultScopeIsTheDirectory(event: Event, directory: seq<ServiceCenter>)
    requires !HasIdParam(event)
    ensures |ScopeIds(event, directory)| == |directory|
    ensures forall i :: 0 <= i < |directory| ==> ScopeIds(event, directory)[i] == FromDirectory(directory[i].officeId)
    ensures IsAllOffices(event, directory) <==> directory != []
  {
  }

  /** An empty directory with no `id` parameter gives an empty scope and leaves all_offices unset. */
  lemma EmptyDirectoryQuirk()
    ensures ScopeIds(Event(None), []) == [] && !IsAllOffices(Event(None), [])
    ensures ScopeIds(Event(Some(map[])), []) == [] && !IsAllOffices(Event(Some(map[])), [])
  {
  }

  /** Two explicit ids come out in request order (and `int()` reads each back). */
  lemma ExplicitScopeKeepsRequestOrder(directory: seq<ServiceCenter>)
    ensures var ids := ScopeIds(Event(Some(map["id" := "3,1"])), directory);
      ids == [FromQuery("3"), FromQuery("1")] && OfficeIdValue(ids[0]) == Some(3) && OfficeIdValue(ids[1]) == Some(1)
  {
    assert "3,1" == "3" + [','] + "1";
    SplitAtFirst("3", "1", ',');
    SplitFree("1", ',');
    assert IntToDecimal(3) == "3" && IntToDecimal(1) == "1";
  }

  /** An empty `id` parameter splits to one empty piece, which `int()` rejects. */
  lemma EmptyIdParameterIsRejected(directory: seq<ServiceCenter>)
    ensures var ids := ScopeIds(Event(Some(map["id" := ""])), directory);
      ids == [FromQuery("")] && OfficeIdValue(ids[0]).None?
  {
  }

  /** The `vis` parameter asks for HTML when it equals "true" ignoring case. */
  function VisRequested(event: Event): (vis: bool)
    ensures vis <==>
      && event.queryStringParameters.Some?
      && "vis" in event.queryStringParameters.value
      && var v := event.queryStringParameters.value["vis"];
         && |v| == 4
         && (v[0] == 't' || v[0] == 'T') && (v[1] == 'r' || v[1] == 'R')
         && (v[2] == 'u' || v[2] == 'U') && (v[3] == 'e' || v[3] == 'E')
  {
    && event.queryStringParameters.Some?
    && "vis" in event.queryStringParameters.value
    && var v := event.queryStringParameters.value["vis"];
       VisMeansTrueInAnyCase(v);
       Lower(v) == "true"
  }

  /** The comparison ignores case, and nothing but a spelling of "true" is accepted. */
  lemma VisIgnoresCase()
    ensures VisRequested(Event(Some(map["vis" := "TRUE"])))
    ensures VisRequested(Event(Some(map["vis" := "True"])))
    ensures !VisRequested(Event(Some(map["vis" := "1"])))
    ensures !VisRequested(Event(Some(map["vis" := "true "])))
    ensures !VisRequested(Event(None))
  {
    assert Lower("TRUE") == "true";
    assert Lower("True") == "true";
  }

  /** HTML is requested exactly for the sixteen spellings of "true" in mixed case. */
  lemma VisMeansTrueInAnyCase(v: string)
    ensures Lower(v) == "true" <==>
      && |v| == 4
      && (v[0] == 't' || v[0] == 'T') && (v[1] == 'r' || v[1] == 'R')
      && (v[2] == 'u' || v[2] == 'U') && (v[3] == 'e' || v[3] == 'E')
  {
    if |v| == 4 {
      LowerCharInverse(v[0], 't');
      LowerCharInverse(v[1], 'r');
      LowerCharInverse(v[2], 'u');
      LowerCharInverse(v[3], 'e');
      var w := Lower(v);
      assert w == "true" <==> w[0] == 't' && w[1] == 'r' && w[2] == 'u' && w[3] == 'e';
    }
  }
}
