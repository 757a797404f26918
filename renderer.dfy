/**
 * `generate_api_response` and `build_wait_times_graph` (app.py, lines
 * 111-132 and 262-305). The HTML fragment is kept as a sequence of office
 * blocks holding the text the page shows (name, link, line length and the
 * HH:MM:00 wait), without the surrounding markup and styles.
 */
module Renderer {
  import opened Wrappers
  import opened Text
  import opened OfficeScope
  import opened WaitEstimator

  const LocationLinkPrefix: string :=
    "https://www2.gov.bc.ca/gov/content/governments/organizational-structure/ministries-organizations/ministries/citizens-services/servicebc/service-bc-location-"

  /** What one office block of the page shows; name and link appear only in all-offices mode. */
  datatype Block = Block(name: Option<string>, link: Option<string>, lineLengthText: string, waitText: string)

  /** The page: in all-offices mode the blocks sit inside one styled wrapper, otherwise each is styled. */
  datatype Fragment = Fragment(wrapped: bool, blocks: seq<Block>)

  /** The JSON envelope; the response timestamp comes from the clock and is not modelled. */
  datatype Payload = Payload(apiName: string, apiEnv: string, apiVersion: string, resultsCount: nat, data: seq<OfficeResult>)

  datatype Body = Html(fragment: Fragment) | Json(payload: Payload)

  datatype Response = Response(statusCode: int, contentType: string, body: Body)

  /** The sentinel `''` counts as 0 minutes; a number is used as it is. */
  function WaitValue(w: Wait): (v: int)
    ensures w.Minutes? ==> v == w.minutes
    ensures v == 0 <==> w == Unknown || w == Minutes(0)
  {
    match w
    case Unknown => 0
    case Minutes(m) => m
  }

  /** `str(int(wait/60)).zfill(2) + ":" + str(wait%60).zfill(2) + ":00"`; Python's `%` by 60 is Dafny's. */
  function ClockText(wait: int): (t: string)
    ensures |t| >= 8 && t[|t| - 3..] == ":00"
  {
    ZFill(IntToDecimal(TruncDiv(wait, 60)), 2) + ":" + ZFill(IntToDecimal(wait % 60), 2) + ":00"
  }

  /**
   * For a non-negative wait the clock reads back as the wait: three fields
   * split by ':'; the minutes past the hour in exactly two digits; the hours
   * in two digits below 100 hours and otherwise as `str()` prints them, with
   * no leading zero; and "00".
   */
  lemma ClockReadsBack(wait: nat)
    ensures var parts := Split(ClockText(wait), ':');
      && |parts| == 3 && parts[2] == "00"
      && AllDigits(parts[0]) && AllDigits(parts[1])
      && |parts[0]| >= 2 && |parts[1]| == 2
      && (wait < 6000 ==> |parts[0]| == 2)
      && (|parts[0]| > 2 ==> parts[0][0] != '0')
      && ParseInt(parts[0]) == Some(wait / 60)
      && ParseInt(parts[1]) == Some(wait % 60)
  {
    var h := ZFill(IntToDecimal(wait / 60), 2);
    var m := ZFill(IntToDecimal(wait % 60), 2);
    ZFillReadsBack(wait / 60, 2);
    ZFillReadsBack(wait % 60, 2);
    TwoDigitsAtMost(wait % 60);
    if wait < 6000 {
      TwoDigitsAtMost(wait / 60);
    }
    DigitsHaveNoColon(h);
    DigitsHaveNoColon(m);
    assert ClockText(wait) == h + ":" + m + ":00";
    SplitClock(h, m);
  }

  lemma DigitsHaveNoColon(s: string)
    requires AllDigits(s)
    ensures ':' !in s
  {
    forall i | 0 <= i < |s| ensures s[i] != ':' {
      assert IsDigit(s[i]);
    }
  }

  /** Splitting `h:m:00` on ':' gives back its three fields. */
  lemma SplitClock(h: string, m: string)
    requires ':' !in h && ':' !in m
    ensures Split(h + ":" + m + ":00", ':') == [h, m, "00"]
  {
    assert h + ":" + m + ":00" == h + [':'] + (m + [':'] + "00");
    SplitAtFirst(h, m + [':'] + "00", ':');
    SplitAtFirst(m, "00", ':');
    SplitFree("00", ':');
  }

  lemma TwoDigitsAtMost(n: nat)
    requires n < 100
    ensures |IntToDecimal(n)| <= 2
  {
    if n >= 10 {
      assert NatToDecimal(n) == NatToDecimal(n / 10) + [DigitChar(n % 10)];
    }
  }

  /** The HH:MM:00 shown for an estimate. */
  function WaitText(w: Wait): (t: string)
    ensures t == ClockText(WaitValue(w))
    ensures w == Unknown || w == Minutes(0) ==> t == "00:00:00"
    ensures w.Minutes? && w.minutes >= 0 ==> var parts := Split(t, ':');
      && |parts| == 3 && parts[2] == "00"
      && AllDigits(parts[0]) && |parts[1]| == 2 && AllDigits(parts[1])
      && (w.minutes < 6000 ==> |parts[0]| == 2)
      && ParseInt(parts[0]) == Some(w.minutes / 60)
      && ParseInt(parts[1]) == Some(w.minutes % 60)
  {
    ZeroWaitClock();
    ClockReadsBackIfNonNegative(WaitValue(w));
    ClockText(WaitValue(w))
  }

  /** `ClockReadsBack` for any wait the renderer may be handed: nothing is claimed below zero. */
  lemma ClockReadsBackIfNonNegative(wait: int)
    ensures wait >= 0 ==> var parts := Split(ClockText(wait), ':');
      && |parts| == 3 && parts[2] == "00"
      && AllDigits(parts[0]) && |parts[1]| == 2 && AllDigits(parts[1])
      && (wait < 6000 ==> |parts[0]| == 2)
      && ParseInt(parts[0]) == Some(wait / 60)
      && ParseInt(parts[1]) == Some(wait % 60)
  {
    if wait >= 0 {
      ClockReadsBack(wait);
    }
  }

  /** 75 minutes show as 01:15:00. */
  lemma ClockExample()
    ensures WaitText(Minutes(75)) == "01:15:00"
  {
    assert TruncDiv(75, 60) == 1 && 75 % 60 == 15;
    assert IntToDecimal(1) == "1" && IntToDecimal(15) == "15";
    assert ZFill("1", 2) == "01";
  }

  /** A wait of zero minutes shows as 00:00:00. */
  lemma ZeroWaitClock()
    ensures ClockText(0) == "00:00:00"
  {
    assert TruncDiv(0, 60) == 0 && 0 % 60 == 0;
    assert IntToDecimal(0) == "0";
    assert ZFill("0", 2) == "00";
  }

  /** `name.lower().replace(' ', '-')`: same length, no spaces, no capitals. */
  function Slug(name: string): (slug: string)
    ensures |slug| == |name|
    ensures ' ' !in slug
    ensures forall i :: 0 <= i < |slug| ==> !('A' <= slug[i] <= 'Z')
    ensures forall i :: 0 <= i < |name| ==> slug[i] == if name[i] == ' ' then '-' else LowerChar(name[i])
  {
    ReplaceChar(Lower(name), ' ', '-')
  }

  /**
   * The office name the nested loop ends with: the last directory entry whose
   * id matches, or '' when none does.
   */
  function NameFor(directory: seq<ServiceCenter>, officeId: int): string {
    if directory == [] then ""
    else if directory[|directory| - 1].officeId == officeId then directory[|directory| - 1].officeName
    else NameFor(directory[..|directory| - 1], officeId)
  }

  /** The name shown is that of the last entry with the office's id. */
  lemma {:induction false} LastMatchNamesOffice(directory: seq<ServiceCenter>, officeId: int, i: nat)
    requires i < |directory| && directory[i].officeId == officeId
    requires forall j :: i < j < |directory| ==> directory[j].officeId != officeId
    ensures NameFor(directory, officeId) == directory[i].officeName
  {
    var last := |directory| - 1;
    if i < last {
      var init := directory[..last];
      assert init[i] == directory[i];
      forall j | i < j < |init| ensures init[j].officeId != officeId {
        assert init[j] == directory[j];
      }
      LastMatchNamesOffice(init, officeId, i);
    }
  }

  /** An office missing from the directory is shown with the empty name. */
  lemma {:induction false} NoMatchNoName(directory: seq<ServiceCenter>, officeId: int)
    requires forall j :: 0 <= j < |directory| ==> directory[j].officeId != officeId
    ensures NameFor(directory, officeId) == ""
  {
    if directory != [] {
      var init := directory[..|directory| - 1];
      forall j | 0 <= j < |init| ensures init[j].officeId != officeId {
        assert init[j] == directory[j];
      }
      NoMatchNoName(init, officeId);
    }
  }

  /** The name lookup, overwriting the name at every matching entry. */
  method LookupName(directory: seq<ServiceCenter>, officeId: int) returns (officeName: string)
    ensures officeName == NameFor(directory, officeId)
  {
    officeName := "";
    for i := 0 to |directory|
      invariant officeName == NameFor(directory[..i], officeId)
    {
      assert directory[..i + 1][..i] == directory[..i];
      if directory[i].officeId == officeId {
        officeName := directory[i].officeName;
      }
    }
    assert directory[..|directory|] == directory;
  }

  /** The block for one office: name and deep link only in all-offices mode. */
  function BlockFor(office: OfficeResult, allOffices: bool, directory: seq<ServiceCenter>): Block {
    var lineText := IntToDecimal(office.currentLineLength);
    var clock := WaitText(office.estimatedWait);
    if allOffices then
      var name := NameFor(directory, office.officeId);
      Block(Some(name), Some(LocationLinkPrefix + Slug(name)), lineText, clock)
    else Block(None, None, lineText, clock)
  }

  /**
   * What a block shows: in all-offices mode the last matching directory name
   * (or '') and its link; otherwise neither; always the line length as
   * `int()` reads it back and the wait clock.
   */
  lemma BlockContents(office: OfficeResult, allOffices: bool, directory: seq<ServiceCenter>)
    ensures var b := BlockFor(office, allOffices, directory);
      && (b.name.Some? <==> allOffices)
      && (b.link.Some? <==> allOffices)
      && (allOffices ==> b.name == Some(NameFor(directory, office.officeId)))
      && (allOffices ==> b.link.value == LocationLinkPrefix + Slug(b.name.value))
      && (allOffices ==> b.link.value[..|LocationLinkPrefix|] == LocationLinkPrefix)
      && (allOffices ==> ' ' !in b.link.value[|LocationLinkPrefix|..])
      && (allOffices ==> |b.link.value| == |LocationLinkPrefix| + |b.name.value|)
      && b.lineLengthText == IntToDecimal(office.currentLineLength)
      && IsCanonical(b.lineLengthText)
      && ParseInt(b.lineLengthText) == Some(office.currentLineLength as int)
      && b.waitText == WaitText(office.estimatedWait)
  {
    if allOffices {
      var name := NameFor(directory, office.officeId);
      var link := LocationLinkPrefix + Slug(name);
      assert link[|LocationLinkPrefix|..] == Slug(name);
    }
  }

  /** A fragment shows one block per result, in result order. */
  predicate RendersAs(graph: Fragment, data: seq<OfficeResult>, allOffices: bool, directory: seq<ServiceCenter>) {
    && graph.wrapped == allOffices
    && |graph.blocks| == |data|
    && forall i :: 0 <= i < |data| ==> graph.blocks[i] == BlockFor(data[i], allOffices, directory)
  }

  /** The text one iteration of the page loop appends for an office. */
  method RenderBlock(office: OfficeResult, allOffices: bool, directory: seq<ServiceCenter>) returns (block: Block)
    ensures block == BlockFor(office, allOffices, directory)
  {
    var wait := WaitValue(office.estimatedWait);
    var clock := ClockText(wait);
    var lineText := IntToDecimal(office.currentLineLength);
    if allOffices {
      var officeName := LookupName(directory, office.officeId);
      var link := LocationLinkPrefix + Slug(officeName);
      block := Block(Some(officeName), Some(link), lineText, clock);
    } else {
      block := Block(None, None, lineText, clock);
    }
  }

  /** Position `k` of a page shows the block of the `k`-th result. */
  predicate ShowsAt(blocks: seq<Block>, data: seq<OfficeResult>, k: int, allOffices: bool, directory: seq<ServiceCenter>)
    requires 0 <= k < |blocks| && k < |data|
  {
    blocks[k] == BlockFor(data[k], allOffices, directory)
  }

  /**
   * The page built office by office in result order; in all-offices mode the
   * blocks are wrapped in one styled container.
   */
  method BuildWaitTimesGraph(data: seq<OfficeResult>, allOffices: bool, directory: seq<ServiceCenter>) returns (graph: Fragment)
    ensures RendersAs(graph, data, allOffices, directory)
  {
    var blocks: seq<Block> := [];
    for i := 0 to |data|
      invariant |blocks| == i
      invariant forall k {:trigger ShowsAt(blocks, data, k, allOffices, directory)} :: 0 <= k < i ==> ShowsAt(blocks, data, k, allOffices, directory)
    {
      var block := RenderBlock(data[i], allOffices, directory);
      ghost var before := blocks;
      blocks := blocks + [block];
      forall k | 0 <= k <= i ensures ShowsAt(blocks, data, k, allOffices, directory) {
        if k < i {
          assert ShowsAt(before, data, k, allOffices, directory);
        }
      }
    }
    forall k | 0 <= k < |data| ensures blocks[k] == BlockFor(data[k], allOffices, directory) {
      assert ShowsAt(blocks, data, k, allOffices, directory);
    }
    graph := Fragment(allOffices, blocks);
  }

  /** HTML when `vis` is set, otherwise the JSON envelope whose count is the number of requested ids. */
  method GenerateApiResponse(officeIds: seq<RawId>, data: seq<OfficeResult>, vis: bool, allOffices: bool,
                             directory: seq<ServiceCenter>, apiEnv: string) returns (resp: Response)
    ensures resp.statusCode == 200
    ensures vis <==> resp.body.Html?
    ensures vis ==> resp.contentType == "text/html" && RendersAs(resp.body.fragment, data, allOffices, directory)
    ensures !vis ==> resp.contentType == "application/json"
    ensures !vis ==> resp.body.payload == Payload("sbc-wt", apiEnv, "0.1", |officeIds|, data)
  {
    var body: Body;
    var contentType: string;
    if vis {
      var graph := BuildWaitTimesGraph(data, allOffices, directory);
      body := Html(graph);
      contentType := "text/html";
    } else {
      body := Json(Payload("sbc-wt", apiEnv, "0.1", |officeIds|, data));
      contentType := "application/json";
    }
    resp := Response(200, contentType, body);
  }

  /** In all-offices mode a block names its office and links to it; otherwise it shows neither. */
  lemma BlockShowsNameOnlyForAllOffices()
    ensures var office := OfficeResult(7, 3, Minutes(75));
      var directory := [ServiceCenter(7, "Old Name"), ServiceCenter(7, "Port Alberni")];
      && BlockFor(office, true, directory) == Block(Some("Port Alberni"), Some(LocationLinkPrefix + "port-alberni"), "3", "01:15:00")
      && BlockFor(office, false, directory) == Block(None, None, "3", "01:15:00")
  {
    var directory := [ServiceCenter(7, "Old Name"), ServiceCenter(7, "Port Alberni")];
    assert NameFor(directory, 7) == "Port Alberni";
    ClockExample();
    PortAlberniSlug("Port Alberni");
    assert IntToDecimal(3) == "3";
  }

  /**
   * "Port Alberni" links as "port-alberni". The name is passed in rather than
   * written inline so that the proof works on its characters by index.
   */
  lemma PortAlberniSlug(name: string)
    requires name == "Port Alberni"
    ensures Slug(name) == "port-alberni"
  {
    var slug := Slug(name);
    assert name[0] == 'P' && name[4] == ' ' && name[5] == 'A';
    assert slug[0] == 'p' && slug[4] == '-' && slug[5] == 'a';
  }
}
