/** The logic of the user dashboard, p-1/frontend/src/pages/Dashboard.jsx:
    the row and column totals of the file cards, the chart the "Save Chart"
    button posts, the saved-chart list and loading a saved chart back. */
module Dashboard {
  import opened Wrappers
  import opened JsValues
  import opened Models
  import opened RecordStore
  import opened Notices

  /** `files.reduce((sum, file) => sum + file.rows, 0)` */
  function TotalRows(files: seq<FileRecord>): int {
    if files == [] then 0 else TotalRows(files[..|files| - 1]) + files[|files| - 1].rows
  }

  /** `files.reduce((sum, file) => sum + file.columns, 0)` */
  function TotalColumns(files: seq<FileRecord>): int {
    if files == [] then 0 else TotalColumns(files[..|files| - 1]) + files[|files| - 1].columns
  }

  /** The "Data Points" card: `totalRows * totalColumns`. */
  function DataPoints(files: seq<FileRecord>): int {
    TotalRows(files) * TotalColumns(files)
  }

  /** The totals of two lists of files add up. */
  lemma {:induction false} TotalsAppend(a: seq<FileRecord>, b: seq<FileRecord>)
    ensures TotalRows(a + b) == TotalRows(a) + TotalRows(b)
    ensures TotalColumns(a + b) == TotalColumns(a) + TotalColumns(b)
    decreases |b|
  {
    if b != [] {
      var c := b[..|b| - 1];
      assert (a + b)[..|a + b| - 1] == a + c;
      assert (a + b)[|a + b| - 1] == b[|b| - 1];
      TotalsAppend(a, c);
    } else {
      assert a + b == a;
    }
  }

  /** With no negative counts, each file's rows are at most the total, and
      every card is at least 0. */
  lemma {:induction false} TotalRowsBound(files: seq<FileRecord>, i: nat)
    requires forall f :: f in files ==> f.rows >= 0 && f.columns >= 0
    requires i < |files|
    ensures 0 <= files[i].rows <= TotalRows(files)
    ensures TotalColumns(files) >= 0 && DataPoints(files) >= 0
    decreases |files|
  {
    var init := files[..|files| - 1];
    if i < |files| - 1 {
      TotalRowsBound(init, i);
    } else if init != [] {
      TotalRowsBound(init, 0);
    }
  }

  /** `s.charAt(0).toUpperCase() + s.slice(1)` */
  function Capitalise(s: string): (r: string)
    ensures |r| == |s|
    ensures s != "" ==> r[0] == UpperChar(s[0]) && r[1..] == s[1..]
  {
    if s == "" then "" else [UpperChar(s[0])] + s[1..]
  }

  /** The title saveChart gives a chart. */
  function ChartTitle(chartType: string, fileName: string): (title: string)
    ensures title == Capitalise(chartType) + " Chart - " + fileName
    ensures title[|chartType| + 1] == 'C'
  {
    Capitalise(chartType) + " Chart - " + fileName
  }

  lemma ChartTitleExample(fileName: string)
    ensures ChartTitle("pie", fileName) == "Pie Chart - " + fileName
  {
    assert Capitalise("pie") == "Pie";
  }

  /** The series shown on the dashboard. */
  datatype Series = Series(labels: seq<string>, values: seq<real>)

  /** The body of `chartsAPI.createChart` for the selected file. */
  function SaveRequest(chartType: string, file: FileRecord, xAxis: string, yAxis: string, shown: Series): (input: ChartInput)
    ensures input.file == Some(file.id) && input.chartType == Some(chartType)
    ensures input.title == Some(ChartTitle(chartType, file.name))
    ensures input.xAxis == Some(xAxis) && input.yAxis == Some(yAxis)
    ensures input.data == Some(ChartData(Some(shown.labels), Some(shown.values)))
  {
    ChartInput(Some(ChartTitle(chartType, file.name)), Some(chartType), Some(file.id), Some(xAxis), Some(yAxis),
      Some(ChartData(Some(shown.labels), Some(shown.values))))
  }

  /** The chart schema accepts what saveChart posts exactly when the chart
      type is one of its types and both axis names are non-empty. */
  lemma SaveRequestAccepted(chartType: string, file: FileRecord, xAxis: string, yAxis: string, shown: Series,
                            creator: Id, id: Id, now: int)
    ensures NewChart(SaveRequest(chartType, file, xAxis, yAxis, shown), creator, id, now).Ok?
      <==> chartType in ChartTypeNames && xAxis != "" && yAxis != ""
  {
    var input := SaveRequest(chartType, file, xAxis, yAxis, shown);
    TitlePresent(chartType, file.name);
    assert input.chartType == Some(chartType) && input.file.Some? && input.data.Some?;
    assert input.xAxis == Some(xAxis) && input.yAxis == Some(yAxis);
    if chartType in ChartTypeNames && xAxis != "" && yAxis != "" {
      assert ChartInputValid(input);
    } else {
      assert !ChartInputValid(input);
    }
  }

  /** The stored chart keeps the type, file, axes and series that were
      posted, and the title trimmed. */
  lemma SaveRequestStored(chartType: string, file: FileRecord, xAxis: string, yAxis: string, shown: Series,
                          creator: Id, id: Id, now: int)
    ensures var r := NewChart(SaveRequest(chartType, file, xAxis, yAxis, shown), creator, id, now);
      r.Ok? ==>
        && ChartTypeString(r.value.chartType) == chartType && r.value.file == file.id
        && r.value.xAxis == xAxis && r.value.yAxis == yAxis
        && r.value.data == ChartData(Some(shown.labels), Some(shown.values))
        && r.value.title == Trim(ChartTitle(chartType, file.name))
        && r.value.createdBy == creator
  {
  }

  /** A saved chart's title never trims to nothing: it holds the "C" of "Chart". */
  lemma TitlePresent(chartType: string, fileName: string)
    ensures PresentText(TrimmedTitle(Some(ChartTitle(chartType, fileName))))
  {
    var title := ChartTitle(chartType, fileName);
    assert title[|chartType| + 1] == 'C' && !IsSpace('C');
    TrimNonBlank(title, |chartType| + 1);
  }

  class DashboardPage {
    var charts: seq<ChartRecord>
    var series: Series
    var selectedFile: Option<FileRecord>
    var chartType: string
    var xAxis: string
    var yAxis: string

    constructor ()
      ensures charts == [] && series == Series([], []) && selectedFile.None?
      ensures chartType == "bar" && xAxis == "month" && yAxis == "value"
    {
      charts := [];
      series := Series([], []);
      selectedFile := None;
      chartType := "bar";
      xAxis := "month";
      yAxis := "value";
    }

    /** saveChart; `response` is the created chart, None when the request
        failed. */
    method SaveChart(response: Option<ChartRecord>) returns (request: Option<ChartInput>, notice: Notice)
      modifies this`charts
      ensures request.None? <==> selectedFile.None?
      ensures request.None? ==> notice == Failure("Please select a file first")
      ensures request.Some? ==> request.value == SaveRequest(chartType, selectedFile.value, xAxis, yAxis, series)
      ensures request.Some? && response.Some? ==>
        charts == old(charts) + [response.value] && notice == Success("Chart saved successfully")
      ensures request.Some? && response.None? ==> notice == Failure("Failed to save chart")
      ensures !(request.Some? && response.Some?) ==> charts == old(charts)
    {
      if selectedFile.None? {
        return None, Failure("Please select a file first");
      }
      request := Some(SaveRequest(chartType, selectedFile.value, xAxis, yAxis, series));
      if response.None? {
        return request, Failure("Failed to save chart");
      }
      charts := charts + [response.value];
      notice := Success("Chart saved successfully");
    }

    /** deleteChart; `confirmed` is the answer to window.confirm and
        `deleted` whether the request succeeded. */
    method DeleteChart(id: Id, confirmed: bool, deleted: bool) returns (notice: Notice)
      modifies this`charts
      ensures confirmed && deleted ==> charts == Without(old(charts), ChartId, id)
      ensures confirmed && deleted ==> notice == Success("Chart deleted successfully")
      ensures !(confirmed && deleted) ==> charts == old(charts)
      ensures !confirmed ==> notice == Quiet
      ensures confirmed && !deleted ==> notice == Failure("Failed to delete chart")
    {
      if !confirmed {
        return Quiet;
      }
      if !deleted {
        return Failure("Failed to delete chart");
      }
      charts := Without(charts, ChartId, id);
      notice := Success("Chart deleted successfully");
    }

    /** The "Load Chart" button of a saved chart: the type and axes always,
        the series only when the chart holds both labels and values. */
    method LoadChart(chart: ChartRecord)
      modifies this`chartType, this`xAxis, this`yAxis, this`series
      ensures chartType == ChartTypeString(chart.chartType) && xAxis == chart.xAxis && yAxis == chart.yAxis
      ensures chart.data.labels.Some? && chart.data.values.Some? ==>
        series == Series(chart.data.labels.value, chart.data.values.value)
      ensures !(chart.data.labels.Some? && chart.data.values.Some?) ==> series == old(series)
    {
      chartType := ChartTypeString(chart.chartType);
      xAxis := chart.xAxis;
      yAxis := chart.yAxis;
      if chart.data.labels.Some? && chart.data.values.Some? {
        series := Series(chart.data.labels.value, chart.data.values.value);
      }
    }
  }

  /** A saved chart loaded back and saved again posts the same type, axes
      and series it was stored with. */
  lemma SaveAfterLoad(chart: ChartRecord, file: FileRecord)
    requires chart.data.labels.Some? && chart.data.values.Some?
    ensures var input := SaveRequest(ChartTypeString(chart.chartType), file, chart.xAxis, chart.yAxis,
                                     Series(chart.data.labels.value, chart.data.values.value));
      && input.data == Some(chart.data)
      && ParseChartType(input.chartType.value) == Some(chart.chartType)
      && input.xAxis == Some(chart.xAxis) && input.yAxis == Some(chart.yAxis)
  {
    ChartTypeRoundTrip(chart.chartType);
  }
}
