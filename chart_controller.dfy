/** p-1/backend/controllers/chart.controller.js: create, list, read, update
    and delete a chart. Each handler looks the document up, answers 404 or
    401, and only then changes the chart collection. */
module ChartController {
  import opened Wrappers
  import opened JsValues
  import opened Sorting
  import opened Models
  import opened RecordStore

  const ChartNotFound: string := "Chart not found"

  /** createChart. `body.file` is the request's `fileId`. */
  method CreateChart(db: Store, requester: Id, body: ChartInput, now: int) returns (reply: Reply<ChartRecord>)
    requires db.Valid() && requester in UserIds(db.users)
    modifies db`charts, db`nextId
    ensures db.Valid()
    ensures reply.Refused? && reply.status == 404 <==> body.file.None? || FindBy(db.files, FileId, body.file.value).None?
    ensures reply.Refused? && reply.status == 401 <==>
      body.file.Some? && FindBy(db.files, FileId, body.file.value).Some?
      && FindBy(db.files, FileId, body.file.value).value.uploadedBy != requester
    ensures reply.Refused? ==> reply == Refused(404, "File not found") || reply == Refused(401, "Not authorized to use this file")
    ensures reply.Done? <==>
      body.file.Some? && FindBy(db.files, FileId, body.file.value).Some?
      && FindBy(db.files, FileId, body.file.value).value.uploadedBy == requester && ChartInputValid(body)
    ensures reply.Done? ==> reply.status == 201 && db.charts == old(db.charts) + [reply.value]
    ensures reply.Done? ==> (
      && reply.value.createdBy == requester && reply.value.file == body.file.value
      && reply.value.title == Trim(body.title.value) && ChartTypeString(reply.value.chartType) == body.chartType.value
      && reply.value.xAxis == body.xAxis.value && reply.value.yAxis == body.yAxis.value
      && reply.value.data == body.data.value && reply.value.createdAt == now)
    ensures reply.Done? ==> FindBy(db.charts, ChartId, reply.value.id) == Some(reply.value)
    ensures !reply.Done? ==> db.charts == old(db.charts)
  {
    if body.file.None? {
      return Refused(404, "File not found");
    }
    var file := FindBy(db.files, FileId, body.file.value);
    if file.None? {
      return Refused(404, "File not found");
    }
    if file.value.uploadedBy != requester {
      return Refused(401, "Not authorized to use this file");
    }
    var created := NewChart(body, requester, db.nextId, now);
    if created.Err? {
      return Passed(created.error);
    }
    db.AppendChart(created.value);
    reply := Done(201, created.value);
  }

  /** `sort({ createdAt: -1 })`: newer first. */
  function NewerChart(a: ChartRecord, b: ChartRecord): bool {
    a.createdAt >= b.createdAt
  }

  /** getCharts: the requester's charts, newest first. */
  function GetCharts(charts: seq<ChartRecord>, requester: Id): seq<ChartRecord> {
    SortBy(Only(charts, ChartCreator, requester), NewerChart)
  }

  lemma GetChartsSpec(charts: seq<ChartRecord>, requester: Id)
    ensures forall c :: c in GetCharts(charts, requester) <==> c in charts && c.createdBy == requester
    ensures multiset(GetCharts(charts, requester)) == multiset(Only(charts, ChartCreator, requester))
    ensures forall i, j :: 0 <= i < j < |GetCharts(charts, requester)| ==>
      GetCharts(charts, requester)[i].createdAt >= GetCharts(charts, requester)[j].createdAt
  {
    ListingSpec(charts, ChartCreator, requester, NewerChart);
  }

  /** getChart: 404 without the chart, an exception when its creator cannot
      be populated, 401 unless the requester created it or has role
      "admin". */
  function GetChart(charts: seq<ChartRecord>, users: seq<User>, requester: Id, role: string, id: Id): (r: Reply<ChartRecord>)
    ensures r.Done? ==> r.status == 200 && r.value in charts && r.value.id == id
    ensures r.Done? ==> r.value.createdBy == requester || role == "admin"
    ensures r.Refused? && r.status == 404 <==> FindBy(charts, ChartId, id).None?
    ensures r == Refused(404, ChartNotFound) <==> FindBy(charts, ChartId, id).None?
    ensures r == Refused(401, "Not authorized to access this chart") <==>
      FindBy(charts, ChartId, id).Some? && FindBy(charts, ChartId, id).value.createdBy in UserIds(users)
      && FindBy(charts, ChartId, id).value.createdBy != requester && role != "admin"
    ensures (forall c :: c in charts ==> c.createdBy in UserIds(users)) ==> !r.Passed?
    ensures (FindBy(charts, ChartId, id).Some? && FindBy(charts, ChartId, id).value.createdBy in UserIds(users)
      && (FindBy(charts, ChartId, id).value.createdBy == requester || role == "admin"))
      ==> r == Done(200, FindBy(charts, ChartId, id).value)
  {
    match FindBy(charts, ChartId, id)
    case None => Refused(404, ChartNotFound)
    case Some(c) =>
      if c.createdBy !in UserIds(users) then Passed("TypeError: createdBy is null")
      else if c.createdBy != requester && role != "admin" then Refused(401, "Not authorized to access this chart")
      else Done(200, c)
  }

  /** The fields of an update body that name chart paths; None is absent. */
  datatype ChartPatch = ChartPatch(
    title: Option<string>,
    chartType: Option<string>,
    xAxis: Option<string>,
    yAxis: Option<string>,
    data: Option<ChartData>)

  /** The update validators (`runValidators: true`): they run only on the
      paths the update sets, after the trim setter. */
  predicate PatchValid(patch: ChartPatch) {
    && (patch.title.Some? ==> Trim(patch.title.value) != "")
    && (patch.chartType.Some? ==> ParseChartType(patch.chartType.value).Some?)
    && (patch.xAxis.Some? ==> patch.xAxis.value != "")
    && (patch.yAxis.Some? ==> patch.yAxis.value != "")
  }

  /** The document findByIdAndUpdate returns with `new: true`: every path the
      body sets replaced, the rest, `updatedAt` included, as it was. */
  function ApplyPatch(c: ChartRecord, patch: ChartPatch): (u: ChartRecord)
    requires PatchValid(patch)
    ensures u.id == c.id && u.createdBy == c.createdBy && u.file == c.file
    ensures u.createdAt == c.createdAt && u.updatedAt == c.updatedAt
    ensures ChartWellFormed(c) ==> ChartWellFormed(u)
  {
    c.(
      title := if patch.title.Some? then Trim(patch.title.value) else c.title,
      chartType := if patch.chartType.Some? then ParseChartType(patch.chartType.value).value else c.chartType,
      xAxis := patch.xAxis.GetOr(c.xAxis),
      yAxis := patch.yAxis.GetOr(c.yAxis),
      data := patch.data.GetOr(c.data))
  }

  /** Patching with an empty body gives back the same chart; patching twice
      with the same body is patching once. */
  lemma ApplyPatchIdempotent(c: ChartRecord, patch: ChartPatch)
    requires PatchValid(patch)
    ensures ApplyPatch(c, ChartPatch(None, None, None, None, None)) == c
    ensures ApplyPatch(ApplyPatch(c, patch), patch) == ApplyPatch(c, patch)
  {
  }

  /** updateChart */
  method UpdateChart(db: Store, requester: Id, id: Id, patch: ChartPatch) returns (reply: Reply<ChartRecord>)
    requires db.Valid()
    modifies db`charts
    ensures db.Valid()
    ensures reply.Refused? && reply.status == 404 <==> FindBy(old(db.charts), ChartId, id).None?
    ensures reply.Refused? && reply.status == 401 <==>
      FindBy(old(db.charts), ChartId, id).Some? && FindBy(old(db.charts), ChartId, id).value.createdBy != requester
    ensures reply == Refused(404, ChartNotFound) <==> FindBy(old(db.charts), ChartId, id).None?
    ensures reply == Refused(401, "Not authorized to update this chart") <==>
      FindBy(old(db.charts), ChartId, id).Some? && FindBy(old(db.charts), ChartId, id).value.createdBy != requester
    ensures reply.Done? <==>
      FindBy(old(db.charts), ChartId, id).Some? && FindBy(old(db.charts), ChartId, id).value.createdBy == requester
      && PatchValid(patch)
    ensures reply.Done? ==> (
      && reply.status == 200
      && reply.value == ApplyPatch(FindBy(old(db.charts), ChartId, id).value, patch)
      && db.charts == old(db.charts)[IndexOf(old(db.charts), ChartId, id) := reply.value])
    ensures !reply.Done? ==> db.charts == old(db.charts)
  {
    var i := IndexOf(db.charts, ChartId, id);
    if i == |db.charts| {
      return Refused(404, ChartNotFound);
    }
    var chart := db.charts[i];
    if chart.createdBy != requester {
      return Refused(401, "Not authorized to update this chart");
    }
    if !PatchValid(patch) {
      return Passed("Validation failed");
    }
    var updated := ApplyPatch(chart, patch);
    ReplaceMembers(db.charts, i, updated);
    db.charts := db.charts[i := updated];
    reply := Done(200, updated);
  }

  /** deleteChart: only the creator may delete, and only that chart goes. */
  method DeleteChart(db: Store, requester: Id, id: Id) returns (reply: Reply<()>)
    requires db.Valid()
    modifies db`charts
    ensures db.Valid()
    ensures !reply.Passed?
    ensures reply.Refused? && reply.status == 404 <==> FindBy(old(db.charts), ChartId, id).None?
    ensures reply.Done? <==>
      FindBy(old(db.charts), ChartId, id).Some? && FindBy(old(db.charts), ChartId, id).value.createdBy == requester
    ensures reply == Refused(404, ChartNotFound) <==> FindBy(old(db.charts), ChartId, id).None?
    ensures reply == Refused(401, "Not authorized to delete this chart") <==>
      FindBy(old(db.charts), ChartId, id).Some? && FindBy(old(db.charts), ChartId, id).value.createdBy != requester
    ensures reply.Done? ==> reply.status == 200 && db.charts == Without(old(db.charts), ChartId, id)
    ensures reply.Done? ==> forall c :: c in db.charts <==> c in old(db.charts) && c.id != id
    ensures !reply.Done? ==> db.charts == old(db.charts)
  {
    var chart := FindBy(db.charts, ChartId, id);
    if chart.None? {
      return Refused(404, ChartNotFound);
    }
    if chart.value.createdBy != requester {
      return Refused(401, "Not authorized to delete this chart");
    }
    WithoutMembers(db.charts, ChartId, id);
    WithoutDistinct(db.charts, ChartId, ChartId, id);
    db.charts := Without(db.charts, ChartId, id);
    reply := Done(200, ());
  }
}
