/** The three mongoose schemas of the core (p-1/backend/models/Chart.model.js,
    File.model.js, SystemSettings.model.js) and the two records the
    controllers read from models that are not part of this model (User and
    Admin). Creating a document runs the schema as mongoose does: the `trim`
    setter first, then the `required`, `enum`, `min` and `max` validators,
    then the defaults; a failed validation is a ValidationError and nothing is
    written. */
module Models {
  import opened Wrappers
  import opened JsValues
  import opened ParseExcel

  /** A document id (an ObjectId in the source). */
  type Id = nat

  /** mongoose's `required` validator on a String path: undefined and "" fail. */
  predicate PresentText(v: Option<string>) {
    v.Some? && v.value != ""
  }

  // ---------------------------------------------------------------------------
  // Chart (p-1/backend/models/Chart.model.js)

  datatype ChartType = Bar | Bar3d | Pie | Pie3d | Line | Area | Scatter

  /** The enum values of the `type` path, in declaration order. */
  const ChartTypeNames: seq<string> := ["bar", "bar3d", "pie", "pie3d", "line", "area", "scatter"]

  function ChartTypeString(t: ChartType): string {
    match t
    case Bar => "bar"
    case Bar3d => "bar3d"
    case Pie => "pie"
    case Pie3d => "pie3d"
    case Line => "line"
    case Area => "area"
    case Scatter => "scatter"
  }

  /** The enum validator: a string is accepted iff it names one of the types. */
  function ParseChartType(s: string): (r: Option<ChartType>)
    ensures r.Some? <==> s in ChartTypeNames
    ensures r.Some? ==> ChartTypeString(r.value) == s
  {
    if s == "bar" then Some(Bar)
    else if s == "bar3d" then Some(Bar3d)
    else if s == "pie" then Some(Pie)
    else if s == "pie3d" then Some(Pie3d)
    else if s == "line" then Some(Line)
    else if s == "area" then Some(Area)
    else if s == "scatter" then Some(Scatter)
    else None
  }

  lemma ChartTypeRoundTrip(t: ChartType)
    ensures ParseChartType(ChartTypeString(t)) == Some(t)
  {
  }

  /** The Mixed `data` path as the dashboard writes and reads it: the series
      the chart was drawn from. Either part may be missing. */
  datatype ChartData = ChartData(labels: Option<seq<string>>, values: Option<seq<real>>)

  datatype ChartRecord = ChartRecord(
    id: Id,
    title: string,
    chartType: ChartType,
    file: Id,
    xAxis: string,
    yAxis: string,
    data: ChartData,
    createdBy: Id,
    createdAt: int,
    updatedAt: int)

  /** The fields of Chart.create(...) as the request supplied them; None is
      undefined. */
  datatype ChartInput = ChartInput(
    title: Option<string>,
    chartType: Option<string>,
    file: Option<Id>,
    xAxis: Option<string>,
    yAxis: Option<string>,
    data: Option<ChartData>)

  /** The value the `title` setter stores: the trimmed string. */
  function TrimmedTitle(title: Option<string>): Option<string> {
    match title
    case None => None
    case Some(t) => Some(Trim(t))
  }

  /** The validators of the chart schema, run on the values after setters. */
  predicate ChartInputValid(input: ChartInput) {
    && PresentText(TrimmedTitle(input.title))
    && input.chartType.Some? && ParseChartType(input.chartType.value).Some?
    && input.file.Some?
    && PresentText(input.xAxis)
    && PresentText(input.yAxis)
    && input.data.Some?
  }

  /** A chart as every save leaves it: a non-empty title that trimming does
      not change, and non-empty axis names. */
  predicate ChartWellFormed(c: ChartRecord) {
    c.title != "" && Trimmed(c.title) && c.xAxis != "" && c.yAxis != ""
  }

  /** Chart.create(input): a ValidationError names the schema, otherwise the
      new document with both timestamps defaulting to `now`. */
  function NewChart(input: ChartInput, creator: Id, id: Id, now: int): (r: Result<ChartRecord, string>)
    ensures r.Ok? <==> ChartInputValid(input)
    ensures r.Ok? ==> ChartWellFormed(r.value)
    ensures r.Ok? ==> (
      && r.value.id == id && r.value.createdBy == creator && r.value.file == input.file.value
      && ChartTypeString(r.value.chartType) == input.chartType.value
      && r.value.xAxis == input.xAxis.value && r.value.yAxis == input.yAxis.value && r.value.data == input.data.value
      && r.value.title == Trim(input.title.value))
    ensures r.Ok? ==> r.value.createdAt == now && r.value.updatedAt == now
  {
    if !ChartInputValid(input) then Err("Chart validation failed")
    else
      var title := Trim(input.title.value);
      Ok(ChartRecord(id, title, ParseChartType(input.chartType.value).value, input.file.value,
        input.xAxis.value, input.yAxis.value, input.data.value, creator, now, now))
  }

  // ---------------------------------------------------------------------------
  // File (p-1/backend/models/File.model.js)

  /** The Mixed `data` path: `{}` by default; an upload stores the sheet. */
  datatype FileData = EmptyData | Table(headers: seq<string>, rows: seq<Row>)

  datatype FileRecord = FileRecord(
    id: Id,
    name: string,
    originalName: string,
    path: string,
    size: int,
    mimeType: string,
    rows: int,
    columns: int,
    data: FileData,
    uploadedBy: Id,
    uploadedAt: int,
    lastModified: int)

  datatype FileInput = FileInput(
    name: Option<string>,
    originalName: Option<string>,
    path: Option<string>,
    size: Option<int>,
    mimeType: Option<string>,
    rows: Option<int>,
    columns: Option<int>,
    data: Option<FileData>,
    uploadedBy: Option<Id>)

  predicate FileInputValid(input: FileInput) {
    && PresentText(TrimmedTitle(input.name))
    && PresentText(input.originalName)
    && PresentText(input.path)
    && input.size.Some?
    && PresentText(input.mimeType)
    && input.uploadedBy.Some?
  }

  /** File.create(input): required paths checked after the name is trimmed;
      rows and columns default to 0, data to `{}`, both dates to `now`. */
  function NewFile(input: FileInput, id: Id, now: int): (r: Result<FileRecord, string>)
    ensures r.Ok? <==> FileInputValid(input)
    ensures r.Ok? ==> (
      && r.value.id == id && r.value.name != "" && Trimmed(r.value.name)
      && r.value.uploadedBy == input.uploadedBy.value
      && r.value.originalName == input.originalName.value && r.value.path == input.path.value
      && r.value.size == input.size.value && r.value.mimeType == input.mimeType.value)
    ensures r.Ok? ==> (
      && r.value.rows == input.rows.GetOr(0) && r.value.columns == input.columns.GetOr(0)
      && r.value.data == input.data.GetOr(EmptyData))
    ensures r.Ok? ==> r.value.uploadedAt == now && r.value.lastModified == now
  {
    if !FileInputValid(input) then Err("File validation failed")
    else
      Ok(FileRecord(id, Trim(input.name.value), input.originalName.value, input.path.value, input.size.value,
        input.mimeType.value, input.rows.GetOr(0), input.columns.GetOr(0), input.data.GetOr(EmptyData),
        input.uploadedBy.value, now, now))
  }

  // ---------------------------------------------------------------------------
  // SystemSettings (p-1/backend/models/SystemSettings.model.js)

  datatype Settings = Settings(
    maxFileSize: int,
    allowedFileTypes: seq<string>,
    maxFilesPerUser: int,
    dataRetentionDays: int,
    enableNotifications: bool,
    enableAnalytics: bool,
    updatedBy: Option<Id>,
    updatedAt: Option<int>)

  const DefaultFileTypes: seq<string> := ["xlsx", "xls", "csv"]

  /** `new SystemSettings()`: every default, updatedAt set to `now`. */
  function DefaultSettings(now: Option<int>): Settings {
    Settings(10, DefaultFileTypes, 100, 365, true, true, None, now)
  }

  /** The min/max validators of the schema. */
  predicate SettingsValid(s: Settings) {
    1 <= s.maxFileSize <= 100 && s.maxFilesPerUser >= 1 && s.dataRetentionDays >= 30
  }

  lemma DefaultsValid(now: Option<int>)
    ensures SettingsValid(DefaultSettings(now))
    ensures DefaultSettings(now).maxFileSize == 10 && DefaultSettings(now).maxFilesPerUser == 100
    ensures DefaultSettings(now).dataRetentionDays == 365 && DefaultSettings(now).allowedFileTypes == ["xlsx", "xls", "csv"]
    ensures DefaultSettings(now).enableNotifications && DefaultSettings(now).enableAnalytics
  {
  }

  // ---------------------------------------------------------------------------
  // Records of models outside the core: only the fields the controllers use.

  datatype User = User(id: Id, name: string, email: string, role: string)

  /** An administrator. The password is held as the value bcrypt compares
      against; hashing is not modelled. */
  datatype Admin = Admin(
    id: Id,
    name: string,
    email: string,
    password: string,
    permissions: seq<string>,
    isActive: bool,
    lastLogin: Option<int>)

  function FileId(f: FileRecord): Id { f.id }
  function FileOwner(f: FileRecord): Id { f.uploadedBy }
  function ChartId(c: ChartRecord): Id { c.id }
  function ChartFile(c: ChartRecord): Id { c.file }
  function ChartCreator(c: ChartRecord): Id { c.createdBy }
  function UserId(u: User): Id { u.id }
  function AdminId(a: Admin): Id { a.id }
}
