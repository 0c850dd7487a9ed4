/** p-1/backend/controllers/admin.controller.js: the paginated listings,
    a user's details and statistics, the cascading deletes, the system
    settings and the administrator's own profile. */
module AdminController {
  import opened Wrappers
  import opened JsValues
  import opened Sorting
  import opened Models
  import opened RecordStore
  import FileController
  import ChartController

  // ---------------------------------------------------------------------------
  // Listings: getAllUsers, getAllFiles, getAllCharts

  /** The query string of a listing request; None is an absent parameter. */
  datatype ListQuery = ListQuery(
    page: Option<string>,
    limit: Option<string>,
    search: Option<string>,
    sortBy: Option<string>,
    sortOrder: Option<string>)

  datatype Pagination = Pagination(page: int, limit: int, total: nat, pages: int)

  datatype Listing<T> = Listing(data: seq<T>, pagination: Pagination)

  /** `Number.parseInt(q) || fallback`: NaN and 0 give the fallback. */
  function PageParam(q: Option<string>, fallback: int): (r: int)
    ensures fallback != 0 ==> r != 0
  {
    if q.None? then fallback
    else match ParseInt(q.value)
      case None => fallback
      case Some(n) => if n == 0 then fallback else n
  }

  /** A parameter is never 0, and a positive number written in decimal is
      read back as itself; absent or unreadable parameters fall back. */
  lemma PageParamSpec(q: Option<string>, fallback: int, n: nat, text: string)
    requires fallback != 0
    ensures PageParam(q, fallback) != 0
    ensures PageParam(None, fallback) == fallback
    ensures n > 0 ==> PageParam(Some(NatString(n)), fallback) == n
    ensures PageParam(Some(NatString(0)), fallback) == fallback
    ensures text != "" && !IsSpace(text[0]) && !IsDigit(text[0]) && text[0] != '-' && text[0] != '+' ==>
      PageParam(Some(text), fallback) == fallback
  {
    ParseIntNatString(n);
    ParseIntNatString(0);
    if text != "" && !IsSpace(text[0]) && !IsDigit(text[0]) && text[0] != '-' && text[0] != '+' {
      ParseIntNonNumeric(text);
    }
  }

  /** `Math.ceil(total / limit)` for a limit that is not 0. */
  function PageCount(total: nat, limit: int): int
    requires limit != 0
  {
    if limit > 0 then (total + limit - 1) / limit else -(total / -limit)
  }

  /** With a positive limit the pages hold every document with less than one
      page to spare; with a negative limit the count is never positive. */
  lemma PageCountBounds(total: nat, limit: int)
    requires limit != 0
    ensures limit > 0 ==> PageCount(total, limit) >= 0
    ensures limit > 0 ==> total <= PageCount(total, limit) * limit < total + limit
    ensures limit < 0 ==> PageCount(total, limit) <= 0
  {
    if limit > 0 {
      var q := (total + limit - 1) / limit;
      var r := (total + limit - 1) % limit;
      assert q * limit + r == total + limit - 1;
    }
  }

  function Abs(n: int): nat { if n < 0 then -n else n }

  /** `.limit(limit).skip((page - 1) * limit)` over the sorted matches: a
      negative skip makes the database throw; a negative limit returns as
      many documents as a positive one. */
  function ListPage<T>(ordered: seq<T>, page: int, limit: int): (r: Reply<Listing<T>>)
    requires limit != 0
    ensures r.Passed? <==> (page - 1) * limit < 0
    ensures !r.Refused?
    ensures r.Done? ==> r.status == 200 && |r.value.data| <= Abs(limit)
    ensures r.Done? ==> r.value.pagination == Pagination(page, limit, |ordered|, PageCount(|ordered|, limit))
  {
    var skip := (page - 1) * limit;
    if skip < 0 then Passed("MongoServerError: skip value must be non-negative")
    else
      var from := if skip <= |ordered| then skip else |ordered|;
      var to := if from + Abs(limit) <= |ordered| then from + Abs(limit) else |ordered|;
      Done(200, Listing(ordered[from..to], Pagination(page, limit, |ordered|, PageCount(|ordered|, limit))))
  }

  /** Paging visits every document: with a positive limit, the i-th
      document is at position i % limit of page i / limit + 1. */
  lemma ListPageCovers<T>(ordered: seq<T>, limit: int, i: nat)
    requires limit > 0 && i < |ordered|
    ensures ListPage(ordered, i / limit + 1, limit).Done?
    ensures i % limit < |ListPage(ordered, i / limit + 1, limit).value.data|
    ensures ListPage(ordered, i / limit + 1, limit).value.data[i % limit] == ordered[i]
  {
    var page := i / limit + 1;
    assert (page - 1) * limit == (i / limit) * limit;
    assert (i / limit) * limit + i % limit == i;
    assert 0 <= (i / limit) * limit;
  }

  /** A page past the last one is empty. */
  lemma ListPagePastEnd<T>(ordered: seq<T>, page: int, limit: int)
    requires limit > 0 && page > PageCount(|ordered|, limit)
    ensures ListPage(ordered, page, limit).Done?
    ensures ListPage(ordered, page, limit).value.data == []
  {
    PageCountBounds(|ordered|, limit);
    var pages := PageCount(|ordered|, limit);
    assert page - 1 >= pages;
    assert (page - 1) * limit >= pages * limit by {
      MultiplyMonotone(page - 1, pages, limit);
    }
  }

  lemma MultiplyMonotone(a: int, b: int, c: nat)
    requires a >= b
    ensures a * c >= b * c
  {
  }

  /** The comparator `sort({ [sortBy]: sortOrder })` applies: ascending only
      for the exact text "asc". */
  function Directed<T>(le: (T, T) -> bool, sortOrder: Option<string>): (T, T) -> bool {
    if sortOrder == Some("asc") then le else (a, b) => le(b, a)
  }

  /** The documents a `search` selects: every document for an empty or
      absent search, otherwise those `matches` accepts. */
  function Search<T>(docs: seq<T>, search: Option<string>, matches: (string, T) -> bool): seq<T> {
    var term := search.GetOr("");
    if term == "" then docs else Filter(docs, x => matches(term, x), true)
  }

  /** Reversing a consistent comparator gives a consistent comparator. */
  lemma DirectedPreorder<T(!new)>(le: (T, T) -> bool, sortOrder: Option<string>)
    requires TotalPreorder(le)
    ensures TotalPreorder(Directed(le, sortOrder))
  {
  }

  /** `sortBy || default`: an absent or empty field falls back. */
  function SortField(q: ListQuery, defaultSort: string): string {
    if q.sortBy.None? || q.sortBy.value == "" then defaultSort else q.sortBy.value
  }

  /** One listing handler: defaults page 1, limit 10 and the given sort
      field; `order` maps a field name to its ascending comparator. */
  function ListDocuments<T>(docs: seq<T>, q: ListQuery, defaultSort: string,
                            matches: (string, T) -> bool, order: string -> ((T, T) -> bool)): Reply<Listing<T>>
  {
    var page := PageParam(q.page, 1);
    var limit := PageParam(q.limit, 10);
    var found := Search(docs, q.search, matches);
    ListPage(SortBy(found, Directed(order(SortField(q, defaultSort)), q.sortOrder)), page, limit)
  }

  /** A listing counts every document the search selects and returns only
      such documents, at most `limit` of them; an empty search counts the
      whole collection. */
  lemma ListDocumentsSpec<T(!new)>(docs: seq<T>, q: ListQuery, defaultSort: string,
                             matches: (string, T) -> bool, order: string -> ((T, T) -> bool))
    ensures var r := ListDocuments(docs, q, defaultSort, matches, order);
      r.Done? ==> (
        && r.value.pagination.total == |Search(docs, q.search, matches)|
        && |r.value.data| <= Abs(PageParam(q.limit, 10))
        && (forall x :: x in r.value.data ==> x in docs)
        && (q.search.GetOr("") != "" ==> forall x :: x in r.value.data ==> matches(q.search.value, x)))
    ensures q.search.GetOr("") == "" ==> Search(docs, q.search, matches) == docs
    ensures var r := ListDocuments(docs, q, defaultSort, matches, order);
      r.Done? && TotalPreorder(order(SortField(q, defaultSort))) ==>
        SortedBy(r.value.data, Directed(order(SortField(q, defaultSort)), q.sortOrder))
  {
    var term := q.search.GetOr("");
    var found := Search(docs, q.search, matches);
    var le := Directed(order(SortField(q, defaultSort)), q.sortOrder);
    var ordered := SortBy(found, le);
    PageParamSpec(q.limit, 10, 0, "");
    if term != "" {
      FilterMembers(docs, x => matches(term, x), true);
    }
    var r := ListDocuments(docs, q, defaultSort, matches, order);
    if r.Done? {
      forall x | x in r.value.data ensures x in found {
        assert x in ordered;
        assert x in multiset(ordered);
      }
      if TotalPreorder(order(SortField(q, defaultSort))) {
        DirectedPreorder(order(SortField(q, defaultSort)), q.sortOrder);
        SortBySorted(found, le);
        ListPageSlice(ordered, PageParam(q.page, 1), PageParam(q.limit, 10), le);
      }
    }
  }

  /** A page is a run of consecutive documents of the ordered list, so it
      keeps the list's order. */
  lemma ListPageSlice<T>(ordered: seq<T>, page: int, limit: int, le: (T, T) -> bool)
    requires limit != 0 && SortedBy(ordered, le)
    ensures ListPage(ordered, page, limit).Done? ==> SortedBy(ListPage(ordered, page, limit).value.data, le)
  {
  }

  /** getAllUsers (searched by name or e-mail): the total counts every user
      the search selects, the page holds only users, and without a sort
      field the page is ordered by `createdAt`, newest first unless "asc". */
  function GetAllUsers(users: seq<User>, q: ListQuery, matches: (string, User) -> bool,
                       order: string -> ((User, User) -> bool)): (r: Reply<Listing<User>>)
    ensures r.Done? ==> r.value.pagination.total == |Search(users, q.search, matches)|
    ensures r.Done? ==> forall x :: x in r.value.data ==> x in users
    ensures r.Done? && q.sortBy.None? && TotalPreorder(order("createdAt")) ==>
      SortedBy(r.value.data, Directed(order("createdAt"), q.sortOrder))
  {
    ListDocumentsSpec(users, q, "createdAt", matches, order);
    ListDocuments(users, q, "createdAt", matches, order)
  }

  /** getAllFiles (searched by name): as getAllUsers, ordered by
      `uploadedAt` without a sort field. */
  function GetAllFiles(files: seq<FileRecord>, q: ListQuery, matches: (string, FileRecord) -> bool,
                       order: string -> ((FileRecord, FileRecord) -> bool)): (r: Reply<Listing<FileRecord>>)
    ensures r.Done? ==> r.value.pagination.total == |Search(files, q.search, matches)|
    ensures r.Done? ==> forall x :: x in r.value.data ==> x in files
    ensures r.Done? && q.sortBy.None? && TotalPreorder(order("uploadedAt")) ==>
      SortedBy(r.value.data, Directed(order("uploadedAt"), q.sortOrder))
  {
    ListDocumentsSpec(files, q, "uploadedAt", matches, order);
    ListDocuments(files, q, "uploadedAt", matches, order)
  }

  /** getAllCharts (searched by title): as getAllUsers, ordered by
      `createdAt` without a sort field. */
  function GetAllCharts(charts: seq<ChartRecord>, q: ListQuery, matches: (string, ChartRecord) -> bool,
                        order: string -> ((ChartRecord, ChartRecord) -> bool)): (r: Reply<Listing<ChartRecord>>)
    ensures r.Done? ==> r.value.pagination.total == |Search(charts, q.search, matches)|
    ensures r.Done? ==> forall x :: x in r.value.data ==> x in charts
    ensures r.Done? && q.sortBy.None? && TotalPreorder(order("createdAt")) ==>
      SortedBy(r.value.data, Directed(order("createdAt"), q.sortOrder))
  {
    ListDocumentsSpec(charts, q, "createdAt", matches, order);
    ListDocuments(charts, q, "createdAt", matches, order)
  }

  /** A request with no parameters: page 1 of 10, the default sort field,
      descending, over the whole collection. */
  lemma DefaultListing<T>(docs: seq<T>, defaultSort: string, matches: (string, T) -> bool,
                          order: string -> ((T, T) -> bool))
    ensures var r := ListDocuments(docs, ListQuery(None, None, None, None, None), defaultSort, matches, order);
      r.Done? && r.value.pagination == Pagination(1, 10, |docs|, PageCount(|docs|, 10))
      && r.value.data == SortBy(docs, Directed(order(defaultSort), None))[..if |docs| < 10 then |docs| else 10]
  {
    var q := ListQuery(None, None, None, None, None);
    assert PageParam(q.page, 1) == 1 && PageParam(q.limit, 10) == 10;
    assert Search(docs, q.search, matches) == docs;
    var ordered := SortBy(docs, Directed(order(defaultSort), None));
    assert |ordered| == |docs| by {
      assert |multiset(ordered)| == |multiset(docs)|;
    }
    assert ListDocuments(docs, q, defaultSort, matches, order) == ListPage(ordered, 1, 10);
  }

  // ---------------------------------------------------------------------------
  // getUserDetails

  datatype UserStats = UserStats(totalFiles: nat, totalCharts: nat, totalStorage: int)

  datatype UserDetails = UserDetails(user: User, files: seq<FileRecord>, charts: seq<ChartRecord>, stats: UserStats)

  /** `files.reduce((sum, file) => sum + file.size, 0)` */
  function SumSizes(files: seq<FileRecord>): int {
    if files == [] then 0 else files[0].size + SumSizes(files[1..])
  }

  lemma {:induction false} SumSizesInsert(x: FileRecord, s: seq<FileRecord>, le: (FileRecord, FileRecord) -> bool)
    ensures SumSizes(InsertBy(x, s, le)) == x.size + SumSizes(s)
  {
    if s != [] && !le(x, s[0]) {
      SumSizesInsert(x, s[1..], le);
      assert InsertBy(x, s, le)[1..] == InsertBy(x, s[1..], le);
    }
  }

  /** The order files are listed in does not change the storage total. */
  lemma {:induction false} SumSizesSorted(s: seq<FileRecord>, le: (FileRecord, FileRecord) -> bool)
    ensures SumSizes(SortBy(s, le)) == SumSizes(s)
  {
    if s != [] {
      SumSizesSorted(s[1..], le);
      SumSizesInsert(s[0], SortBy(s[1..], le), le);
    }
  }

  function GetUserDetails(users: seq<User>, files: seq<FileRecord>, charts: seq<ChartRecord>, id: Id): (r: Reply<UserDetails>)
    ensures !r.Passed?
    ensures r.Refused? <==> FindBy(users, UserId, id).None?
    ensures r.Refused? ==> r.status == 404 && r.message == "User not found"
    ensures r.Done? ==> r.status == 200 && r.value.user in users && r.value.user.id == id
    ensures r.Done? ==> (
      && r.value.stats.totalFiles == |Only(files, FileOwner, id)|
      && r.value.stats.totalCharts == |Only(charts, ChartCreator, id)|
      && r.value.stats.totalStorage == SumSizes(Only(files, FileOwner, id)))
    ensures r.Done? ==> (
      && (forall f :: f in r.value.files <==> f in files && f.uploadedBy == id)
      && (forall c :: c in r.value.charts <==> c in charts && c.createdBy == id))
  {
    match FindBy(users, UserId, id)
    case None => Refused(404, "User not found")
    case Some(user) =>
      var owned := FileController.GetFiles(files, id);
      var made := ChartController.GetCharts(charts, id);
      UserListings(files, charts, id);
      Done(200, UserDetails(user, owned, made, UserStats(|owned|, |made|, SumSizes(owned))))
  }

  /** The two listings getUserDetails reads: the user's documents, counted
      and summed as if unsorted. */
  lemma UserListings(files: seq<FileRecord>, charts: seq<ChartRecord>, id: Id)
    ensures |FileController.GetFiles(files, id)| == |Only(files, FileOwner, id)|
    ensures |ChartController.GetCharts(charts, id)| == |Only(charts, ChartCreator, id)|
    ensures SumSizes(FileController.GetFiles(files, id)) == SumSizes(Only(files, FileOwner, id))
    ensures forall f :: f in FileController.GetFiles(files, id) <==> f in files && f.uploadedBy == id
    ensures forall c :: c in ChartController.GetCharts(charts, id) <==> c in charts && c.createdBy == id
  {
    FileController.GetFilesSpec(files, id);
    ChartController.GetChartsSpec(charts, id);
    assert |multiset(FileController.GetFiles(files, id))| == |multiset(Only(files, FileOwner, id))|;
    assert |multiset(ChartController.GetCharts(charts, id))| == |multiset(Only(charts, ChartCreator, id))|;
    SumSizesSorted(Only(files, FileOwner, id), FileController.NewerUpload);
  }

  // ---------------------------------------------------------------------------
  // The cascading deletes

  /** deleteUser: the user's files, then the user's charts, then the user. */
  method DeleteUser(db: Store, id: Id) returns (reply: Reply<()>)
    requires db.Valid()
    modifies db`users, db`files, db`charts
    ensures db.Valid()
    ensures !reply.Passed?
    ensures reply.Refused? <==> FindBy(old(db.users), UserId, id).None?
    ensures reply.Refused? ==> reply.status == 404 && reply.message == "User not found"
    ensures reply.Done? ==> (
      && reply.status == 200
      && db.files == Without(old(db.files), FileOwner, id)
      && db.charts == Without(old(db.charts), ChartCreator, id)
      && db.users == Without(old(db.users), UserId, id))
    ensures reply.Done? ==> (
      && id !in UserIds(db.users)
      && (forall f :: f in db.files <==> f in old(db.files) && f.uploadedBy != id)
      && (forall c :: c in db.charts <==> c in old(db.charts) && c.createdBy != id))
    ensures !reply.Done? ==> db.users == old(db.users) && db.files == old(db.files) && db.charts == old(db.charts)
  {
    if FindBy(db.users, UserId, id).None? {
      return Refused(404, "User not found");
    }
    WithoutMembers(db.files, FileOwner, id);
    WithoutMembers(db.charts, ChartCreator, id);
    UserIdsWithout(db.users, id);
    WithoutDistinct(db.files, FileId, FileOwner, id);
    WithoutDistinct(db.charts, ChartId, ChartCreator, id);
    db.files := Without(db.files, FileOwner, id);
    db.charts := Without(db.charts, ChartCreator, id);
    db.users := Without(db.users, UserId, id);
    reply := Done(200, ());
  }

  /** Admin deleteFile: every chart drawn from the file, then the file; unlike
      the owner's delete, no chart is left pointing at a removed file. */
  method DeleteFile(db: Store, id: Id) returns (reply: Reply<()>)
    requires db.Valid()
    modifies db`files, db`charts
    ensures db.Valid()
    ensures !reply.Passed?
    ensures reply.Refused? <==> FindBy(old(db.files), FileId, id).None?
    ensures reply.Refused? ==> reply.status == 404 && reply.message == "File not found"
    ensures reply.Done? ==> (
      && reply.status == 200
      && db.charts == Without(old(db.charts), ChartFile, id)
      && db.files == Without(old(db.files), FileId, id))
    ensures reply.Done? ==> (
      && (forall c :: c in db.charts <==> c in old(db.charts) && c.file != id)
      && (forall f :: f in db.files <==> f in old(db.files) && f.id != id))
    ensures !reply.Done? ==> db.files == old(db.files) && db.charts == old(db.charts)
  {
    if FindBy(db.files, FileId, id).None? {
      return Refused(404, "File not found");
    }
    WithoutMembers(db.charts, ChartFile, id);
    WithoutMembers(db.files, FileId, id);
    WithoutDistinct(db.charts, ChartId, ChartFile, id);
    WithoutDistinct(db.files, FileId, FileId, id);
    db.charts := Without(db.charts, ChartFile, id);
    db.files := Without(db.files, FileId, id);
    reply := Done(200, ());
  }

  /** Admin deleteChart: any chart, whoever created it. */
  method DeleteChart(db: Store, id: Id) returns (reply: Reply<()>)
    requires db.Valid()
    modifies db`charts
    ensures db.Valid()
    ensures !reply.Passed?
    ensures reply.Refused? <==> FindBy(old(db.charts), ChartId, id).None?
    ensures reply.Refused? ==> reply.status == 404 && reply.message == "Chart not found"
    ensures reply.Done? ==> reply.status == 200 && db.charts == Without(old(db.charts), ChartId, id)
    ensures reply.Done? ==> forall c :: c in db.charts <==> c in old(db.charts) && c.id != id
    ensures !reply.Done? ==> db.charts == old(db.charts)
  {
    if FindBy(db.charts, ChartId, id).None? {
      return Refused(404, "Chart not found");
    }
    WithoutMembers(db.charts, ChartId, id);
    WithoutDistinct(db.charts, ChartId, ChartId, id);
    db.charts := Without(db.charts, ChartId, id);
    reply := Done(200, ());
  }

  // ---------------------------------------------------------------------------
  // System settings

  /** The settings fields of the request body; None is undefined. */
  datatype SettingsInput = SettingsInput(
    maxFileSize: Option<int>,
    allowedFileTypes: Option<seq<string>>,
    maxFilesPerUser: Option<int>,
    dataRetentionDays: Option<int>,
    enableNotifications: Option<bool>,
    enableAnalytics: Option<bool>)

  /** `v || current` for a number: undefined and 0 keep the current value. */
  function NumberOr(v: Option<int>, current: int): int {
    if v.Some? && v.value != 0 then v.value else current
  }

  /** `v !== undefined ? v : current` */
  function SuppliedOr<T>(v: Option<T>, current: T): T {
    if v.Some? then v.value else current
  }

  /** The assignments of updateSystemSettings. An array is always truthy, so
      a supplied list, even an empty one, replaces the stored one. */
  function MergeSettings(base: Settings, input: SettingsInput, editor: Id, now: int): (s: Settings)
    ensures s.updatedBy == Some(editor) && s.updatedAt == Some(now)
    // a supplied non-zero number replaces the value; undefined and 0 keep it
    ensures input.maxFileSize.Some? && input.maxFileSize.value != 0 ==> s.maxFileSize == input.maxFileSize.value
    ensures input.maxFileSize.None? || input.maxFileSize == Some(0) ==> s.maxFileSize == base.maxFileSize
    ensures input.maxFilesPerUser.Some? && input.maxFilesPerUser.value != 0 ==> s.maxFilesPerUser == input.maxFilesPerUser.value
    ensures input.maxFilesPerUser.None? || input.maxFilesPerUser == Some(0) ==> s.maxFilesPerUser == base.maxFilesPerUser
    ensures input.dataRetentionDays.Some? && input.dataRetentionDays.value != 0 ==> s.dataRetentionDays == input.dataRetentionDays.value
    ensures input.dataRetentionDays.None? || input.dataRetentionDays == Some(0) ==> s.dataRetentionDays == base.dataRetentionDays
    // an array is truthy even when empty
    ensures input.allowedFileTypes.Some? ==> s.allowedFileTypes == input.allowedFileTypes.value
    ensures input.allowedFileTypes.None? ==> s.allowedFileTypes == base.allowedFileTypes
    // a boolean is taken whenever it is supplied, false included
    ensures input.enableNotifications.Some? ==> s.enableNotifications == input.enableNotifications.value
    ensures input.enableNotifications.None? ==> s.enableNotifications == base.enableNotifications
    ensures input.enableAnalytics.Some? ==> s.enableAnalytics == input.enableAnalytics.value
    ensures input.enableAnalytics.None? ==> s.enableAnalytics == base.enableAnalytics
  {
    Settings(
      NumberOr(input.maxFileSize, base.maxFileSize),
      SuppliedOr(input.allowedFileTypes, base.allowedFileTypes),
      NumberOr(input.maxFilesPerUser, base.maxFilesPerUser),
      NumberOr(input.dataRetentionDays, base.dataRetentionDays),
      SuppliedOr(input.enableNotifications, base.enableNotifications),
      SuppliedOr(input.enableAnalytics, base.enableAnalytics),
      Some(editor),
      Some(now))
  }

  /** An empty body changes only who updated the settings and when; sending
      the same body again changes nothing more. */
  lemma MergeSettingsSpec(base: Settings, input: SettingsInput, editor: Id, now: int)
    ensures MergeSettings(base, SettingsInput(None, None, None, None, None, None), editor, now)
      == base.(updatedBy := Some(editor), updatedAt := Some(now))
    ensures MergeSettings(MergeSettings(base, input, editor, now), input, editor, now) == MergeSettings(base, input, editor, now)
    ensures (SettingsValid(base) && input.maxFileSize.None? && input.maxFilesPerUser.None? && input.dataRetentionDays.None?)
      ==> SettingsValid(MergeSettings(base, input, editor, now))
  {
  }

  /** updateSystemSettings: merge into the stored settings or into a fresh
      default document, then save, which runs the min/max validators. */
  method UpdateSystemSettings(db: Store, editor: Id, input: SettingsInput, now: int) returns (reply: Reply<Settings>)
    requires db.Valid()
    modifies db`settings
    ensures db.Valid()
    ensures !reply.Refused?
    ensures reply.Done? <==> SettingsValid(MergeSettings(old(db.settings).GetOr(DefaultSettings(Some(now))), input, editor, now))
    ensures reply.Done? ==> (
      && reply.status == 200
      && reply.value == MergeSettings(old(db.settings).GetOr(DefaultSettings(Some(now))), input, editor, now)
      && db.settings == Some(reply.value))
    ensures !reply.Done? ==> db.settings == old(db.settings)
  {
    var base := if db.settings.Some? then db.settings.value else DefaultSettings(Some(now));
    var merged := MergeSettings(base, input, editor, now);
    if !SettingsValid(merged) {
      return Passed("SystemSettings validation failed");
    }
    db.settings := Some(merged);
    reply := Done(200, merged);
  }

  /** getSystemSettings: the stored document, or the defaults. */
  function GetSystemSettings(stored: Option<Settings>): (r: Settings)
    ensures (stored.Some? ==> SettingsValid(stored.value)) ==> SettingsValid(r)
    ensures stored.None? ==> (
      && r.maxFileSize == 10 && r.allowedFileTypes == ["xlsx", "xls", "csv"] && r.maxFilesPerUser == 100
      && r.dataRetentionDays == 365 && r.enableNotifications && r.enableAnalytics)
  {
    match stored
    case None => DefaultSettings(None)
    case Some(s) => s
  }

  // ---------------------------------------------------------------------------
  // updateAdminProfile

  datatype ProfileInput = ProfileInput(
    name: Option<string>,
    email: Option<string>,
    currentPassword: Option<string>,
    newPassword: Option<string>)

  /** A string request field is truthy when present and not empty. */
  predicate Truthy(v: Option<string>) {
    v.Some? && v.value != ""
  }

  /** The profile change on the loaded administrator: a new password needs
      the current one, and it must match; `name || admin.name` and
      `email || admin.email` keep the old value for an empty field. */
  function ApplyProfile(admin: Admin, body: ProfileInput): (r: Result<Admin, string>)
    ensures r.Ok? <==> !Truthy(body.newPassword) || (Truthy(body.currentPassword) && body.currentPassword.value == admin.password)
    ensures r.Ok? ==> r.value.password == (if Truthy(body.newPassword) then body.newPassword.value else admin.password)
    ensures r.Ok? ==> (
      && r.value.name == (if Truthy(body.name) then body.name.value else admin.name)
      && r.value.email == (if Truthy(body.email) then body.email.value else admin.email))
    ensures r.Ok? ==> (
      && r.value.id == admin.id && r.value.permissions == admin.permissions
      && r.value.isActive == admin.isActive && r.value.lastLogin == admin.lastLogin)
  {
    if Truthy(body.newPassword) && !Truthy(body.currentPassword) then
      Err("Current password is required to change password")
    else if Truthy(body.newPassword) && body.currentPassword.value != admin.password then
      Err("Current password is incorrect")
    else
      var password := if Truthy(body.newPassword) then body.newPassword.value else admin.password;
      Ok(admin.(
        password := password,
        name := if Truthy(body.name) then body.name.value else admin.name,
        email := if Truthy(body.email) then body.email.value else admin.email))
  }

  /** After a password change the new password is the current one: it
      authorises the next change and the old one no longer does. */
  lemma PasswordChangeRoundTrip(admin: Admin, current: string, chosen: string, later: string)
    requires current != "" && chosen != "" && later != "" && current == admin.password && chosen != current
    ensures ApplyProfile(admin, ProfileInput(None, None, Some(current), Some(chosen))).Ok?
    ensures var changed := ApplyProfile(admin, ProfileInput(None, None, Some(current), Some(chosen))).value;
      && changed == admin.(password := chosen)
      && ApplyProfile(changed, ProfileInput(None, None, Some(chosen), Some(later))).Ok?
      && ApplyProfile(changed, ProfileInput(None, None, Some(current), Some(later))).Err?
  {
  }

  /** updateAdminProfile for the administrator `requester`. The Admin schema
      is not part of this model: saving is taken to succeed. */
  method UpdateAdminProfile(db: Store, requester: Id, body: ProfileInput) returns (reply: Reply<()>)
    requires db.Valid()
    modifies db`admins
    ensures db.Valid()
    ensures !reply.Passed?
    ensures reply.Refused? && reply.status == 404 <==> FindBy(old(db.admins), AdminId, requester).None?
    ensures reply.Refused? ==> reply.status in {400, 404}
    ensures reply == Refused(404, "Admin not found") <==> FindBy(old(db.admins), AdminId, requester).None?
    ensures reply.Refused? && reply.status == 400 ==>
      FindBy(old(db.admins), AdminId, requester).Some?
      && ApplyProfile(FindBy(old(db.admins), AdminId, requester).value, body).Err?
      && reply.message == ApplyProfile(FindBy(old(db.admins), AdminId, requester).value, body).error
    ensures reply.Done? <==>
      FindBy(old(db.admins), AdminId, requester).Some?
      && ApplyProfile(FindBy(old(db.admins), AdminId, requester).value, body).Ok?
    ensures reply.Done? ==> (
      && reply.status == 200
      && db.admins == old(db.admins)[IndexOf(old(db.admins), AdminId, requester) :=
           ApplyProfile(FindBy(old(db.admins), AdminId, requester).value, body).value])
    ensures !reply.Done? ==> db.admins == old(db.admins)
  {
    var i := IndexOf(db.admins, AdminId, requester);
    if i == |db.admins| {
      return Refused(404, "Admin not found");
    }
    var updated := ApplyProfile(db.admins[i], body);
    if updated.Err? {
      return Refused(400, updated.error);
    }
    ReplaceMembers(db.admins, i, updated.value);
    db.admins := db.admins[i := updated.value];
    reply := Done(200, ());
  }
}
