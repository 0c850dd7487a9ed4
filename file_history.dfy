/** p-1/frontend/src/pages/FileHistory.jsx: the list the history page shows
    (search, owner filter, sort) and its two delete handlers. String
    comparison with localeCompare is a parameter `nameLe`. */
module FileHistory {
  import opened Wrappers
  import opened JsValues
  import opened Sorting
  import opened Models
  import opened RecordStore
  import opened Notices

  /** A file as the page receives it; `owner` is the populated uploader's
      `_id`, None when the uploader no longer exists. */
  datatype ListedFile = ListedFile(id: Id, name: string, owner: Option<Id>, uploadedAt: int)

  function ListedId(f: ListedFile): Id { f.id }

  /** `file.name.toLowerCase().includes(searchTerm.toLowerCase())` */
  predicate MatchesSearch(f: ListedFile, term: string) {
    Includes(ToLower(f.name), ToLower(term))
  }

  /** `filterBy === "all" || (filterBy === "mine" && file.uploadedBy?._id === user?.id)` */
  predicate MatchesUser(f: ListedFile, filterBy: string, user: Option<Id>) {
    filterBy == "all" || (filterBy == "mine" && f.owner == user)
  }

  function Keep(term: string, filterBy: string, user: Option<Id>): ListedFile -> bool {
    f => MatchesSearch(f, term) && MatchesUser(f, filterBy, user)
  }

  /** The sort callback as a "may come first" relation: newest and oldest
      compare upload times, name uses `nameLe`, any other key answers 0. */
  function Comparator(sortBy: string, nameLe: (string, string) -> bool): (ListedFile, ListedFile) -> bool {
    if sortBy == "newest" then (a: ListedFile, b: ListedFile) => a.uploadedAt >= b.uploadedAt
    else if sortBy == "oldest" then (a: ListedFile, b: ListedFile) => a.uploadedAt <= b.uploadedAt
    else if sortBy == "name" then (a: ListedFile, b: ListedFile) => nameLe(a.name, b.name)
    else (a: ListedFile, b: ListedFile) => true
  }

  /** `filteredFiles` */
  function Shown(files: seq<ListedFile>, term: string, filterBy: string, sortBy: string, user: Option<Id>,
                 nameLe: (string, string) -> bool): seq<ListedFile>
  {
    SortBy(Filter(files, Keep(term, filterBy, user), true), Comparator(sortBy, nameLe))
  }

  /** A file is shown iff it matches the search and the owner filter, and
      the shown list takes nothing from outside `files`, each file at most
      as often as it is there. */
  lemma ShownSpec(files: seq<ListedFile>, term: string, filterBy: string, sortBy: string, user: Option<Id>,
                  nameLe: (string, string) -> bool)
    ensures forall f :: f in Shown(files, term, filterBy, sortBy, user, nameLe) <==>
      f in files && MatchesSearch(f, term) && MatchesUser(f, filterBy, user)
    ensures multiset(Shown(files, term, filterBy, sortBy, user, nameLe)) <= multiset(files)
  {
    var kept := Filter(files, Keep(term, filterBy, user), true);
    FilterMembers(files, Keep(term, filterBy, user), true);
    FilterPartition(files, Keep(term, filterBy, user));
    var shown := Shown(files, term, filterBy, sortBy, user, nameLe);
    forall f ensures f in shown <==> f in kept {
      assert f in shown <==> f in multiset(shown);
    }
  }

  lemma {:induction false} LowerEmpty()
    ensures ToLower("") == ""
  {
  }

  /** With an empty search and the "all" filter every file is shown. */
  lemma EmptySearchShowsAll(files: seq<ListedFile>, sortBy: string, user: Option<Id>, nameLe: (string, string) -> bool)
    ensures multiset(Shown(files, "", "all", sortBy, user, nameLe)) == multiset(files)
  {
    LowerEmpty();
    forall f | f in files ensures Keep("", "all", user)(f) {
      assert "" <= ToLower(f.name);
    }
    FilterAll(files, Keep("", "all", user), true);
  }

  /** "newest" lists later uploads first, "oldest" earlier ones first,
      "name" follows `nameLe` when it is a consistent order, and any other
      key keeps the filtered list as it was. */
  lemma ShownOrder(files: seq<ListedFile>, term: string, filterBy: string, sortBy: string, user: Option<Id>,
                   nameLe: (string, string) -> bool)
    ensures var s := Shown(files, term, filterBy, sortBy, user, nameLe);
      sortBy == "newest" ==> forall i, j :: 0 <= i < j < |s| ==> s[i].uploadedAt >= s[j].uploadedAt
    ensures var s := Shown(files, term, filterBy, sortBy, user, nameLe);
      sortBy == "oldest" ==> forall i, j :: 0 <= i < j < |s| ==> s[i].uploadedAt <= s[j].uploadedAt
    ensures var s := Shown(files, term, filterBy, sortBy, user, nameLe);
      sortBy == "name" && TotalPreorder(nameLe) ==> forall i, j :: 0 <= i < j < |s| ==> nameLe(s[i].name, s[j].name)
    ensures sortBy !in {"newest", "oldest", "name"} ==>
      Shown(files, term, filterBy, sortBy, user, nameLe) == Filter(files, Keep(term, filterBy, user), true)
  {
    var kept := Filter(files, Keep(term, filterBy, user), true);
    var le := Comparator(sortBy, nameLe);
    if sortBy in {"newest", "oldest"} || (sortBy == "name" && TotalPreorder(nameLe)) {
      assert TotalPreorder(le);
      SortBySorted(kept, le);
    } else if sortBy != "name" {
      SortByConstant(kept, le);
    }
  }

  /** The history page's list. */
  class HistoryPage {
    var files: seq<ListedFile>

    constructor (loaded: seq<ListedFile>)
      ensures files == loaded
    {
      files := loaded;
    }

    /** handleDelete: after a confirmed and successful request, the entries
        with that id are dropped and the rest keep their order; the toast
        says whether the request succeeded. */
    method HandleDelete(id: Id, confirmed: bool, deleted: bool) returns (requested: bool, notice: Notice)
      modifies this`files
      ensures requested == confirmed
      ensures files == if confirmed && deleted then Without(old(files), ListedId, id) else old(files)
      ensures notice == if !confirmed then Quiet
        else if deleted then Success("File deleted successfully")
        else Failure("Failed to delete file")
    {
      requested := confirmed;
      notice := Quiet;
      if confirmed {
        if deleted {
          files := Without(files, ListedId, id);
          notice := Success("File deleted successfully");
        } else {
          notice := Failure("Failed to delete file");
        }
      }
    }

    /** handleDeleteAll: one request per file; `outcomes[i]` says whether
        the i-th succeeded, and the list is emptied, with a success toast,
        only when all did. */
    method HandleDeleteAll(confirmed: bool, outcomes: seq<bool>) returns (requested: nat, notice: Notice)
      requires |outcomes| == |files|
      modifies this`files
      ensures requested == if confirmed then |old(files)| else 0
      ensures files == if confirmed && (forall i :: 0 <= i < |outcomes| ==> outcomes[i]) then [] else old(files)
      ensures notice == if !confirmed then Quiet
        else if forall i :: 0 <= i < |outcomes| ==> outcomes[i] then Success("All files deleted successfully")
        else Failure("Failed to delete all files")
    {
      requested := if confirmed then |files| else 0;
      notice := Quiet;
      if confirmed {
        if forall i :: 0 <= i < |outcomes| ==> outcomes[i] {
          files := [];
          notice := Success("All files deleted successfully");
        } else {
          notice := Failure("Failed to delete all files");
        }
      }
    }
  }

  /** A single delete removes exactly the entries with that id. */
  lemma DeleteSpec(files: seq<ListedFile>, id: Id, rest: seq<ListedFile>)
    requires forall f :: f in rest ==> f.id != id
    ensures forall f :: f in Without(files, ListedId, id) <==> f in files && f.id != id
    ensures Without(rest + files, ListedId, id) == rest + Without(files, ListedId, id)
  {
    WithoutMembers(files, ListedId, id);
    WithoutKeepsOrder(rest, files, ListedId, id);
  }
}
