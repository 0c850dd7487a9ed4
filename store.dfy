/** The document store the controllers talk to through mongoose, held in
    memory: one sequence per collection in insertion order, the stored
    system settings (at most one document), and the counter that hands out
    fresh ids. A handler's answer is a Reply. */
module RecordStore {
  import opened Wrappers
  import opened Sorting
  import opened Models

  /** What a handler does with the request: answer with a status and a body
      (`Done`), answer with a status and a message (`Refused`), or pass an
      exception to `next(error)` (`Passed`), whose status the error
      middleware chooses. */
  datatype Reply<+T> = Done(status: nat, value: T) | Refused(status: nat, message: string) | Passed(error: string)

  /** The predicate of a `{ field: id }` query. */
  function Matches<T>(key: T -> Id, id: Id): T -> bool {
    x => key(x) == id
  }

  /** The documents with `key == id`, in store order (`find({ key: id })`). */
  function Only<T>(s: seq<T>, key: T -> Id, id: Id): seq<T> {
    Filter(s, Matches(key, id), true)
  }

  /** The documents left after `deleteMany({ key: id })`, in store order. */
  function Without<T>(s: seq<T>, key: T -> Id, id: Id): seq<T> {
    Filter(s, Matches(key, id), false)
  }

  lemma OnlyMembers<T>(s: seq<T>, key: T -> Id, id: Id)
    ensures forall x :: x in Only(s, key, id) <==> x in s && key(x) == id
  {
    FilterMembers(s, Matches(key, id), true);
  }

  lemma WithoutMembers<T>(s: seq<T>, key: T -> Id, id: Id)
    ensures forall x :: x in Without(s, key, id) <==> x in s && key(x) != id
  {
    FilterMembers(s, Matches(key, id), false);
  }

  /** Deleting by id keeps the other documents in their order: it distributes
      over concatenation and leaves a part with no match as it was. */
  lemma WithoutKeepsOrder<T>(a: seq<T>, b: seq<T>, key: T -> Id, id: Id)
    ensures Without(a + b, key, id) == Without(a, key, id) + Without(b, key, id)
    ensures (forall x :: x in a ==> key(x) != id) ==> Without(a, key, id) == a
  {
    FilterAppend(a, b, Matches(key, id), false);
    if forall x :: x in a ==> key(x) != id {
      FilterAll(a, Matches(key, id), false);
    }
  }

  /** No two documents share a key value. */
  predicate DistinctKeys<T>(s: seq<T>, key: T -> Id) {
    forall i, j :: 0 <= i < j < |s| ==> key(s[i]) != key(s[j])
  }

  /** Deleting documents, by any key, keeps the remaining ids distinct. */
  lemma {:induction false} WithoutDistinct<T>(s: seq<T>, key: T -> Id, del: T -> Id, id: Id)
    requires DistinctKeys(s, key)
    ensures DistinctKeys(Without(s, del, id), key)
  {
    if s != [] {
      var rest := s[1..];
      assert DistinctKeys(rest, key) by {
        forall i, j | 0 <= i < j < |rest| ensures key(rest[i]) != key(rest[j]) {
          assert rest[i] == s[i + 1] && rest[j] == s[j + 1];
        }
      }
      WithoutDistinct(rest, key, del, id);
      var tail := Without(rest, del, id);
      if del(s[0]) != id {
        assert Without(s, del, id) == [s[0]] + tail;
        assert forall i :: 0 <= i < |rest| ==> key(rest[i]) != key(s[0]) by {
          forall i | 0 <= i < |rest| ensures key(rest[i]) != key(s[0]) {
            assert rest[i] == s[i + 1];
          }
        }
        WithoutKeyAbsent(rest, key, del, id, key(s[0]));
        forall i, j | 0 <= i < j < |[s[0]] + tail| ensures key(([s[0]] + tail)[i]) != key(([s[0]] + tail)[j]) {
          if i == 0 {
            assert ([s[0]] + tail)[j] == tail[j - 1];
          } else {
            assert ([s[0]] + tail)[i] == tail[i - 1] && ([s[0]] + tail)[j] == tail[j - 1];
          }
        }
      } else {
        assert Without(s, del, id) == tail;
      }
    }
  }

  /** A key value no document has is still absent after a delete. */
  lemma {:induction false} WithoutKeyAbsent<T>(t: seq<T>, key: T -> Id, del: T -> Id, id: Id, k: Id)
    requires forall i :: 0 <= i < |t| ==> key(t[i]) != k
    ensures forall i :: 0 <= i < |Without(t, del, id)| ==> key(Without(t, del, id)[i]) != k
  {
    if t != [] {
      WithoutKeyAbsent(t[1..], key, del, id, k);
      var tail := Without(t[1..], del, id);
      if del(t[0]) != id {
        assert Without(t, del, id) == [t[0]] + tail;
      } else {
        assert Without(t, del, id) == tail;
      }
    }
  }

  /** The position of the first document whose key is id, |s| when none. */
  function IndexOf<T>(s: seq<T>, key: T -> Id, id: Id): (i: nat)
    ensures i <= |s|
    ensures i < |s| ==> key(s[i]) == id
  {
    if s == [] then 0
    else if key(s[0]) == id then 0
    else 1 + IndexOf(s[1..], key, id)
  }

  lemma {:induction false} IndexOfAbsent<T>(s: seq<T>, key: T -> Id, id: Id)
    ensures IndexOf(s, key, id) == |s| <==> forall x :: x in s ==> key(x) != id
  {
    if s != [] {
      IndexOfAbsent(s[1..], key, id);
      assert s == [s[0]] + s[1..];
    }
  }

  /** `findById(id)` / `findOne({ key: id })`: the first match, or null. */
  function FindBy<T>(s: seq<T>, key: T -> Id, id: Id): (r: Option<T>)
    ensures r.Some? ==> r.value in s && key(r.value) == id
  {
    var i := IndexOf(s, key, id);
    if i < |s| then Some(s[i]) else None
  }

  lemma FindByNone<T>(s: seq<T>, key: T -> Id, id: Id)
    ensures FindBy(s, key, id).None? <==> forall x :: x in s ==> key(x) != id
  {
    IndexOfAbsent(s, key, id);
  }

  /** A document appended with an id no earlier document has is the one
      findById returns for that id. */
  lemma {:induction false} FindAppended<T>(s: seq<T>, x: T, key: T -> Id)
    requires forall y :: y in s ==> key(y) != key(x)
    ensures FindBy(s + [x], key, key(x)) == Some(x)
  {
    if s == [] {
      assert [x][0] == x;
    } else {
      assert (s + [x])[1..] == s[1..] + [x];
      FindAppended(s[1..], x, key);
    }
  }

  /** A `find({ key: id }).sort(...)` listing: exactly the matching
      documents, each once per occurrence, ordered by `le`. */
  lemma ListingSpec<T(!new)>(s: seq<T>, key: T -> Id, id: Id, le: (T, T) -> bool)
    requires TotalPreorder(le)
    ensures forall x :: x in SortBy(Only(s, key, id), le) <==> x in s && key(x) == id
    ensures multiset(SortBy(Only(s, key, id), le)) == multiset(Only(s, key, id))
    ensures SortedBy(SortBy(Only(s, key, id), le), le)
  {
    OnlyMembers(s, key, id);
    SortBySorted(Only(s, key, id), le);
    var r := SortBy(Only(s, key, id), le);
    forall x ensures x in r <==> x in Only(s, key, id) {
      assert x in r <==> x in multiset(r);
    }
  }

  /** Replacing one document leaves only the old ones and the replacement. */
  lemma ReplaceMembers<T>(s: seq<T>, i: nat, u: T)
    requires i < |s|
    ensures forall x :: x in s[i := u] ==> x in s || x == u
  {
    forall x | x in s[i := u] ensures x in s || x == u {
      var k :| 0 <= k < |s[i := u]| && s[i := u][k] == x;
      if k != i {
        assert x == s[k];
      }
    }
  }

  function UserIds(users: seq<User>): set<Id> {
    set u | u in users :: u.id
  }

  /** Deleting the user with an id removes exactly that id from the ids. */
  lemma UserIdsWithout(users: seq<User>, id: Id)
    ensures UserIds(Without(users, UserId, id)) == UserIds(users) - {id}
  {
    WithoutMembers(users, UserId, id);
    var left := Without(users, UserId, id);
    forall k | k in UserIds(users) - {id} ensures k in UserIds(left) {
      var u :| u in users && u.id == k;
      assert u in left;
    }
  }

  class Store {
    var users: seq<User>
    var admins: seq<Admin>
    var files: seq<FileRecord>
    var charts: seq<ChartRecord>
    var settings: Option<Settings>
    var nextId: Id

    /** Every id handed out is below nextId and no two files or two charts
        share one; every file and chart belongs to a stored user and passed
        its schema; stored settings passed theirs. */
    ghost predicate Valid()
      reads this
    {
      && DistinctKeys(files, FileId)
      && DistinctKeys(charts, ChartId)
      && (forall f :: f in files ==> f.id < nextId && f.uploadedBy in UserIds(users) && f.name != "")
      && (forall c :: c in charts ==> c.id < nextId && c.createdBy in UserIds(users) && ChartWellFormed(c))
      && (forall a :: a in admins ==> a.id < nextId)
      && (settings.Some? ==> SettingsValid(settings.value))
    }

    constructor (users: seq<User>, admins: seq<Admin>, firstId: Id)
      requires forall a :: a in admins ==> a.id < firstId
      ensures Valid()
      ensures this.users == users && this.admins == admins && nextId == firstId
      ensures files == [] && charts == [] && settings == None
    {
      this.users := users;
      this.admins := admins;
      files := [];
      charts := [];
      settings := None;
      nextId := firstId;
    }

    /** Stores a new file document under the next id. */
    method AppendFile(f: FileRecord)
      requires Valid() && f.id == nextId && f.uploadedBy in UserIds(users) && f.name != ""
      modifies this`files, this`nextId
      ensures Valid()
      ensures files == old(files) + [f] && nextId == old(nextId) + 1
      ensures FindBy(files, FileId, f.id) == Some(f)
    {
      FindAppended(files, f, FileId);
      files := files + [f];
      nextId := nextId + 1;
    }

    /** Stores a new chart document under the next id. */
    method AppendChart(c: ChartRecord)
      requires Valid() && c.id == nextId && c.createdBy in UserIds(users) && ChartWellFormed(c)
      modifies this`charts, this`nextId
      ensures Valid()
      ensures charts == old(charts) + [c] && nextId == old(nextId) + 1
      ensures FindBy(charts, ChartId, c.id) == Some(c)
    {
      FindAppended(charts, c, ChartId);
      forall x | x in charts + [c]
        ensures x.id < nextId + 1 && x.createdBy in UserIds(users) && ChartWellFormed(x)
      {
        if x !in charts {
          assert x == c;
        }
      }
      charts := charts + [c];
      nextId := nextId + 1;
    }
  }
}
