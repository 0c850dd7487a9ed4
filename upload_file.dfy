/** p-1/frontend/src/pages/UploadFile.jsx: the queue of files waiting to be
    uploaded. Picking files appends the spreadsheets among them, a file can
    be taken out by its position, and uploading an empty queue is refused.
    The requests themselves, run in parallel in the page, are one outcome
    here; the reset three seconds after a success is not part of this
    model. */
module UploadFile {
  import opened Wrappers
  import opened JsValues
  import opened Sorting
  import opened Notices

  /** A file the browser hands over. */
  datatype PickedFile = PickedFile(name: string, size: int)

  /** `name.split(".").pop().toLowerCase()`: the text after the last dot,
      or the whole name when it has none. */
  function Extension(name: string): string {
    var parts := Split(name, '.');
    ToLower(parts[|parts| - 1])
  }

  const AcceptedExtensions: seq<string> := ["xlsx", "xls", "csv"]

  predicate Accepted(f: PickedFile) {
    Extension(f.name) in AcceptedExtensions
  }

  /** The extension is what follows the last dot, lowercased; a name with no
      dot is its own extension. */
  lemma ExtensionSpec(base: string, ext: string, plain: string)
    requires '.' !in ext && '.' !in plain
    ensures Extension(base + "." + ext) == ToLower(ext)
    ensures Extension(plain) == ToLower(plain)
  {
    var name := base + "." + ext;
    assert name == base + ['.'] + ext;
    var parts := Split(name, '.');
    SplitLastPart(base, ext, '.');
    assert parts[|parts| - 1] == ext;
    SplitNoSeparator(plain, '.');
    assert Split(plain, '.')[0] == plain;
  }

  lemma LowerExamples()
    ensures ToLower("XLSX") == "xlsx" && ToLower("txt") == "txt" && ToLower("csv") == "csv"
  {
    assert "XLSX"[1..] == "LSX" && "LSX"[1..] == "SX" && "SX"[1..] == "X" && "X"[1..] == "";
    assert "txt"[1..] == "xt" && "xt"[1..] == "t" && "t"[1..] == "";
    assert "csv"[1..] == "sv" && "sv"[1..] == "v" && "v"[1..] == "";
  }

  /** Whatever the name before it, an upper-case ".XLSX" is accepted. */
  lemma UpperCaseAccepted(base: string, size: int)
    ensures Accepted(PickedFile(base + ".XLSX", size))
  {
    LowerExamples();
    ExtensionSpec(base, "XLSX", "csv");
    assert base + "." + "XLSX" == base + ".XLSX";
  }

  /** Whatever the name before it, a ".txt" file is refused. */
  lemma TextRefused(base: string, size: int)
    ensures !Accepted(PickedFile(base + ".txt", size))
  {
    LowerExamples();
    ExtensionSpec(base, "txt", "csv");
    assert base + "." + "txt" == base + ".txt";
  }

  /** A file called just "csv" is accepted: with no dot, the whole name is
      the extension. */
  lemma BareNameAccepted(size: int)
    ensures Accepted(PickedFile("csv", size))
  {
    LowerExamples();
    ExtensionSpec("", "", "csv");
  }

  /** The start position `splice(index, 1)` uses: a negative index counts
      from the end, and both are clamped into the array. */
  function SpliceStart(index: int, len: nat): (start: nat)
    ensures start <= len
  {
    if index < 0 then (if len + index < 0 then 0 else len + index)
    else if index > len then len else index
  }

  /** The queue after `splice(index, 1)` on a copy. */
  function RemovedAt<T>(s: seq<T>, index: int): seq<T> {
    var start := SpliceStart(index, |s|);
    if start < |s| then s[..start] + s[start + 1..] else s
  }

  /** Removing position i takes out exactly that element and keeps the
      others in order; -1 takes the last; an index past the end changes
      nothing. */
  lemma RemovedAtSpec<T>(s: seq<T>, i: int)
    ensures 0 <= i < |s| ==> (
      && |RemovedAt(s, i)| == |s| - 1
      && (forall j :: 0 <= j < i ==> RemovedAt(s, i)[j] == s[j])
      && (forall j :: i <= j < |s| - 1 ==> RemovedAt(s, i)[j] == s[j + 1])
      && multiset(RemovedAt(s, i)) + multiset{s[i]} == multiset(s))
    ensures s != [] ==> RemovedAt(s, -1) == s[..|s| - 1]
    ensures i >= |s| ==> RemovedAt(s, i) == s
  {
    if 0 <= i < |s| {
      assert s == s[..i] + [s[i]] + s[i + 1..];
    }
  }

  /** The upload page's state. */
  class UploadPage {
    var queue: seq<PickedFile>
    var error: Option<string>
    var uploading: bool
    var success: bool

    constructor ()
      ensures queue == [] && error == None && !uploading && !success
    {
      queue := [];
      error := None;
      uploading := false;
      success := false;
    }

    /** handleFiles: keep the spreadsheets; none gives an error and leaves
        the queue alone, otherwise they go after the queued ones in the
        order picked. */
    method HandleFiles(picked: seq<PickedFile>)
      modifies this`queue, this`error
      ensures Filter(picked, Accepted, true) == [] ==>
        queue == old(queue) && error == Some("Please upload Excel or CSV files only")
      ensures Filter(picked, Accepted, true) != [] ==>
        queue == old(queue) + Filter(picked, Accepted, true) && error == None
    {
      var accepted := Filter(picked, Accepted, true);
      if accepted == [] {
        error := Some("Please upload Excel or CSV files only");
        return;
      }
      error := None;
      queue := queue + accepted;
    }

    /** removeFile: copy the queue into a new array, splice one element out
        of the copy in place, and keep the copy. */
    method RemoveFile(index: int)
      modifies this`queue
      ensures queue == RemovedAt(old(queue), index)
    {
      var q := queue;
      var copy := new PickedFile[|q|];
      var k := 0;
      while k < copy.Length
        modifies copy
        invariant 0 <= k <= copy.Length
        invariant copy[..k] == q[..k]
      {
        copy[k] := q[k];
        k := k + 1;
      }
      assert copy[..] == q;
      var start := SpliceStart(index, copy.Length);
      if start < copy.Length {
        var j := start;
        while j + 1 < copy.Length
          modifies copy
          invariant start <= j < copy.Length
          invariant copy[..start] == q[..start]
          invariant copy[start..j] == q[start + 1..j + 1]
          invariant copy[j..] == q[j..]
        {
          copy[j] := copy[j + 1];
          j := j + 1;
        }
        assert copy[..copy.Length - 1] == copy[..start] + copy[start..j];
        assert q[start + 1..j + 1] == q[start + 1..];
        queue := copy[..copy.Length - 1];
      }
    }

    /** handleUpload: an empty queue is refused without a request or a
        toast; otherwise one request per queued file, a success toast with
        their number, and when any of them fails an error showing the
        server's message or a default beside an error toast. */
    method HandleUpload(allUploaded: bool, serverMessage: Option<string>) returns (requests: nat, notice: Notice)
      modifies this`error, this`uploading, this`success
      ensures requests == |queue|
      ensures queue == [] ==> error == Some("Please select at least one file to upload") && success == old(success)
      ensures queue == [] ==> notice == Quiet
      ensures queue != [] && allUploaded ==> success && error == None
      ensures queue != [] && allUploaded ==> notice == Success("Successfully uploaded " + NatString(|queue|) + " file(s)")
      ensures queue != [] && !allUploaded ==> (
        && success == old(success)
        && error == Some(if serverMessage.Some? && serverMessage.value != "" then serverMessage.value
                         else "Failed to upload files. Please try again.")
        && notice == Failure("Upload failed. Please try again."))
      ensures !uploading || queue == []
      ensures queue == [] ==> uploading == old(uploading)
    {
      if |queue| == 0 {
        error := Some("Please select at least one file to upload");
        return 0, Quiet;
      }
      uploading := true;
      error := None;
      requests := |queue|;
      if allUploaded {
        success := true;
        notice := Success("Successfully uploaded " + NatString(|queue|) + " file(s)");
      } else {
        error := Some(if serverMessage.Some? && serverMessage.value != "" then serverMessage.value
                      else "Failed to upload files. Please try again.");
        notice := Failure("Upload failed. Please try again.");
      }
      uploading := false;
    }
  }
}
