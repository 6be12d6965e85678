/**
 * FileUpload: the drop zone and file picker.  It classifies the chosen file,
 * shows an idle / success / error status, tracks whether a drag hovers over
 * it, and hands the file (or null) to the page's `onDataUpload` callback.
 */
module Upload {
  import Wrappers

  type Option<T> = Wrappers.Option<T>

  /** The two properties of a browser `File` the component reads. */
  datatype File = File(name: string, mimeType: string)

  datatype UploadState = Idle | Success | Error

  datatype Status = Status(state: UploadState, name: string)

  /** `s.endsWith(suffix)`, comparing characters exactly. */
  predicate EndsWith(s: string, suffix: string)
  {
    |suffix| <= |s| && s[|s| - |suffix|..] == suffix
  }

  /** The accept rule: a `text/csv` media type, or a name ending in ".csv". */
  predicate Accepts(f: File)
  {
    f.mimeType == "text/csv" || EndsWith(f.name, ".csv")
  }

  /** A file is accepted exactly when its type is text/csv or its name is some stem followed by ".csv". */
  lemma {:induction false} AcceptsIff(f: File)
    ensures Accepts(f) <==> f.mimeType == "text/csv" || exists stem :: f.name == stem + ".csv"
  {
    if EndsWith(f.name, ".csv") {
      assert f.name == f.name[..|f.name| - 4] + ".csv";
    }
    if exists stem :: f.name == stem + ".csv" {
      var stem :| f.name == stem + ".csv";
      assert f.name[|f.name| - 4..] == ".csv";
    }
  }

  /** The suffix test is case-sensitive: an upper-case name with another media type is rejected. */
  lemma UpperCaseSuffixRejected()
    ensures !Accepts(File("DATA.CSV", "application/vnd.ms-excel"))
    ensures Accepts(File("DATA.CSV", "text/csv"))
    ensures Accepts(File("data.csv", ""))
  {
    var upper := "DATA.CSV";
    assert upper[|upper| - 4..] == ".CSV";
    assert ".CSV" != ".csv" by { assert ".CSV"[1] != ".csv"[1]; }
    var lower := "data.csv";
    assert lower[|lower| - 4..] == ".csv";
  }

  class FileUpload {
    var dragActive: bool
    var status: Status
    /** The file input's `value`. */
    var inputValue: string

    constructor ()
      ensures !dragActive && status == Status(Idle, "") && inputValue == ""
    {
      dragActive := false;
      status := Status(Idle, "");
      inputValue := "";
    }

    /**
     * `handleFile`: sets the status and calls `onDataUpload` exactly once; the
     * arguments of those calls are returned in order.
     */
    method HandleFile(file: Option<File>) returns (calls: seq<Option<File>>)
      modifies this`status
      ensures |calls| == 1
      ensures file.None? ==> status == Status(Idle, "") && calls[0].None?
      ensures file.Some? && Accepts(file.value) ==> status == Status(Success, file.value.name) && calls[0] == file
      ensures file.Some? && !Accepts(file.value) ==> status == Status(Error, file.value.name) && calls[0].None?
    {
      if file.None? {
        status := Status(Idle, "");
        calls := [Wrappers.None];
        return;
      }
      var f := file.value;
      if f.mimeType == "text/csv" || EndsWith(f.name, ".csv") {
        status := Status(Success, f.name);
        calls := [file];
      } else {
        status := Status(Error, f.name);
        calls := [Wrappers.None];
      }
    }

    /** `handleDrag`: entering or hovering sets the flag, leaving clears it, any other event keeps it. */
    method HandleDrag(eventType: string)
      modifies this`dragActive
      ensures eventType == "dragenter" || eventType == "dragover" ==> dragActive
      ensures eventType == "dragleave" ==> !dragActive
      ensures eventType !in {"dragenter", "dragover", "dragleave"} ==> dragActive == old(dragActive)
    {
      if eventType == "dragenter" || eventType == "dragover" {
        dragActive := true;
      } else if eventType == "dragleave" {
        dragActive := false;
      }
    }

    /** `handleDrop`: clears the flag and handles the first dropped file, if there is one. */
    method HandleDrop(files: seq<File>) returns (calls: seq<Option<File>>)
      modifies this`dragActive, this`status
      ensures !dragActive
      ensures files == [] ==> calls == [] && status == old(status)
      ensures files != [] ==> (|calls| == 1 && (calls[0].Some? <==> Accepts(files[0])) &&
        (calls[0].Some? ==> calls[0].value == files[0]) &&
        status == Status(if Accepts(files[0]) then Success else Error, files[0].name))
    {
      dragActive := false;
      calls := [];
      if files != [] {
        calls := HandleFile(Wrappers.Some(files[0]));
      }
    }

    /** `handleChange`: handles the first chosen file, if there is one, and always clears the input. */
    method HandleChange(files: seq<File>) returns (calls: seq<Option<File>>)
      modifies this`status, this`inputValue
      ensures inputValue == ""
      ensures files == [] ==> calls == [] && status == old(status)
      ensures files != [] ==> (|calls| == 1 && (calls[0].Some? <==> Accepts(files[0])) &&
        (calls[0].Some? ==> calls[0].value == files[0]) &&
        status == Status(if Accepts(files[0]) then Success else Error, files[0].name))
    {
      calls := [];
      if files != [] {
        calls := HandleFile(Wrappers.Some(files[0]));
      }
      inputValue := "";
    }
  }
}
