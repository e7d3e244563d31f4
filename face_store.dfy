/**
 * The face-recognition backend's folder store: enrolling replaces one
 * person's folder with the uploaded images, folders can be listed and
 * deleted, and a verification reports the best match's file name. The store
 * directory is a map from entry names to entries: a folder of files (file
 * name to content) or a plain file. The face search itself is outside the
 * model: its result table is an input. Paths follow POSIX: `/` separates
 * components.
 */
module FaceStore {
  import opened Wrappers
  import opened Strings

  /** An uploaded file: its client-side file name (which may hold folders) and its content. */
  datatype Upload = Upload(filename: string, data: string)

  /** An entry of the store directory. */
  datatype Entry = Folder(files: map<string, string>) | PlainFile

  /**
   * A route's answer: a successful enrollment (the person and the number of
   * uploads it reports), a successful deletion, an error with its status, or
   * an exception's 500.
   */
  datatype Reply =
    | Enrolled(name: string, count: nat)
    | Deleted(name: string)
    | Error(status: int, text: string)
    | ServerError

  /** `os.path.basename`: what follows the last `/`. */
  function Basename(path: string): string {
    LastPiece(path, '/')
  }

  /** The person's name: the second-to-last `/`-separated part of the file name, or "unknown" without a `/`. */
  function PersonName(filename: string): (r: string)
    ensures '/' !in r
  {
    var parts := Split(filename, '/');
    if |parts| > 1 then parts[|parts| - 2] else "unknown"
  }

  /** A file name without any `/` gives the "unknown" person. */
  lemma PersonNameWithoutFolder(filename: string)
    requires '/' !in filename
    ensures PersonName(filename) == "unknown"
  {
    SplitWord(filename, '/');
  }

  /** A file name made of `/`-free parts names the folder that directly holds the file. */
  lemma PersonNameOfPath(parts: seq<string>)
    requires |parts| >= 2
    requires forall k :: 0 <= k < |parts| ==> '/' !in parts[k]
    ensures PersonName(Join(parts, "/")) == parts[|parts| - 2]
  {
    SplitJoin(parts, '/');
  }

  /**
   * The person's name is not checked to be a proper folder name: a file at
   * the top of the upload gives the empty name, and one under `..` gives
   * the parent directory's name.
   */
  lemma PersonNameOutsideStore()
    ensures PersonName("/x.jpg") == ""
    ensures PersonName("../x.jpg") == ".."
  {
    PersonNameOfPath(["", "x.jpg"]);
    assert Join(["", "x.jpg"], "/") == "/x.jpg";
    PersonNameOfPath(["..", "x.jpg"]);
    assert Join(["..", "x.jpg"], "/") == "../x.jpg";
  }

  /** The folder the uploads leave behind: each file under its basename, a later file replacing an earlier one of the same name. */
  function FolderOf(files: seq<Upload>): map<string, string> {
    if files == [] then map[]
    else
      var name := Basename(files[0].filename);
      var later := FolderOf(files[1..]);
      if name in later then later else later[name := files[0].data]
  }

  /** Saving one more upload writes it under its basename, over any file of that name. */
  lemma {:induction false} FolderAppend(files: seq<Upload>, u: Upload)
    ensures FolderOf(files + [u]) == FolderOf(files)[Basename(u.filename) := u.data]
  {
    if files != [] {
      assert (files + [u])[1..] == files[1..] + [u];
      FolderAppend(files[1..], u);
    }
  }

  /** The basenames of the uploads. */
  function Basenames(files: seq<Upload>): set<string> {
    set f | f in files :: Basename(f.filename)
  }

  /** The folder holds exactly the uploads' basenames. */
  lemma {:induction false} FolderHoldsBasenames(files: seq<Upload>)
    ensures FolderOf(files).Keys == Basenames(files)
  {
    if files != [] {
      var first, later := files[0], files[1..];
      FolderHoldsBasenames(later);
      assert files == [first] + later;
      assert forall f :: f in files <==> f == first || f in later;
      assert Basenames(files) == {Basename(first.filename)} + Basenames(later);
    }
  }

  /** A file's content survives unless a later upload has the same basename. */
  lemma {:induction false} LaterUploadWins(files: seq<Upload>, i: nat)
    requires i < |files|
    requires forall j :: i < j < |files| ==> Basename(files[j].filename) != Basename(files[i].filename)
    ensures Basename(files[i].filename) in FolderOf(files)
    ensures FolderOf(files)[Basename(files[i].filename)] == files[i].data
  {
    var later := files[1..];
    if i == 0 {
      FolderHoldsBasenames(later);
      forall f | f in later
        ensures Basename(f.filename) != Basename(files[0].filename)
      {
        var j :| 0 <= j < |later| && later[j] == f;
        assert f == files[j + 1];
      }
    } else {
      assert later[i - 1] == files[i];
      forall j | i - 1 < j < |later|
        ensures Basename(later[j].filename) != Basename(later[i - 1].filename)
      {
        assert later[j] == files[j + 1];
      }
      LaterUploadWins(later, i - 1);
    }
  }

  /** The folder never has more files than were uploaded, so the reported count can exceed the files kept. */
  lemma {:induction false} FolderSize(files: seq<Upload>)
    ensures |FolderOf(files)| <= |files|
  {
    if files != [] {
      FolderSize(files[1..]);
    }
  }

  /** An upload whose file name is empty or ends in `/`: it has no basename to be saved under. */
  predicate Unnamed(u: Upload) {
    u.filename == [] || u.filename[|u.filename| - 1] == '/'
  }

  /** An upload is unnamed exactly when its basename is empty. */
  lemma UnnamedMeaning(u: Upload)
    ensures Unnamed(u) <==> Basename(u.filename) == ""
  {
    LastPieceEmpty(u.filename, '/');
  }

  /** The position of the first upload without a basename, or the number of uploads. */
  function FirstUnnamed(files: seq<Upload>): (n: nat)
    ensures n <= |files|
  {
    if files == [] then 0
    else if Unnamed(files[0]) then 0
    else 1 + FirstUnnamed(files[1..])
  }

  /** Every upload before the position has a basename, and the one at it has none. */
  lemma {:induction false} FirstUnnamedMeaning(files: seq<Upload>)
    ensures forall k :: 0 <= k < FirstUnnamed(files) ==> !Unnamed(files[k])
    ensures FirstUnnamed(files) < |files| ==> Unnamed(files[FirstUnnamed(files)])
  {
    if files != [] && !Unnamed(files[0]) {
      var rest := files[1..];
      FirstUnnamedMeaning(rest);
      forall k | 0 < k < FirstUnnamed(files)
        ensures !Unnamed(files[k])
      {
        assert files[k] == rest[k - 1];
      }
    }
  }

  /** Counting on from position `i`: the first unnamed upload is either at `i` or after it. */
  lemma FirstUnnamedStep(files: seq<Upload>, i: nat)
    requires i < |files|
    ensures Unnamed(files[i]) ==> FirstUnnamed(files[i..]) == 0
    ensures !Unnamed(files[i]) ==> FirstUnnamed(files[i..]) == 1 + FirstUnnamed(files[i + 1..])
  {
    assert files[i..][1..] == files[i + 1..];
  }

  /** The uploads saved before the first one without a basename. */
  function SavedUploads(files: seq<Upload>): (r: seq<Upload>)
    ensures r <= files
    ensures FirstUnnamed(files) == |files| ==> r == files
  {
    files[..FirstUnnamed(files)]
  }

  /** The `message` of a successful route's JSON answer. */
  function SuccessMessage(r: Reply): (text: string)
    requires r.Enrolled? || r.Deleted?
    ensures r.Enrolled? ==> r.name <= text
    ensures r.Deleted? ==> "Deleted folder '" <= text
  {
    if r.Enrolled? then r.name + " enrolled with " + DecimalString(r.count) + " images."
    else "Deleted folder '" + r.name + "'."
  }

  lemma FolderSnoc(files: seq<Upload>, i: nat)
    requires i < |files|
    ensures FolderOf(files[..i + 1]) == FolderOf(files[..i])[Basename(files[i].filename) := files[i].data]
  {
    assert files[..i + 1] == files[..i] + [files[i]];
    FolderAppend(files[..i], files[i]);
  }

  /**
   * What `enroll_folder` answers and leaves in the store. No uploads give 400
   * and change nothing. Otherwise the person's folder is removed (a plain
   * file of that name makes the removal fail with 500 and nothing changes),
   * recreated empty, and each upload saved under its basename; an upload
   * whose name ends in `/` cannot be saved and stops the saving with 500,
   * leaving the files saved before it.
   */
  function Enroll(entries: map<string, Entry>, files: seq<Upload>): (Reply, map<string, Entry>) {
    if files == [] then (Error(400, "No images received"), entries)
    else EnrollAs(entries, PersonName(files[0].filename), files)
  }

  /** An enrollment of uploads under the person's name `name`. */
  function EnrollAs(entries: map<string, Entry>, name: string, files: seq<Upload>): (Reply, map<string, Entry>) {
    if name in entries && entries[name].PlainFile? then (ServerError, entries)
    else
      var saved := FirstUnnamed(files);
      (if saved == |files| then Enrolled(name, |files|) else ServerError,
       entries[name := Folder(FolderOf(SavedUploads(files)))])
  }

  /** Enrollment touches no entry but the person's own. */
  lemma EnrollTouchesOnlyPerson(entries: map<string, Entry>, files: seq<Upload>, k: string)
    requires files != [] && k != PersonName(files[0].filename)
    ensures var after := Enroll(entries, files).1;
      (k in after <==> k in entries) && (k in entries ==> after[k] == entries[k])
  {
  }

  /** The named enrollment, when it succeeds, leaves the folder holding all uploads. */
  lemma EnrollAsReplaces(entries: map<string, Entry>, name: string, files: seq<Upload>)
    requires EnrollAs(entries, name, files).0.Enrolled?
    ensures EnrollAs(entries, name, files) == (Enrolled(name, |files|), entries[name := Folder(FolderOf(files))])
  {
    assert FirstUnnamed(files) == |files|;
    assert SavedUploads(files) == files;
  }

  /**
   * A successful enrollment leaves the person's folder holding the uploads
   * under their basenames, whatever it held before, and reports the number
   * of uploads.
   */
  lemma EnrollReplacesFolder(entries: map<string, Entry>, files: seq<Upload>)
    requires Enroll(entries, files).0.Enrolled?
    ensures files != []
    ensures var name := PersonName(files[0].filename);
      Enroll(entries, files) == (Enrolled(name, |files|), entries[name := Folder(FolderOf(files))])
  {
    EnrollAsReplaces(entries, PersonName(files[0].filename), files);
  }

  /** Every failure of an enrollment is reported as such: no uploads, a plain file in the way, or an unsavable name. */
  lemma EnrollFailures(entries: map<string, Entry>, files: seq<Upload>)
    ensures Enroll(entries, files).0.Enrolled? <==>
      && files != []
      && !(PersonName(files[0].filename) in entries && entries[PersonName(files[0].filename)].PlainFile?)
      && forall k :: 0 <= k < |files| ==> !Unnamed(files[k])
  {
    FirstUnnamedMeaning(files);
  }

  /** The names of the store's folders; plain files are not listed. */
  function Listed(entries: map<string, Entry>): (r: set<string>)
    ensures forall k :: k in r <==> k in entries && entries[k].Folder?
  {
    set k | k in entries && entries[k].Folder?
  }

  /**
   * Saving the uploads into the freshly emptied folder, each under its
   * basename, until one cannot be saved: the folder's files and whether all
   * uploads were saved.
   */
  method SaveUploads(files: seq<Upload>) returns (folder: map<string, string>, saved: bool)
    ensures folder == FolderOf(SavedUploads(files))
    ensures saved <==> FirstUnnamed(files) == |files|
  {
    ghost var stop := FirstUnnamed(files);
    assert files[0..] == files;
    folder := map[];
    var i := 0;
    while i < |files|
      invariant i <= |files| && i + FirstUnnamed(files[i..]) == stop
      invariant folder == FolderOf(files[..i])
    {
      FirstUnnamedStep(files, i);
      var filename := Basename(files[i].filename);
      UnnamedMeaning(files[i]);
      if filename == "" {
        return folder, false;
      }
      FolderSnoc(files, i);
      folder := folder[filename := files[i].data];
      i := i + 1;
    }
    saved := true;
  }

  class Store {
    var entries: map<string, Entry>

    constructor (entries: map<string, Entry>)
      ensures this.entries == entries
    {
      this.entries := entries;
    }

    /** `enroll_folder`. */
    method EnrollFolder(files: seq<Upload>) returns (r: Reply)
      modifies this
      ensures (r, entries) == Enroll(old(entries), files)
    {
      if files == [] {
        return Error(400, "No images received");
      }
      var name := PersonName(files[0].filename);
      if name in entries && entries[name].PlainFile? {
        return ServerError;
      }
      var folder, saved := SaveUploads(files);
      entries := entries[name := Folder(folder)];
      r := if saved then Enrolled(name, |files|) else ServerError;
    }

    /** `delete_folder`: an existing folder is removed alone; anything else gives 404 and changes nothing. */
    method DeleteFolder(name: string) returns (r: Reply)
      modifies this
      ensures name in old(entries) && old(entries)[name].Folder? ==>
        r == Deleted(name) && entries == old(entries) - {name}
      ensures !(name in old(entries) && old(entries)[name].Folder?) ==>
        r == Error(404, "Folder does not exist.") && entries == old(entries)
    {
      if name in entries && entries[name].Folder? {
        entries := entries - {name};
        return Deleted(name);
      }
      r := Error(404, "Folder does not exist.");
    }

    /** `list_folders`: the folder names of the store. */
    method ListFolders() returns (folders: set<string>)
      ensures folders == Listed(entries)
    {
      folders := set k | k in entries && entries[k].Folder?;
    }
  }

  /** After a successful enrollment the person is listed; after a successful deletion the folder is not. */
  lemma ListedAfterEnroll(entries: map<string, Entry>, name: string, files: map<string, string>)
    ensures name in Listed(entries[name := Folder(files)])
    ensures name !in Listed(entries - {name})
    ensures forall k :: k != name ==> (k in Listed(entries - {name}) <==> k in Listed(entries))
  {
  }

  // ---- Verification result -------------------------------------------------

  /** One row of the face search's result table. */
  datatype Row = Row(identity: string, distance: real)

  datatype VerifyReply =
    | NoImage
    | SearchFailed
    | NoMatch
    | Match(identity: string, distance: real)

  /**
   * `verify`: no image gives 400, a failing search 500, an empty table
   * `{"matched": False}`, and otherwise the top row's file name and distance.
   */
  function Verify(hasImage: bool, table: Option<seq<Row>>): (r: VerifyReply)
    ensures !hasImage <==> r == NoImage
    ensures hasImage && table.None? <==> r == SearchFailed
    ensures r == NoMatch <==> hasImage && table == Some([])
    ensures r.Match? ==> table.Some? && |table.value| > 0 && r.distance == table.value[0].distance
    ensures r.Match? ==> var top := table.value[0].identity;
      && '/' !in r.identity && |r.identity| <= |top| && top[|top| - |r.identity|..] == r.identity
      && (|r.identity| == |top| || top[|top| - |r.identity| - 1] == '/')
  {
    if !hasImage then NoImage
    else if table.None? then SearchFailed
    else if table.value == [] then NoMatch
    else
      LastPieceShape(table.value[0].identity, '/');
      LastPieceMaximal(table.value[0].identity, '/');
      Match(Basename(table.value[0].identity), table.value[0].distance)
  }
}
