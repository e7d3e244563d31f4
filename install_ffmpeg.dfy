/**
 * The FFmpeg installer's two decisions: the user `Path` value `add_to_path`
 * writes, and the archive's root folder `download_ffmpeg` moves into place.
 * The registry is a class holding the user's `Path` value (absent when the
 * value does not exist) and the number of settings-change broadcasts sent.
 * The download, the extraction and the file moves are outside the model.
 */
module FfmpegInstaller {
  import opened Wrappers
  import opened Strings

  /**
   * The `Path` value `add_to_path` writes given the current value: nothing
   * when `bin` already occurs in it, ignoring case; otherwise `bin` appended
   * after a `;`, or `bin` alone when the current value is empty.
   */
  function PathUpdate(current: string, bin: string): Option<string> {
    if Contains(Lower(current), Lower(bin)) then None
    else if current == "" then Some(bin)
    else Some(current + ";" + bin)
  }

  /**
   * Nothing is written exactly when `bin` is already present; a written value
   * keeps the current one as its prefix and holds `bin`.
   */
  lemma PathUpdateMeaning(current: string, bin: string)
    ensures PathUpdate(current, bin).None? <==> Contains(Lower(current), Lower(bin))
    ensures PathUpdate(current, bin).Some? ==>
      && current <= PathUpdate(current, bin).value
      && Contains(Lower(PathUpdate(current, bin).value), Lower(bin))
  {
    if !Contains(Lower(current), Lower(bin)) {
      var p := PathUpdate(current, bin).value;
      if current == "" {
        assert Lower(p)[0..|Lower(bin)|] == Lower(bin);
        ContainsAt(Lower(p), Lower(bin), 0);
      } else {
        LowerConcat(current + ";", bin);
        var k := |current| + 1;
        assert Lower(p)[k..k + |bin|] == Lower(bin);
        ContainsAt(Lower(p), Lower(bin), k);
      }
    }
  }

  /** A second update with the same folder writes nothing. */
  lemma PathUpdateIdempotent(current: string, bin: string)
    requires PathUpdate(current, bin).Some?
    ensures PathUpdate(PathUpdate(current, bin).value, bin) == None
  {
    PathUpdateMeaning(current, bin);
  }

  /** The user's environment as the installer sees it. */
  class UserEnvironment {
    /** The `Path` value under `HKEY_CURRENT_USER\Environment`, absent when it does not exist. */
    var path: Option<string>
    /** How many `WM_SETTINGCHANGE` broadcasts were sent. */
    var broadcasts: nat

    constructor (path: Option<string>)
      ensures this.path == path && broadcasts == 0
    {
      this.path := path;
      broadcasts := 0;
    }

    /**
     * `add_to_path`: a missing value reads as empty; when the update writes
     * nothing the environment is unchanged, otherwise the new value is stored
     * and one broadcast is sent.
     */
    method AddToPath(bin: string)
      modifies this
      ensures PathUpdate(old(path).GetOr(""), bin).None? ==> path == old(path) && broadcasts == old(broadcasts)
      ensures PathUpdate(old(path).GetOr(""), bin).Some? ==>
        path == PathUpdate(old(path).GetOr(""), bin) && broadcasts == old(broadcasts) + 1
    {
      var current := path.GetOr("");
      var update := PathUpdate(current, bin);
      if update.None? {
        return;
      }
      path := update;
      broadcasts := broadcasts + 1;
    }
  }

  /**
   * Running the installer's PATH step twice: after the first run the folder
   * is on the path, and the second run leaves the value it wrote and sends
   * no broadcast.
   */
  method AddToPathTwice(env: UserEnvironment, bin: string) returns (afterFirst: Option<string>)
    modifies env
    ensures Contains(Lower(afterFirst.GetOr("")), Lower(bin))
    ensures env.path == afterFirst
    ensures env.broadcasts <= old(env.broadcasts) + 1
  {
    env.AddToPath(bin);
    PathUpdateMeaning(old(env.path).GetOr(""), bin);
    afterFirst := env.path;
    var sentFirst := env.broadcasts;
    PathUpdateMeaning(afterFirst.GetOr(""), bin);
    env.AddToPath(bin);
    assert env.broadcasts == sentFirst;
  }

  /**
   * The folder the archive extracts to: the first entry name up to its first
   * `/`. An empty archive has no first entry, and `namelist()[0]` raises.
   */
  function RootFolder(names: seq<string>): Option<string> {
    if names == [] then None else Some(Split(names[0], '/')[0])
  }

  /** The root folder is the first entry's name up to, and not including, its first `/`. */
  lemma RootFolderPrefix(names: seq<string>)
    ensures RootFolder(names).None? <==> names == []
    ensures RootFolder(names).Some? ==>
      var root, first := RootFolder(names).value, names[0];
      && '/' !in root
      && root <= first
      && (|root| < |first| ==> first[|root|] == '/')
  {
    if names != [] {
      var first := names[0];
      var parts := Split(first, '/');
      JoinSplit(first, '/');
      if |parts| > 1 {
        assert first == parts[0] + "/" + Join(parts[1..], "/");
      }
    }
  }
}
