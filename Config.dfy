/**
 * The configuration store of todo/main.py: the file in the working directory
 * that names the storage directory and the two task files, and the guards
 * `init` applies before it creates them.
 */
module Config {
  import opened Outcome
  import opened Text

  /** A parsed configuration file: key to path. */
  type ConfigData = map<string, string>

  /** The configuration files present in the working directory, by file name. */
  type ConfigDir = map<string, ConfigData>

  /** The file name `load_config` reads. */
  const ConfigFile: string := ".todo_config.json"

  /** The file name `save_todo_config` writes, as the source spells it. */
  const ConfigFileAsWritten: string := ".todo_config_json"

  /** The keys `load_config` insists on, in the order it checks them. */
  const RequiredKeys: seq<string> := ["todo_dir", "todo_file", "done_file"]

  // ------------------------------------------------------------------ load

  /** The first of `keys` that `data` lacks, if any. */
  function FirstMissing(data: ConfigData, keys: seq<string>): (r: Option<string>)
    ensures r.None? <==> forall i :: 0 <= i < |keys| ==> keys[i] in data
    ensures r.Some? ==> exists i :: 0 <= i < |keys| && keys[i] == r.value && r.value !in data &&
                                   forall j :: 0 <= j < i ==> keys[j] in data
  {
    if |keys| == 0 then None
    else if keys[0] !in data then Some(keys[0])
    else
      var r := FirstMissing(data, keys[1..]);
      assert r.Some? ==> exists i :: 1 <= i < |keys| && keys[i] == r.value && r.value !in data &&
                                     forall j :: 0 <= j < i ==> keys[j] in data by {
        if r.Some? {
          var i :| 0 <= i < |keys| - 1 && keys[1..][i] == r.value && r.value !in data &&
                   forall j :: 0 <= j < i ==> keys[1..][j] in data;
          assert keys[i + 1] == r.value;
          assert forall j :: 1 <= j < i + 1 ==> keys[j] == keys[1..][j - 1];
        }
      }
      r
  }

  /** What `load_config` returns: the configuration, or why there is none. */
  function ConfigLoaded(cwd: ConfigDir): (r: Result<ConfigData>)
    ensures ConfigFile !in cwd ==> r == Err(ConfigMissing)
    ensures ConfigFile in cwd ==>
      (r.Ok? <==> forall i :: 0 <= i < |RequiredKeys| ==> RequiredKeys[i] in cwd[ConfigFile])
    ensures r.Ok? ==> r.value == cwd[ConfigFile]
    ensures r.Err? ==> r.error == ConfigMissing || (r.error.MissingKey? && r.error.key in RequiredKeys)
  {
    if ConfigFile !in cwd then Err(ConfigMissing)
    else
      match FirstMissing(cwd[ConfigFile], RequiredKeys)
      case None => Ok(cwd[ConfigFile])
      case Some(key) => Err(MissingKey(key))
  }

  /** `load_config`: checks the three keys in order and stops at the first missing one. */
  method LoadConfig(cwd: ConfigDir) returns (r: Result<ConfigData>)
    ensures r == ConfigLoaded(cwd)
  {
    if ConfigFile !in cwd {
      return Err(ConfigMissing);
    }
    var data := cwd[ConfigFile];
    for i := 0 to |RequiredKeys|
      invariant FirstMissing(data, RequiredKeys) == FirstMissing(data, RequiredKeys[i..])
    {
      assert RequiredKeys[i..][1..] == RequiredKeys[i + 1..];
      if RequiredKeys[i] !in data {
        return Err(MissingKey(RequiredKeys[i]));
      }
    }
    assert RequiredKeys[|RequiredKeys|..] == [];
    return Ok(data);
  }

  // ------------------------------------------------------------------ save

  /** `os.path.join(a, b)` on POSIX: an absolute `b` wins, else one slash between. */
  function PathJoin(a: string, b: string): (r: string)
    ensures |b| > 0 && b[0] == '/' ==> r == b
    ensures (|b| == 0 || b[0] != '/') ==> EndsWith(r, b) && |a| <= |r| && r[..|a|] == a
  {
    if |b| > 0 && b[0] == '/' then b
    else if |a| == 0 || a[|a| - 1] == '/' then a + b
    else a + "/" + b
  }

  /** The configuration `save_todo_config` serialises. */
  function ConfigFor(root: string, dirName: string, todoFile: string, doneFile: string): (c: ConfigData)
    ensures forall i :: 0 <= i < |RequiredKeys| ==> RequiredKeys[i] in c
    ensures "todo_dir" in c && "todo_file" in c && "done_file" in c
    ensures c["todo_dir"] == PathJoin(root, dirName)
    ensures c["todo_file"] == PathJoin(c["todo_dir"], todoFile)
    ensures c["done_file"] == PathJoin(c["todo_dir"], doneFile)
  {
    var dir := PathJoin(root, dirName);
    map["todo_dir" := dir, "todo_file" := PathJoin(dir, todoFile), "done_file" := PathJoin(dir, doneFile)]
  }

  /** `save_todo_config` as written: it stores under `.todo_config_json`. */
  function SaveTodoConfigAsWritten(cwd: ConfigDir, root: string, dirName: string, todoFile: string, doneFile: string): ConfigDir {
    cwd[ConfigFileAsWritten := ConfigFor(root, dirName, todoFile, doneFile)]
  }

  /** `save_todo_config` storing under the name `load_config` reads. */
  function SaveTodoConfig(cwd: ConfigDir, root: string, dirName: string, todoFile: string, doneFile: string): ConfigDir {
    cwd[ConfigFile := ConfigFor(root, dirName, todoFile, doneFile)]
  }

  /** As written, saving a configuration never changes what `load_config` sees. */
  lemma SaveAsWrittenInvisible(cwd: ConfigDir, root: string, dirName: string, todoFile: string, doneFile: string)
    ensures ConfigLoaded(SaveTodoConfigAsWritten(cwd, root, dirName, todoFile, doneFile)) == ConfigLoaded(cwd)
    ensures ConfigFile !in cwd ==>
      ConfigLoaded(SaveTodoConfigAsWritten(cwd, root, dirName, todoFile, doneFile)) == Err(ConfigMissing)
  {
    var cwd' := SaveTodoConfigAsWritten(cwd, root, dirName, todoFile, doneFile);
    assert ConfigFile != ConfigFileAsWritten by { assert ConfigFile[12] != ConfigFileAsWritten[12]; }
    assert (ConfigFile in cwd' <==> ConfigFile in cwd) && (ConfigFile in cwd ==> cwd'[ConfigFile] == cwd[ConfigFile]);
  }

  /** With the corrected name, the next `load_config` returns what was saved. */
  lemma SavedConfigLoads(cwd: ConfigDir, root: string, dirName: string, todoFile: string, doneFile: string)
    ensures ConfigLoaded(SaveTodoConfig(cwd, root, dirName, todoFile, doneFile)) ==
            Ok(ConfigFor(root, dirName, todoFile, doneFile))
  {
    var c := ConfigFor(root, dirName, todoFile, doneFile);
    assert FirstMissing(c, RequiredKeys) == None;
  }

  // ------------------------------------------------------------------ init

  /**
   * The two guards of `init`, in the source's order: an existing storage
   * directory is reported before the file names are looked at.
   */
  function InitCheck(dirExists: bool, todoFile: string, doneFile: string): (r: Option<Error>)
    ensures dirExists ==> r == Some(DirectoryExists)
    ensures !dirExists ==> (r.None? <==> EndsWith(todoFile, ".txt") && EndsWith(doneFile, ".txt"))
    ensures !dirExists && r.Some? ==> r.value == NotTxtFile
  {
    if dirExists then Some(DirectoryExists)
    else if !EndsWith(todoFile, ".txt") || !EndsWith(doneFile, ".txt") then Some(NotTxtFile)
    else None
  }
}
