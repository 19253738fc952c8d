/** tanu::cfg: a JSON configuration file found under
    `<root>/<group>/<app>`, loaded once or more, and queried. */
module CfgRead {
  import opened Wrappers
  import opened Json
  import opened Paths

  /** Name of the environment variable that holds the root directory. */
  const ConfDirEnvVarName: string := "TANULIB_CONF_DIR"

  /** The one exception type of the library; `What()` gives back the reason it
      was built with. */
  datatype TanuCfgException = TanuCfgException(reason: string) {
    function What(): (r: string)
      ensures r == reason
    {
      reason
    }
  }

  const DoesNotExistSuffix: string := " does not exist"
  const ParseFailedMessage: string := "Json file loading/parsing failed"

  /** Reason given when the resolved file does not exist: the path, then the suffix. */
  function NotFoundMessage(path: string): (m: string)
    ensures |m| == |path| + |DoesNotExistSuffix|
    ensures m[..|path|] == path && m[|path|..] == DoesNotExistSuffix
  {
    path + DoesNotExistSuffix
  }

  /** Reason given by `get_as_int` whatever went wrong. */
  function GetIntFailedMessage(key: string): (m: string)
    ensures |m| == |key| + 28
    ensures m[..21] == "getting int value by " && m[21..21 + |key|] == key && m[21 + |key|..] == " failed"
  {
    "getting int value by " + key + " failed"
  }

  /** The configuration directory: the root, then the group, then the app. */
  function ConfDir(root: string, groupName: string, appName: string): (d: string)
    ensures !IsAbsolute(appName) ==> EndsWith(d, appName)
    ensures !IsAbsolute(groupName) && !IsAbsolute(appName) ==> root <= d
  {
    Join(Join(root, groupName), appName)
  }

  /** The document that reading and parsing `path` yields, if both succeed. */
  function Parsed(json: Library, fs: FileSystem, path: string): (r: Option<Json>)
    ensures r.Some? <==> path in fs.readable && json.parse(fs.readable[path]).Some?
    ensures r.Some? ==> Some(r.value) == json.parse(fs.readable[path])
  {
    match Read(fs, path)
    case None => None
    case Some(text) => json.parse(text)
  }

  /** A configuration reader for one group and application. Both the loaded
      document and its flattened view start out absent and are installed
      together by a successful `Load`. */
  class JsonConfig {
    /** The nlohmann::json functions this object calls. */
    const json: Library
    const groupName: string
    const appName: string
    const confDir: string
    var loadedCfg: Option<Json>
    var flattenedView: Option<Json>

    /** The view is present exactly when a document is, and is its flattening. */
    ghost predicate Valid()
      reads this
    {
      && (loadedCfg.None? <==> flattenedView.None?)
      && (loadedCfg.Some? ==> flattenedView.value == json.flatten(loadedCfg.value))
    }

    predicate Loaded()
      reads this
    {
      loadedCfg.Some?
    }

    /** Reads the root from the environment (it must be set: building a string
        from a null `getenv` result is undefined) and touches no file. */
    constructor (env: map<string, string>, groupName: string, appName: string, json: Library)
      requires ConfDirEnvVarName in env
      ensures Valid()
      ensures loadedCfg == None && flattenedView == None
      ensures this.groupName == groupName && this.appName == appName && this.json == json
      ensures confDir == ConfDir(env[ConfDirEnvVarName], groupName, appName)
    {
      this.groupName := groupName;
      this.appName := appName;
      this.json := json;
      loadedCfg := None;
      flattenedView := None;
      var confBase := env[ConfDirEnvVarName];
      confDir := Join(Join(confBase, groupName), appName);
    }

    /** The file that `Load(fileName)` opens. */
    function LoadPath(fileName: string): (p: string)
      ensures !IsAbsolute(fileName) ==> confDir <= p && EndsWith(p, fileName)
      ensures IsAbsolute(fileName) ==> p == fileName
    {
      Join(confDir, fileName)
    }

    /** Fails when the file is missing, naming it; fails with one fixed reason
        when it cannot be read or parsed; otherwise installs the new document
        and its flattened view, discarding whatever was loaded before. Both
        failures leave the object as it was. */
    method Load(fs: FileSystem, fileName: string) returns (result: Result<(), TanuCfgException>)
      requires Valid()
      modifies this`loadedCfg, this`flattenedView
      ensures Valid()
      ensures !Exists(fs, LoadPath(fileName)) ==>
        && result == Err(TanuCfgException(NotFoundMessage(LoadPath(fileName))))
        && loadedCfg == old(loadedCfg) && flattenedView == old(flattenedView)
      ensures Exists(fs, LoadPath(fileName)) && Parsed(json, fs, LoadPath(fileName)).None? ==>
        && result == Err(TanuCfgException(ParseFailedMessage))
        && loadedCfg == old(loadedCfg) && flattenedView == old(flattenedView)
      ensures Exists(fs, LoadPath(fileName)) && Parsed(json, fs, LoadPath(fileName)).Some? ==>
        && result == Ok(())
        && loadedCfg == Parsed(json, fs, LoadPath(fileName))
        && flattenedView == Some(json.flatten(loadedCfg.value))
    {
      var fpath := Join(confDir, fileName);
      if fpath !in fs.existing {
        return Err(TanuCfgException(fpath + DoesNotExistSuffix));
      }
      var text := Read(fs, fpath);
      if text.None? {
        return Err(TanuCfgException(ParseFailedMessage));
      }
      var loaded := json.parse(text.value);
      if loaded.None? {
        return Err(TanuCfgException(ParseFailedMessage));
      }
      flattenedView := Some(json.flatten(loaded.value));
      loadedCfg := Some(loaded.value);
      return Ok(());
    }

    /** The dumped document, or absent before anything was loaded. */
    function DumpCfg(): (r: Option<string>)
      reads this
      ensures r.None? <==> !Loaded()
      ensures r.Some? ==> r.value == json.dump(loadedCfg.value)
    {
      if loadedCfg.Some? then Some(json.dump(loadedCfg.value)) else None
    }

    /** The dumped flattened view, or absent before anything was loaded. */
    function DumpFlattenedView(): (r: Option<string>)
      reads this
      requires Valid()
      ensures r.None? <==> !Loaded()
      ensures r.Some? ==> r.value == json.dump(json.flatten(loadedCfg.value))
    {
      if flattenedView.Some? then Some(json.dump(flattenedView.value)) else None
    }

    /** The integer held by the top-level member `key` of the loaded document.
        The document must be loaded (it is dereferenced unchecked), and a
        floating value whose truncation does not fit in an `int` is undefined
        behaviour. A missing member, a document that is not an object and a
        value that is not a number or a boolean all give the same reason. The
        flattened view is neither used nor changed. */
    function GetAsInt(key: string): (r: Result<int, TanuCfgException>)
      reads this
      requires Loaded()
      requires At(loadedCfg.value, key).Some? ==> !UndefinedIntConversion(At(loadedCfg.value, key).value)
      ensures r.Ok? <==> IsMember(loadedCfg.value, key) && IsIntConvertible(loadedCfg.value.members[key])
      ensures r.Ok? ==> InIntRange(r.value) && Some(r.value) == ToInt(loadedCfg.value.members[key])
      ensures r.Err? ==> r.error == TanuCfgException(GetIntFailedMessage(key))
      ensures IsMember(loadedCfg.value, key) && loadedCfg.value.members[key].JInt?
                && InIntRange(loadedCfg.value.members[key].i)
              ==> r == Ok(loadedCfg.value.members[key].i)
    {
      var failure := TanuCfgException(GetIntFailedMessage(key));
      match At(loadedCfg.value, key)
      case None => Err(failure)
      case Some(v) =>
        match ToInt(v)
        case None => Err(failure)
        case Some(n) => Ok(n)
    }
  }
}
