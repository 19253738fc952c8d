/** Properties of the configuration reader that relate several of its parts:
    the layout of the resolved paths, what a caller can tell from an exception's
    reason, and the scenario the unit tests run. */
module CfgReadProperties {
  import opened Wrappers
  import opened Json
  import opened Paths
  import opened CfgRead

  /** With a root that has a filename and plain relative names, the
      configuration directory is `<root>/<group>/<app>`. */
  lemma ConfDirLayout(root: string, groupName: string, appName: string)
    requires HasFilename(root)
    requires !IsAbsolute(groupName) && HasFilename(groupName)
    requires !IsAbsolute(appName)
    ensures ConfDir(root, groupName, appName) == root + "/" + groupName + "/" + appName
  {
  }

  /** The file `load` opens is `<root>/<group>/<app>/<file>` for a relative file
      name, and the file name itself, ignoring the directory, for an absolute one. */
  lemma LoadPathLayout(root: string, groupName: string, appName: string, fileName: string)
    requires HasFilename(root)
    requires !IsAbsolute(groupName) && HasFilename(groupName)
    requires !IsAbsolute(appName) && HasFilename(appName)
    ensures !IsAbsolute(fileName) ==>
      Join(ConfDir(root, groupName, appName), fileName) == root + "/" + groupName + "/" + appName + "/" + fileName
    ensures IsAbsolute(fileName) ==> Join(ConfDir(root, groupName, appName), fileName) == fileName
  {
  }

  /** The reason of a missing-file failure gives back the path it names. */
  lemma NotFoundMessageInjective(p: string, q: string)
    requires NotFoundMessage(p) == NotFoundMessage(q)
    ensures p == q
  {
  }

  /** The reason of a `get_as_int` failure gives back the key. */
  lemma GetIntFailedMessageInjective(k: string, l: string)
    requires GetIntFailedMessage(k) == GetIntFailedMessage(l)
    ensures k == l
  {
  }

  /** The two ways `load` fails can be told apart by their reasons, whatever
      the path. */
  lemma LoadFailuresDistinct(path: string)
    ensures NotFoundMessage(path) != ParseFailedMessage
  {
  }

  /** A `get_as_int` failure can be told apart from both `load` failures. */
  lemma GetIntFailureDistinct(key: string, path: string)
    ensures GetIntFailedMessage(key) != NotFoundMessage(path)
    ensures GetIntFailedMessage(key) != ParseFailedMessage
  {
    var m := GetIntFailedMessage(key);
    assert m[|m| - 1] == 'd';
    var n := NotFoundMessage(path);
    assert n[|n| - 1] == 't';
    assert m[0] == 'g' && ParseFailedMessage[0] == 'J';
  }

  /** The members of the unit tests' `utest.json` that the tests read. */
  function UtestDocument(): (d: Json)
    ensures IsMember(d, "id") && IsMember(d, "detail") && !IsMember(d, "detail/lang-version")
  {
    JObject(map[
      "id" := JInt(32),
      "version" := JFloat(1.28),
      "name" := JString("tako"),
      "detail" := JObject(map[
        "lang" := JString("c++"),
        "lang-version" := JInt(10),
        "lang-patch" := JFloat(0.2864)])])
  }

  /** Where the unit tests keep `utest.json`, below their test-data root. */
  function UtestPath(testData: string): string {
    testData + "/" + "cpptanu_cfg_utest" + "/" + "tanu_cfg" + "/" + "utest.json"
  }

  /** The unit tests' set-up and their two `get_as_int` calls: the root comes
      from `TANULIB_CONF_DIR`, `utest.json` lies under
      `cpptanu_cfg_utest/tanu_cfg`, `"id"` gives 32, and the slash-separated
      key `"detail/lang-version"` is not resolved as a nested path. */
  method UnitTestScenario(testData: string, fs: FileSystem, json: Library)
      returns (id: Result<int, TanuCfgException>, langVersion: Result<int, TanuCfgException>)
    requires HasFilename(testData)
    requires Exists(fs, UtestPath(testData))
    requires Parsed(json, fs, UtestPath(testData)) == Some(UtestDocument())
    ensures id == Ok(32)
    ensures langVersion == Err(TanuCfgException(GetIntFailedMessage("detail/lang-version")))
  {
    var env := map[ConfDirEnvVarName := testData];
    var cfg := new JsonConfig(env, "cpptanu_cfg_utest", "tanu_cfg", json);
    LoadPathLayout(testData, "cpptanu_cfg_utest", "tanu_cfg", "utest.json");
    var path := UtestPath(testData);
    assert cfg.LoadPath("utest.json") == path;
    var loaded := cfg.Load(fs, "utest.json");
    assert cfg.loadedCfg == Some(UtestDocument());
    id := cfg.GetAsInt("id");
    langVersion := cfg.GetAsInt("detail/lang-version");
  }

  /** The demo's sequence of calls: both dumps are absent on a new reader, a
      failed load leaves them absent, and after a successful load they are the
      dumps of the parsed document and of its flattening. */
  method DumpsAcrossLoad(env: map<string, string>, groupName: string, appName: string,
                         json: Library, fs: FileSystem, fileName: string)
      returns (before: Option<string>, beforeView: Option<string>,
               after: Option<string>, afterView: Option<string>)
    requires ConfDirEnvVarName in env
    ensures before == None && beforeView == None
    ensures var path := Join(ConfDir(env[ConfDirEnvVarName], groupName, appName), fileName);
      && (Exists(fs, path) && Parsed(json, fs, path).Some? ==>
            && after == Some(json.dump(Parsed(json, fs, path).value))
            && afterView == Some(json.dump(json.flatten(Parsed(json, fs, path).value))))
      && (!Exists(fs, path) || Parsed(json, fs, path).None? ==> after == None && afterView == None)
  {
    var cfg := new JsonConfig(env, groupName, appName, json);
    before := cfg.DumpCfg();
    beforeView := cfg.DumpFlattenedView();
    var loaded := cfg.Load(fs, fileName);
    after := cfg.DumpCfg();
    afterView := cfg.DumpFlattenedView();
  }
}
