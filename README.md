# cpptanu_cfg: the JSONConfig lifecycle in Dafny

This project models `tanu::cfg::JSONConfig`, a reader for one JSON
configuration file per application. At construction it computes the
configuration directory `<root>/<group>/<app>`, where the root comes from the
environment variable `TANULIB_CONF_DIR`. `load(file)` parses
`<directory>/<file>` and keeps two nullable documents: the parsed document
and its flattened view. `dump_cfg` and `dump_flattened_view` serialize them
when present. `get_as_int(key)` reads one integer member at the top level of
the document. Every failure raises a `TanuCfgException` carrying a reason
string.

Files:

- `wrappers.dfy` (`Wrappers`): `Option` for the nullable pointers and
  `std::optional` results, and `Result` for values or thrown exceptions.
- `json.dfy` (`Json`): the JSON value datatype and the part of nlohmann::json
  the reader depends on. `parse`, `flatten` and `dump` are the library's own
  algorithms. They are function values gathered in a `Library` and are not
  defined here. Member access `at(key)` and the implicit conversion to `int`
  are defined.
- `paths.dfy` (`Paths`): `std::filesystem::path::operator/` on POSIX, and
  an abstract file system. It holds a set of existing paths and a map from
  the readable files to their contents.
- `cfg_read.dfy` (`CfgRead`): the exception, the reasons it carries, the
  environment variable name, and the class `JsonConfig`. The class
  invariant `Valid()` says that the view is present exactly when the document
  is, and that the view is the flattening of the document.
- `cfg_read_properties.dfy` (`CfgReadProperties`): the path layout, what the
  exception reasons reveal, and two client scenarios. One scenario replays the
  unit tests. The other follows both dumps across one load on a new reader.

Environment and disk are parameters. The constructor takes the environment as
a map and requires `TANULIB_CONF_DIR` to be set, because building a
`std::string` from a null `getenv` result is undefined. It takes no file
system argument, so the directory need not exist until `load`. `Load` takes
the file system as it stands at the time of the call. The nlohmann::json
functions are a `Library` fixed at construction.

## Model

| member | source | states |
|---|---|---|
| `Json.At` | src/cfg_read.cpp:43 | `at(key)` yields a value exactly when the document is an object with that member, and the value is that member; otherwise it throws |
| `Json.ToInt` | src/cfg_read.cpp:43-44 | the implicit conversion to `int` succeeds exactly for numbers and booleans, and its result is within `int` range. An integer converts to its 32-bit wrap (itself when in range), a double to its truncation toward zero, and `true`/`false` to 1/0 |
| `Json.WrapToInt` | src/cfg_read.cpp:44 | the cast of a 64-bit integer to `int` lands in `int` range, agrees with the input modulo 2^32, and is the identity on values already in range |
| `Json.TruncateTowardZero` | src/cfg_read.cpp:44 | the cast of a double to an integer rounds toward zero: the floor for a non-negative input and the ceiling for a negative one |
| `Paths.Join` | include/cpptanu_cfg/cfg_read.h:32 | an absolute right-hand side replaces the base. Otherwise the result starts with the base and ends with the right-hand side, with exactly one `/` between them when the base has a filename, and none when the base is empty or ends with `/` |
| `Paths.Read` | src/cfg_read.cpp:15 | the stream yields text exactly for readable files, and the text is the file's contents |
| `CfgRead.TanuCfgException.What` | include/cpptanu_cfg/cfg_read.h:58-61 | `what()` returns exactly the reason the exception was built with |
| `CfgRead.NotFoundMessage` | src/cfg_read.cpp:12 | the missing-file reason is the resolved path followed by `" does not exist"` |
| `CfgRead.GetIntFailedMessage` | src/cfg_read.cpp:46 | the `get_as_int` reason holds the key verbatim after `"getting int value by "` and ends with `" failed"` |
| `CfgRead.ConfDir` | include/cpptanu_cfg/cfg_read.h:31-32 | the configuration directory ends with the app name and, for relative names, starts with the root |
| `CfgRead.Parsed` | src/cfg_read.cpp:15-16 | reading and parsing succeed exactly when the file can be read and the library parses its text, and the document is the parse result |
| `CfgRead.JsonConfig.constructor` | include/cpptanu_cfg/cfg_read.h:28-33 | the group and app names are stored unchanged. Neither document nor view is present. The directory is the `TANULIB_CONF_DIR` root joined with the group and then the app, and the variable must be set |
| `CfgRead.JsonConfig.LoadPath` | src/cfg_read.cpp:10 | a relative file name resolves inside the configuration directory, and an absolute one is used as given |
| `CfgRead.JsonConfig.Load` | src/cfg_read.cpp:9-22 | a missing file fails with the path in the reason and a read or parse failure fails with the fixed reason. Both failures leave document and view unchanged. A success installs the parsed document and its flattening together, with nothing kept from an earlier load. The class invariant is preserved |
| `CfgRead.JsonConfig.DumpCfg` | src/cfg_read.cpp:24-30 | absent exactly when nothing is loaded, otherwise the dump of the document. It never fails and reads state only |
| `CfgRead.JsonConfig.DumpFlattenedView` | src/cfg_read.cpp:32-38 | absent exactly when nothing is loaded, otherwise the dump of the document's flattening. It never fails and reads state only |
| `CfgRead.JsonConfig.GetAsInt` | src/cfg_read.cpp:40-48 | requires a loaded document. It succeeds exactly when the top-level member exists and is a number or a boolean, and then returns that member converted to `int`. A stored in-range integer is returned as is. Every failure carries the one reason naming the key. The view is not consulted and nothing changes |
| `CfgReadProperties.ConfDirLayout` | include/cpptanu_cfg/cfg_read.h:31-32 | for a root with a filename and plain relative names, the directory is `<root>/<group>/<app>` |
| `CfgReadProperties.LoadPathLayout` | src/cfg_read.cpp:10 | the loaded file is `<root>/<group>/<app>/<file>` for a relative file name, and the file name alone for an absolute one |
| `CfgReadProperties.NotFoundMessageInjective` | src/cfg_read.cpp:12 | two missing-file reasons are equal only for the same path, so the reason identifies the path |
| `CfgReadProperties.GetIntFailedMessageInjective` | src/cfg_read.cpp:46 | two `get_as_int` reasons are equal only for the same key |
| `CfgReadProperties.LoadFailuresDistinct` | src/cfg_read.cpp:11-21 | the missing-file reason never equals the parse-failure reason |
| `CfgReadProperties.GetIntFailureDistinct` | src/cfg_read.cpp:45-46 | a `get_as_int` reason equals neither `load` reason |
| `CfgReadProperties.UtestDocument` | unittest/test_main.cpp:38-57 | the test document has top-level members `id` and `detail`, and no top-level member named `detail/lang-version` |
| `CfgReadProperties.UnitTestScenario` | unittest/test_main.cpp:24-52 | with the test set-up, loading `utest.json` and reading `"id"` gives 32. Reading `"detail/lang-version"` fails with its reason, because the code does a top-level lookup |
| `CfgReadProperties.DumpsAcrossLoad` | src/cfg_read.cpp:9-38 | the dump lifecycle around one load: on a new reader both dumps are absent. After a successful load they are the dumps of the document and of its flattening, and after a failed load they are still absent |

## Left out

- nlohmann::json `parse`, `flatten` and `dump` are not defined. They are the `Library` functions, and the model does not assume any property of them. The JSON Pointer keys that `flatten` produces are therefore not modelled.
- `std::filesystem::exists` can also throw `filesystem_error` on operating-system errors other than "not found", outside the `try` block. The file system is a set of existing paths, so that case is not modelled.
- Allocation failure (`std::bad_alloc`) between the two assignments in `load` is not modelled. That failure could leave a new view beside an old document. The model installs both together.
- CfgRead.JsonConfig.GetAsInt: the error is reported as a result. The source throws a heap pointer (`throw new`), which a handler for `TanuCfgException` by reference would not catch, and which leaks. That difference is not modelled.
- CfgRead.JsonConfig.GetAsInt: the `flatten()` result that the source computes and discards is not modelled. It has no observable effect.
- CfgRead.JsonConfig.GetAsInt: calling it before a successful load dereferences a null pointer. The source has no defined behaviour for that, so the model requires a loaded document.
- CfgRead.JsonConfig.GetAsInt: converting a double whose truncation does not fit in `int` is undefined behaviour in C++. The model requires that such a member is not the one read.
- Json.WrapToInt: `int` is taken to be 32 bits, and the integer cast is taken to be modular as in C++20.
- The destructor's `release()` calls leak both documents. Memory is not modelled.
- `get_as_str`, `get_as_double`, `get_as_int_vec`, `get_as_str_vec` and `get_as_double_vec` are declared in include/cpptanu_cfg/cfg_read.h:47-51 but no implementation of them is part of this model. The same holds for key normalisation and array enumeration.
- unittest/test_main.cpp:51 expects `get_as_int("detail/lang-version")` to resolve a nested path. The code does a plain top-level member lookup, and the model follows the code (`UnitTestScenario` shows the lookup failing). The code has no key normalisation and no "not loaded" error.
- A failed load keeps the old state, because both fields are assigned only after a successful parse (src/cfg_read.cpp:16-18).
- Concurrency is not modelled. The class is not meant to be shared across threads.
- src/main.cpp, the demo that prints to standard output, is not modelled.
