# ssconfig: a verified model of Super Simple Config's loader

Super Simple Config fills a caller's struct in two steps. First it reads an optional JSON file. Then it overlays environment variables named `EnvPrefix + FieldName`. It collects every failure in a `ConfigError` instead of stopping at the first one. This project models that loader (`Set.Load`, the package-level `Load` and `ConfigError.Error` in ssconfig.go) and proves what it does to each field and to the list of errors.

How Go's features are represented:

- **Reflection.** The target struct becomes storage `conf: array<Value>` with one cell per field. Its static type is a `Shape`: either `Struct(fields)` or `NotStruct`. Each field is described by a `FieldInfo` holding its name, whether `CanSet` holds and its `Kind`. The kinds are `String`, `Int`, `Int8` … `Int64`, `Float32`, `Float64` and `Other`. Every other `reflect.Kind` (bool, unsigned, slice, map, struct, …) is `Other`.
- **Environment.** A snapshot `map<string, string>`. `Getenv` reads an absent key as `""`.
- **File system and JSON decoder.** The file system is a snapshot of readable files. `ReadFile("")` fails, as `os.Open("")` does. `json.Unmarshal` is an oracle (`Decoder`). Given the file bytes and the current storage, it returns the new storage and, when decoding fails, an error message. The one thing asked of it is that it keeps the number of cells (`KeepsStorage`).
- **`strconv.ParseInt(s, 10, 64)` and `reflect.Value.OverflowInt`.** Both are modelled concretely in module `Strconv`.
- **`strconv.ParseFloat` and `OverflowFloat`.** An oracle `(value, bits) -> Option<real>` stands in for both.

Modules:

- `Strconv` (strconv.dfy): decimal parsing and formatting, and the overflow test.
- `Fmt` (fmt.dfy): the `%+v` rendering of a `[]string`.
- `Ssconfig` (ssconfig.dfy): the data model; the specification functions `Decide`, `FieldBinding`, `FilePhase`, `EnvPhase` and `LoadSpec`; the imperative loader (`Set.Load`, `Set.LoadFile`, `Set.OverlayEnv`, `Set.SetField`, `Load`); and the lemmas about the specification.
- `Scenarios` (scenarios.dfy): concrete loads taken from the repository's tests.

The imperative methods update `conf` in place. Each one is proved to leave exactly the storage and the error list that `LoadSpec` (or its phase) describes. The lemmas prove what the source promises about `LoadSpec`.

The tests in ssconfig_test.go target a newer API than the one ssconfig.go implements. Where the two disagree, the model follows ssconfig.go:

- A file path that cannot be read records no entry. The newer version records an error keyed by the path for an unreadable file, as the test at ssconfig_test.go:143-172 expects.
- Non-string fields are handled by a fixed switch over kinds. Any other kind records "<name>: type not supported". The newer version instead decodes every non-string value generically, as a JSON literal.
- Entries are plain strings: the field name, "<name>: type not supported", or "failed to parse file: <message>". They are not `FieldError` records.

## Model

| member | source | states |
|---|---|---|
| `Ssconfig.Set.Load` | ssconfig.go:58-139 | The storage ends as `LoadSpec` describes: file phase first, then the overlay. The result is nil exactly when no entry was recorded, and otherwise a `ConfigError` holding every entry in order |
| `Ssconfig.Set.LoadFile` | ssconfig.go:61-73 | The storage becomes what the decoder left when the file could be read. Only a decode failure records an entry, "failed to parse file: <message>" |
| `Ssconfig.Set.OverlayEnv` | ssconfig.go:80-133 | The field loop: every field ends as its own binding dictates, independently of the others. The entries are those of the failing fields, in declaration order |
| `Ssconfig.Set.SetField` | ssconfig.go:90-129 | The kind switch changes only cell `i`, and only to a successfully parsed value. Otherwise it returns the single entry to record |
| `Ssconfig.Load` | ssconfig.go:52-55 | The package-level `Load` is `Set{}` (empty prefix, empty path) loading |
| `Ssconfig.ConfigError.Error` | ssconfig.go:41-44 | The message starts with "ConfigErrors: [" and ends with "]" |
| `Ssconfig.ErrorListsEntries` | ssconfig.go:41-44 | Every entry appears verbatim in the message, each ending before the next begins, so discovery order is kept |
| `Ssconfig.Result` | ssconfig.go:135-138 | The result is nil if and only if there are no entries. Otherwise it carries all of them |
| `Ssconfig.Getenv` | ssconfig.go:86 | An unset variable reads as the empty string |
| `Ssconfig.ReadFile` | ssconfig.go:62 | A read succeeds only for a non-empty path naming a readable file, and yields its bytes |
| `Ssconfig.FilePhase` | ssconfig.go:62-73 | The file phase records at most one entry |
| `Ssconfig.Decide` | ssconfig.go:90-129 | A non-empty value always assigns or records. An assigned value always has the field's kind and fits its width |
| `Ssconfig.FieldBinding` | ssconfig.go:85-87 | A field is left alone exactly when it is not settable or `EnvPrefix + name` (no separator) reads as empty |
| `Ssconfig.StringFieldVerbatim` | ssconfig.go:92-93 | A string field takes the raw value verbatim and records nothing |
| `Ssconfig.IntFieldBinding` | ssconfig.go:95-113 | An integer field of width b is set to v iff the value parses as a base-10 int64 v with -2^(b-1) <= v < 2^(b-1). Otherwise it is left unchanged and records exactly its name |
| `Ssconfig.FloatFieldBinding` | ssconfig.go:115-124 | A float field is set when the parse succeeds. Otherwise it records exactly its name |
| `Ssconfig.UnsupportedFieldBinding` | ssconfig.go:126-128 | Any other kind with a value set records "<name>: type not supported" and is left unchanged |
| `Ssconfig.OverlayEntryCount` | ssconfig.go:81-132 | The overlay records exactly one entry per failing field and none for any other field |
| `Ssconfig.OverlayEntryPosition` | ssconfig.go:81-132 | A failing field's entry sits at the index equal to the number of failing fields declared before it, so entries follow declaration order |
| `Ssconfig.OverlayEntriesEmptyIff` | ssconfig.go:81-132 | The overlay records nothing if and only if no field fails |
| `Ssconfig.OverlayPreservesWellTyped` | ssconfig.go:90-129 | If every field held a value of its kind before the overlay, every field still does after it |
| `Ssconfig.EnvTakesPrecedence` | ssconfig.go:75-77 | After a load, a field holds the value its environment variable binds, or else what the file phase left |
| `Ssconfig.FileEntryComesFirst` | ssconfig.go:62-73 | A decode failure's entry comes before every overlay entry. An unreadable, missing or empty path records nothing. Whenever the load does not panic (see "## Left out"), the overlay runs after the file phase, whatever that phase recorded |
| `Ssconfig.LoadSucceedsIff` | ssconfig.go:135-138 | A load returns nil iff the file was not read or decoded cleanly and no field failed |
| `Ssconfig.NothingToLoad` | ssconfig.go:58-139 | With no readable file and no value for any settable field, a load changes nothing and returns nil |
| `Ssconfig.DefaultLoadIsEnvOnly` | ssconfig.go:53-55 | The default options read no file: the load is the overlay alone, keyed by the bare field names |
| `Strconv.ParseInt` | ssconfig.go:108 | `strconv.ParseInt(s, 10, 64)` succeeds only with a value in the int64 range |
| `Strconv.ParseFormatInt` | ssconfig.go:108 | Every int64 parses back from its decimal rendering |
| `Strconv.ParseIntRejectsNonDigit` | ssconfig.go:108 | A character that is neither a digit nor a leading sign makes the parse fail ("42.42", "hello") |
| `Strconv.ParseIntRejectsBareSign` | ssconfig.go:108 | A sign with no digits after it makes the parse fail |
| `Strconv.OverflowIntIff` | ssconfig.go:108 | `OverflowInt`'s shift-and-compare test fails exactly when the value lies outside the b-bit signed range |
| `Strconv.ParsedFits64` | ssconfig.go:107-108 | Every parsed value fits 64 bits, so an `int` or `int64` field never overflows |
| `Fmt.FormatStrings` | ssconfig.go:43 | `%+v` of a string slice is bracketed |
| `Fmt.JoinListsElement` | ssconfig.go:43 | Every element appears verbatim in the joined text, at its offset |
| `Fmt.OffsetsIncrease` | ssconfig.go:43 | Elements are rendered in order |
| `Scenarios.ParsesFortyTwo` | ssconfig.go:107-108 | "42" (the value the tests set at ssconfig_test.go:36-40) parses as 42. "-42" and "+42" are added examples, not from the tests, and parse as -42 and 42 |
| `Scenarios.DefaultLoadBindsString` | ssconfig_test.go:130-141 | The default load binds the string field `FromEnv` to the string "42" and returns nil |
| `Scenarios.Int8FieldWidth` | ssconfig.go:95-113 | "42" (the value ssconfig_test.go:37 sets) is assigned to an int8 field. "128", an added example not from the tests, overflows it and records the field's name |
| `Scenarios.TwoBadFieldsTwoEntries` | ssconfig_test.go:206-225 | "42.42" for an int and "hello" for a float32 give exactly the two entries `EnvInt`, `EnvFloat`, and both fields keep their values |
| `Scenarios.SliceFieldNotSupported` | ssconfig_test.go:238-255 | A slice field with a value set gives the one entry "EnvList: type not supported" |
| `Scenarios.MalformedFileStillOverlays` | ssconfig_test.go:174-203 | A file that does not decode gives one entry, and `FromEnv` is still bound |
| `Scenarios.MissingFileRecordsNothing` | ssconfig.go:62-73 | A path that names no readable file records nothing, and `FromEnv` is still bound |
| `Scenarios.EnvOverwritesFile` | ssconfig_test.go:45-52 | A file value survives where no variable is set and is replaced where one is |

## Left out

- Reading the file (`ioutil.ReadFile`) is I/O. It is a lookup in a snapshot of readable files.
- JSON decoding (`json.Unmarshal`) is a library decoder. It is an oracle, with no guarantee about what it writes beyond keeping the number of cells.
- `strconv.ParseFloat` and `OverflowFloat` involve floating point. They are one oracle returning the stored value or failure. Only the control flow around them is modelled.
- `log.Printf` diagnostics are observability only and are not modelled.
- Reflection mechanics (`reflect.ValueOf`, `Elem`, `CanSet`, `Kind`) are replaced by the explicit `Shape` and `FieldInfo`. The load panics in `reflect.ValueOf(conf).Elem()` or the `Type()` call after it (ssconfig.go:77-78), and so never runs the overlay, in three cases the model cannot express: `Load` is passed a non-pointer, it is passed a nil pointer, or the file decodes as the JSON literal `null`, which makes `json.Unmarshal` set the local interface `conf` to nil (ssconfig.go:64). The `Decoder` oracle only returns new cell values, so in the model the overlay always follows the file phase.
- Go's platform-dependent `int` width is fixed at 64 bits.
- The error kind (syntax or range) of a failed `ParseInt` is not kept, because the loader only tests whether the error is nil.
- The exact `%+v` rendering of an entry that contains spaces or brackets is not analysed further. The message is defined as "ConfigErrors: " + "[" + entries joined by spaces + "]".
- The typed-error API used by the tests (`FieldError`, `TypeError`, `os.PathError` expectations at ssconfig_test.go:156-164, 256-288) is not implemented by ssconfig.go and is not modelled.
- Concurrent loads into the same struct are not modelled.
