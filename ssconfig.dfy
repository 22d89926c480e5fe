/**
 * Super Simple Config: fill a caller's struct from an optional JSON file and
 * then from environment variables, collecting every failure instead of
 * stopping at the first one.
 *
 * Go's reflection is replaced by explicit type information: the target is a
 * pointer to storage (`conf: array<Value>`, one cell per struct field) whose
 * static type is a `Shape`. The process environment is a snapshot map, the
 * file system a snapshot of readable files, and the JSON decoder and
 * `strconv.ParseFloat` are oracles passed in as functions.
 */
module Ssconfig {
  import opened Wrappers
  import opened Strconv
  import Fmt

  /** The `reflect.Kind`s the environment overlay tells apart; every other kind is `Other`. */
  datatype Kind = String | Int | Int8 | Int16 | Int32 | Int64 | Float32 | Float64 | Other

  predicate IsIntKind(k: Kind) {
    k.Int? || k.Int8? || k.Int16? || k.Int32? || k.Int64?
  }

  predicate IsFloatKind(k: Kind) {
    k.Float32? || k.Float64?
  }

  /** The width of an integer kind; Go's `int` is taken to be 64 bits wide. */
  function IntBits(k: Kind): (b: nat)
    requires IsIntKind(k)
    ensures 8 <= b <= 64
  {
    match k
    case Int8 => 8
    case Int16 => 16
    case Int32 => 32
    case _ => 64
  }

  function FloatBits(k: Kind): (b: nat)
    requires IsFloatKind(k)
    ensures b == 32 || b == 64
  {
    if k.Float32? then 32 else 64
  }

  /**
   * The value held by one field. `OtherVal` stands for a value of a kind the
   * overlay does not handle (a bool, an unsigned integer, a slice, a map, ...),
   * which only the file decoder ever writes.
   */
  datatype Value = StrVal(s: string) | IntVal(i: int) | FloatVal(r: real) | OtherVal(repr: string)

  /** A value that a field of kind `k` can hold. */
  predicate HasKind(k: Kind, v: Value) {
    match k
    case String => v.StrVal?
    case Float32 => v.FloatVal?
    case Float64 => v.FloatVal?
    case Other => v.OtherVal?
    case _ => v.IntVal? && FitsInt(v.i, IntBits(k))
  }

  /** One struct field: its declared name, whether `CanSet` holds (it is exported) and its kind. */
  datatype FieldInfo = FieldInfo(name: string, settable: bool, kind: Kind)

  /** The static type of what the target points to: a struct, or anything else. */
  datatype Shape = Struct(fields: seq<FieldInfo>) | NotStruct

  /** Every field holds a value of its own kind. */
  predicate WellTyped(fields: seq<FieldInfo>, values: seq<Value>) {
    |fields| == |values| && forall i :: 0 <= i < |fields| ==> HasKind(fields[i].kind, values[i])
  }

  /** A snapshot of the process environment. */
  type Env = map<string, string>

  /** `os.Getenv`: an unset variable reads as the empty string. */
  function Getenv(env: Env, key: string): (v: string)
    ensures key !in env ==> v == ""
    ensures key in env ==> v == env[key]
  {
    if key in env then env[key] else ""
  }

  /**
   * `strconv.ParseFloat(s, 64)` followed by the field's `OverflowFloat` test,
   * for a field of the given width: `Some(r)` when both succeed.
   */
  type FloatParser = (string, nat) -> Option<real>

  /** A snapshot of the readable files, by path. */
  type Files = map<string, seq<bv8>>

  /** What `json.Unmarshal` leaves in the target, and its error message if it failed. */
  datatype Decoded = Decoded(values: seq<Value>, failure: Option<string>)

  /** `json.Unmarshal(bytes, &conf)`, given the target's storage before the call. */
  type Decoder = (seq<bv8>, seq<Value>) -> Decoded

  /** The decoder writes into the target in place, so it never changes the number of cells. */
  ghost predicate KeepsStorage(decode: Decoder) {
    forall bytes, values :: |decode(bytes, values).values| == |values|
  }

  /** `ConfigError`: the list of entries recorded during one load. */
  datatype ConfigError = ConfigError(fields: seq<string>) {

    /** `ConfigError.Error`: "ConfigErrors: " followed by the `%+v` rendering of the entries. */
    function Error(): (r: string)
      ensures |r| >= 16 && r[..15] == "ConfigErrors: [" && r[|r| - 1] == ']'
    {
      "ConfigErrors: " + Fmt.FormatStrings(fields)
    }
  }

  /** Every entry appears verbatim in the message, in the order it was recorded. */
  lemma ErrorListsEntries(e: ConfigError, i: nat)
    requires i < |e.fields|
    ensures var o := 15 + Fmt.Offset(e.fields, i);
      o + |e.fields[i]| < |e.Error()| && e.Error()[o..o + |e.fields[i]|] == e.fields[i]
    ensures i + 1 < |e.fields| ==>
      15 + Fmt.Offset(e.fields, i) + |e.fields[i]| < 15 + Fmt.Offset(e.fields, i + 1)
  {
    Fmt.JoinListsElement(e.fields, i);
    var j := Fmt.Join(e.fields);
    var o := Fmt.Offset(e.fields, i);
    assert e.Error() == "ConfigErrors: [" + j + "]";
    assert e.Error()[15 + o..15 + o + |e.fields[i]|] == j[o..o + |e.fields[i]|];
    if i + 1 < |e.fields| {
      Fmt.OffsetsIncrease(e.fields, i);
    }
  }

  /** The load result: nil exactly when nothing was recorded. */
  function Result(entries: seq<string>): (r: Option<ConfigError>)
    ensures r.None? <==> entries == []
    ensures r.Some? ==> r.value.fields == entries
  {
    if |entries| > 0 then Some(ConfigError(entries)) else None
  }

  // ---------------------------------------------------------------------------
  // Specification of one field of the environment overlay
  // ---------------------------------------------------------------------------

  /** What the overlay does to one field: nothing, assign a value, or record an entry. */
  datatype Binding = Keep | Assign(value: Value) | Fail(entry: string)

  /** The switch on the field's kind, for a non-empty environment value `raw`. */
  function Decide(info: FieldInfo, raw: string, parseFloat: FloatParser): (b: Binding)
    ensures !b.Keep?
    ensures b.Assign? ==> HasKind(info.kind, b.value)
  {
    if info.kind.String? then Assign(StrVal(raw))
    else if IsIntKind(info.kind) then
      match ParseInt(raw)
      case Some(v) =>
        if !OverflowInt(v, IntBits(info.kind)) then
          OverflowIntIff(v, IntBits(info.kind));
          Assign(IntVal(v))
        else Fail(info.name)
      case None => Fail(info.name)
    else if IsFloatKind(info.kind) then
      match parseFloat(raw, FloatBits(info.kind))
      case Some(r) => Assign(FloatVal(r))
      case None => Fail(info.name)
    else Fail(info.name + ": type not supported")
  }

  /** The overlay's decision for one field under `prefix` and `env`. */
  function FieldBinding(prefix: string, env: Env, parseFloat: FloatParser, info: FieldInfo): (b: Binding)
    ensures b.Keep? <==> !info.settable || Getenv(env, prefix + info.name) == ""
  {
    if !info.settable then Keep
    else
      var raw := Getenv(env, prefix + info.name);
      if raw == "" then Keep else Decide(info, raw, parseFloat)
  }

  /** The value a field holds after its binding. */
  function Bound(b: Binding, current: Value): Value {
    if b.Assign? then b.value else current
  }

  /** The entries a binding records. */
  function EntriesOf(b: Binding): seq<string> {
    if b.Fail? then [b.entry] else []
  }

  // ---------------------------------------------------------------------------
  // Specification of the whole load
  // ---------------------------------------------------------------------------

  /** The target's storage and the entries recorded so far. */
  datatype Outcome = Outcome(values: seq<Value>, entries: seq<string>)

  /** `ioutil.ReadFile`: opening the empty path fails, as `os.Open("")` does. */
  function ReadFile(files: Files, path: string): (r: Option<seq<bv8>>)
    ensures r.Some? ==> path != "" && path in files && r.value == files[path]
  {
    if path != "" && path in files then Some(files[path]) else None
  }

  /** The entries of the overlay over `fields`, in declaration order. */
  function OverlayEntries(prefix: string, env: Env, parseFloat: FloatParser, fields: seq<FieldInfo>): seq<string> {
    if fields == [] then []
    else
      OverlayEntries(prefix, env, parseFloat, fields[..|fields| - 1])
      + EntriesOf(FieldBinding(prefix, env, parseFloat, fields[|fields| - 1]))
  }

  lemma OverlayEntriesStep(prefix: string, env: Env, parseFloat: FloatParser, fields: seq<FieldInfo>, k: nat)
    requires k < |fields|
    ensures OverlayEntries(prefix, env, parseFloat, fields[..k + 1])
      == OverlayEntries(prefix, env, parseFloat, fields[..k]) + EntriesOf(FieldBinding(prefix, env, parseFloat, fields[k]))
  {
    assert fields[..k + 1][..k] == fields[..k];
  }

  /** The storage after the overlay: each field by its own binding alone. */
  function OverlayValues(prefix: string, env: Env, parseFloat: FloatParser, fields: seq<FieldInfo>, values: seq<Value>): (r: seq<Value>)
    requires |fields| == |values|
    ensures |r| == |values|
  {
    seq(|values|, i requires 0 <= i < |values| => Bound(FieldBinding(prefix, env, parseFloat, fields[i]), values[i]))
  }

  /** The file phase (ssconfig.go:62-73): only a decode failure records an entry. */
  function FilePhase(path: string, files: Files, decode: Decoder, values: seq<Value>): (r: Outcome)
    ensures |r.entries| <= 1
  {
    match ReadFile(files, path)
    case None => Outcome(values, [])
    case Some(bytes) =>
      var d := decode(bytes, values);
      match d.failure
      case None => Outcome(d.values, [])
      case Some(msg) => Outcome(d.values, ["failed to parse file: " + msg])
  }

  /** The environment overlay (ssconfig.go:75-133): only for a struct target. */
  function EnvPhase(prefix: string, shape: Shape, env: Env, parseFloat: FloatParser, values: seq<Value>): Outcome
    requires shape.Struct? ==> |shape.fields| == |values|
  {
    match shape
    case NotStruct => Outcome(values, [])
    case Struct(fields) =>
      Outcome(OverlayValues(prefix, env, parseFloat, fields, values), OverlayEntries(prefix, env, parseFloat, fields))
  }

  /** Both phases in order, entries of the file phase first. */
  function LoadSpec(ssc: Set, shape: Shape, files: Files, decode: Decoder, env: Env, parseFloat: FloatParser, values: seq<Value>): Outcome
    requires shape.Struct? ==> |shape.fields| == |values|
    requires KeepsStorage(decode)
  {
    var f := FilePhase(ssc.filePath, files, decode, values);
    var e := EnvPhase(ssc.envPrefix, shape, env, parseFloat, f.values);
    Outcome(e.values, f.entries + e.entries)
  }

  // ---------------------------------------------------------------------------
  // Properties of one field
  // ---------------------------------------------------------------------------

  /** A string field takes the raw environment value verbatim, and never records an entry. */
  lemma StringFieldVerbatim(prefix: string, env: Env, parseFloat: FloatParser, info: FieldInfo)
    requires info.settable && info.kind.String?
    requires Getenv(env, prefix + info.name) != ""
    ensures FieldBinding(prefix, env, parseFloat, info) == Assign(StrVal(env[prefix + info.name]))
  {
  }

  /**
   * An integer field of width b is set to v exactly when the value parses as a
   * base-10 int64 v within the b-bit range; otherwise it records its own name.
   */
  lemma IntFieldBinding(prefix: string, env: Env, parseFloat: FloatParser, info: FieldInfo)
    requires info.settable && IsIntKind(info.kind)
    requires Getenv(env, prefix + info.name) != ""
    ensures var raw := Getenv(env, prefix + info.name);
      var b := FieldBinding(prefix, env, parseFloat, info);
      (b.Assign? <==> ParseInt(raw).Some? && FitsInt(ParseInt(raw).value, IntBits(info.kind)))
      && (b.Assign? ==> b.value == IntVal(ParseInt(raw).value))
      && (!b.Assign? ==> b == Fail(info.name))
  {
    var raw := Getenv(env, prefix + info.name);
    if ParseInt(raw).Some? {
      OverflowIntIff(ParseInt(raw).value, IntBits(info.kind));
    }
  }

  /** A float field is set when the float parser accepts the value; otherwise it records its own name. */
  lemma FloatFieldBinding(prefix: string, env: Env, parseFloat: FloatParser, info: FieldInfo)
    requires info.settable && IsFloatKind(info.kind)
    requires Getenv(env, prefix + info.name) != ""
    ensures var p := parseFloat(Getenv(env, prefix + info.name), FloatBits(info.kind));
      FieldBinding(prefix, env, parseFloat, info) == if p.Some? then Assign(FloatVal(p.value)) else Fail(info.name)
  {
  }

  /** A field of any other kind with a value set records "<name>: type not supported". */
  lemma UnsupportedFieldBinding(prefix: string, env: Env, parseFloat: FloatParser, info: FieldInfo)
    requires info.settable && info.kind.Other?
    requires Getenv(env, prefix + info.name) != ""
    ensures FieldBinding(prefix, env, parseFloat, info) == Fail(info.name + ": type not supported")
  {
  }

  // ---------------------------------------------------------------------------
  // Properties of the overlay
  // ---------------------------------------------------------------------------

  /** The number of fields whose binding fails, counted from the front. */
  function Failures(prefix: string, env: Env, parseFloat: FloatParser, fields: seq<FieldInfo>): (n: nat)
    ensures n <= |fields|
  {
    if fields == [] then 0
    else
      var here := if FieldBinding(prefix, env, parseFloat, fields[0]).Fail? then 1 else 0;
      here + Failures(prefix, env, parseFloat, fields[1..])
  }

  lemma {:induction false} FailuresSnoc(prefix: string, env: Env, parseFloat: FloatParser, fields: seq<FieldInfo>, k: nat)
    requires k < |fields|
    ensures Failures(prefix, env, parseFloat, fields[..k + 1])
      == Failures(prefix, env, parseFloat, fields[..k])
         + (if FieldBinding(prefix, env, parseFloat, fields[k]).Fail? then 1 else 0)
  {
    if k > 0 {
      assert fields[..k + 1][1..] == fields[1..][..k];
      assert fields[..k][1..] == fields[1..][..k - 1];
      FailuresSnoc(prefix, env, parseFloat, fields[1..], k - 1);
    }
  }

  /** One entry per failing field and none for any other: at most one entry per field. */
  lemma {:induction false} OverlayEntryCount(prefix: string, env: Env, parseFloat: FloatParser, fields: seq<FieldInfo>)
    ensures |OverlayEntries(prefix, env, parseFloat, fields)| == Failures(prefix, env, parseFloat, fields)
  {
    if fields != [] {
      var k := |fields| - 1;
      OverlayEntryCount(prefix, env, parseFloat, fields[..k]);
      FailuresSnoc(prefix, env, parseFloat, fields, k);
      assert fields[..k + 1] == fields;
    }
  }

  /** The entries of a prefix of the fields are a prefix of the entries. */
  lemma {:induction false} OverlayEntriesPrefix(prefix: string, env: Env, parseFloat: FloatParser, fields: seq<FieldInfo>, k: nat)
    requires k <= |fields|
    ensures var all := OverlayEntries(prefix, env, parseFloat, fields);
      var some := OverlayEntries(prefix, env, parseFloat, fields[..k]);
      |some| <= |all| && all[..|some|] == some
  {
    if k < |fields| {
      var n := |fields| - 1;
      assert fields[..n][..k] == fields[..k];
      OverlayEntriesPrefix(prefix, env, parseFloat, fields[..n], k);
    } else {
      assert fields[..k] == fields;
    }
  }

  /**
   * Entries follow declaration order: a failing field's entry sits at the
   * position given by the number of failing fields declared before it.
   */
  lemma OverlayEntryPosition(prefix: string, env: Env, parseFloat: FloatParser, fields: seq<FieldInfo>, i: nat)
    requires i < |fields| && FieldBinding(prefix, env, parseFloat, fields[i]).Fail?
    ensures var entries := OverlayEntries(prefix, env, parseFloat, fields);
      var k := Failures(prefix, env, parseFloat, fields[..i]);
      k < |entries| && entries[k] == FieldBinding(prefix, env, parseFloat, fields[i]).entry
  {
    var all := OverlayEntries(prefix, env, parseFloat, fields);
    var before := OverlayEntries(prefix, env, parseFloat, fields[..i]);
    var upto := OverlayEntries(prefix, env, parseFloat, fields[..i + 1]);
    var e := FieldBinding(prefix, env, parseFloat, fields[i]).entry;
    OverlayEntriesPrefix(prefix, env, parseFloat, fields, i + 1);
    OverlayEntriesStep(prefix, env, parseFloat, fields, i);
    OverlayEntryCount(prefix, env, parseFloat, fields[..i]);
    assert upto == before + [e];
    assert all[..|upto|] == upto;
    assert all[|before|] == upto[|before|] == e;
  }

  /** The overlay records nothing exactly when no field's binding fails. */
  lemma {:induction false} OverlayEntriesEmptyIff(prefix: string, env: Env, parseFloat: FloatParser, fields: seq<FieldInfo>)
    ensures OverlayEntries(prefix, env, parseFloat, fields) == []
      <==> forall i :: 0 <= i < |fields| ==> !FieldBinding(prefix, env, parseFloat, fields[i]).Fail?
  {
    OverlayEntryCount(prefix, env, parseFloat, fields);
    if exists i :: 0 <= i < |fields| && FieldBinding(prefix, env, parseFloat, fields[i]).Fail? {
      var i :| 0 <= i < |fields| && FieldBinding(prefix, env, parseFloat, fields[i]).Fail?;
      OverlayEntryPosition(prefix, env, parseFloat, fields, i);
    } else {
      NoFailuresCountZero(prefix, env, parseFloat, fields);
    }
  }

  lemma {:induction false} NoFailuresCountZero(prefix: string, env: Env, parseFloat: FloatParser, fields: seq<FieldInfo>)
    requires forall i :: 0 <= i < |fields| ==> !FieldBinding(prefix, env, parseFloat, fields[i]).Fail?
    ensures Failures(prefix, env, parseFloat, fields) == 0
  {
    if fields != [] {
      assert !FieldBinding(prefix, env, parseFloat, fields[0]).Fail?;
      NoFailuresCountZero(prefix, env, parseFloat, fields[1..]);
    }
  }

  /** The overlay keeps every field holding a value of its kind. */
  lemma OverlayPreservesWellTyped(prefix: string, env: Env, parseFloat: FloatParser, fields: seq<FieldInfo>, values: seq<Value>)
    requires WellTyped(fields, values)
    ensures WellTyped(fields, OverlayValues(prefix, env, parseFloat, fields, values))
  {
  }

  // ---------------------------------------------------------------------------
  // Properties of the whole load
  // ---------------------------------------------------------------------------

  /**
   * Environment values take precedence: a field ends with the value its
   * environment variable binds, and otherwise with what the file phase left.
   */
  lemma EnvTakesPrecedence(ssc: Set, fields: seq<FieldInfo>, files: Files, decode: Decoder, env: Env,
                           parseFloat: FloatParser, values: seq<Value>, i: nat)
    requires |fields| == |values| && KeepsStorage(decode) && i < |fields|
    ensures var filed := FilePhase(ssc.filePath, files, decode, values).values;
      var b := FieldBinding(ssc.envPrefix, env, parseFloat, fields[i]);
      var r := LoadSpec(ssc, Struct(fields), files, decode, env, parseFloat, values);
      |r.values| == |values| && r.values[i] == (if b.Assign? then b.value else filed[i])
  {
  }

  /**
   * The file phase records at most one entry, "failed to parse file: ...",
   * and only when the file was read and did not decode; it precedes every
   * entry of the overlay, which runs in every case.
   */
  lemma FileEntryComesFirst(ssc: Set, shape: Shape, files: Files, decode: Decoder, env: Env,
                            parseFloat: FloatParser, values: seq<Value>)
    requires shape.Struct? ==> |shape.fields| == |values|
    requires KeepsStorage(decode)
    ensures var r := LoadSpec(ssc, shape, files, decode, env, parseFloat, values);
      var content := ReadFile(files, ssc.filePath);
      var filed := FilePhase(ssc.filePath, files, decode, values).values;
      var overlay := EnvPhase(ssc.envPrefix, shape, env, parseFloat, filed).entries;
      if content.Some? && decode(content.value, values).failure.Some? then
        r.entries == ["failed to parse file: " + decode(content.value, values).failure.value] + overlay
      else
        r.entries == overlay
  {
  }

  /** A load returns nil exactly when the file decoded (or was not read) and no field failed. */
  lemma LoadSucceedsIff(ssc: Set, fields: seq<FieldInfo>, files: Files, decode: Decoder, env: Env,
                        parseFloat: FloatParser, values: seq<Value>)
    requires |fields| == |values| && KeepsStorage(decode)
    ensures var r := LoadSpec(ssc, Struct(fields), files, decode, env, parseFloat, values);
      var content := ReadFile(files, ssc.filePath);
      Result(r.entries).None? <==>
        (content.Some? ==> decode(content.value, values).failure.None?)
        && forall i :: 0 <= i < |fields| ==> !FieldBinding(ssc.envPrefix, env, parseFloat, fields[i]).Fail?
  {
    OverlayEntriesEmptyIff(ssc.envPrefix, env, parseFloat, fields);
  }

  /**
   * With no readable file and no environment value for any settable field,
   * a load changes nothing and returns nil.
   */
  lemma NothingToLoad(ssc: Set, fields: seq<FieldInfo>, files: Files, decode: Decoder, env: Env,
                      parseFloat: FloatParser, values: seq<Value>)
    requires |fields| == |values| && KeepsStorage(decode)
    requires ReadFile(files, ssc.filePath).None?
    requires forall i :: 0 <= i < |fields| && fields[i].settable ==> Getenv(env, ssc.envPrefix + fields[i].name) == ""
    ensures var r := LoadSpec(ssc, Struct(fields), files, decode, env, parseFloat, values);
      r.values == values && Result(r.entries) == None
  {
    OverlayEntriesEmptyIff(ssc.envPrefix, env, parseFloat, fields);
  }

  /** The default options read no file: the load is the overlay alone, keyed by bare field names. */
  lemma DefaultLoadIsEnvOnly(shape: Shape, files: Files, decode: Decoder, env: Env,
                             parseFloat: FloatParser, values: seq<Value>)
    requires shape.Struct? ==> |shape.fields| == |values|
    requires KeepsStorage(decode)
    ensures LoadSpec(Set("", ""), shape, files, decode, env, parseFloat, values)
      == EnvPhase("", shape, env, parseFloat, values)
  {
  }

  // ---------------------------------------------------------------------------
  // The loader
  // ---------------------------------------------------------------------------

  /** The load options: an environment-variable prefix and a file path, both empty by default. */
  datatype Set = Set(envPrefix: string, filePath: string) {

    /** The file phase of `Set.Load` (ssconfig.go:62-73). */
    method LoadFile(conf: array<Value>, files: Files, decode: Decoder) returns (entries: seq<string>)
      requires KeepsStorage(decode)
      modifies conf
      ensures var r := FilePhase(filePath, files, decode, old(conf[..]));
        conf[..] == r.values && entries == r.entries
    {
      entries := [];
      var content := ReadFile(files, filePath);
      if content.Some? {
        var d := decode(content.value, conf[..]);
        forall i | 0 <= i < conf.Length {
          conf[i] := d.values[i];
        }
        if d.failure.Some? {
          entries := entries + ["failed to parse file: " + d.failure.value];
        }
      }
    }

    /**
     * The switch on a field's kind for a non-empty environment value
     * (ssconfig.go:90-129): assign the parsed value, or return the entry to record.
     */
    static method SetField(conf: array<Value>, i: nat, info: FieldInfo, raw: string, parseFloat: FloatParser)
      returns (failed: seq<string>)
      requires i < conf.Length
      modifies conf
      ensures conf[i] == Bound(Decide(info, raw, parseFloat), old(conf[i]))
      ensures forall j :: 0 <= j < conf.Length && j != i ==> conf[j] == old(conf[j])
      ensures failed == EntriesOf(Decide(info, raw, parseFloat))
    {
      failed := [];
      if info.kind.String? {
        conf[i] := StrVal(raw);
      } else if IsIntKind(info.kind) {
        var parsed := ParseInt(raw);
        if parsed.Some? && !OverflowInt(parsed.value, IntBits(info.kind)) {
          conf[i] := IntVal(parsed.value);
        } else {
          failed := failed + [info.name];
        }
      } else if IsFloatKind(info.kind) {
        var parsed := parseFloat(raw, FloatBits(info.kind));
        if parsed.Some? {
          conf[i] := FloatVal(parsed.value);
        } else {
          failed := failed + [info.name];
        }
      } else {
        failed := failed + [info.name + ": type not supported"];
      }
    }

    /** The environment overlay of `Set.Load` over a struct's fields (ssconfig.go:80-133). */
    method OverlayEnv(fields: seq<FieldInfo>, conf: array<Value>, env: Env, parseFloat: FloatParser)
      returns (entries: seq<string>)
      requires |fields| == conf.Length
      modifies conf
      ensures conf[..] == OverlayValues(envPrefix, env, parseFloat, fields, old(conf[..]))
      ensures entries == OverlayEntries(envPrefix, env, parseFloat, fields)
    {
      ghost var overlaid := OverlayValues(envPrefix, env, parseFloat, fields, conf[..]);
      entries := [];
      var i := 0;
      while i < |fields|
        invariant 0 <= i <= |fields|
        invariant forall j :: 0 <= j < i ==> conf[j] == overlaid[j]
        invariant forall j :: i <= j < conf.Length ==> conf[j] == old(conf[j])
        invariant entries == OverlayEntries(envPrefix, env, parseFloat, fields[..i])
      {
        var info := fields[i];
        assert overlaid[i] == Bound(FieldBinding(envPrefix, env, parseFloat, info), conf[i]);
        if info.settable {
          var raw := Getenv(env, envPrefix + info.name);
          if raw != "" {
            var failed := SetField(conf, i, info, raw, parseFloat);
            entries := entries + failed;
          }
        }
        OverlayEntriesStep(envPrefix, env, parseFloat, fields, i);
        i := i + 1;
      }
      assert fields[..i] == fields;
    }

    /** `Set.Load`: the file phase, then the environment overlay, then the result (ssconfig.go:58-139). */
    method Load(shape: Shape, conf: array<Value>, files: Files, decode: Decoder, env: Env, parseFloat: FloatParser)
      returns (err: Option<ConfigError>)
      requires shape.Struct? ==> |shape.fields| == conf.Length
      requires KeepsStorage(decode)
      modifies conf
      ensures var r := LoadSpec(this, shape, files, decode, env, parseFloat, old(conf[..]));
        conf[..] == r.values && err == Result(r.entries)
    {
      var entries := LoadFile(conf, files, decode);
      if shape.Struct? {
        var overlayEntries := OverlayEnv(shape.fields, conf, env, parseFloat);
        entries := entries + overlayEntries;
      }
      assert entries == LoadSpec(this, shape, files, decode, env, parseFloat, old(conf[..])).entries;
      if |entries| > 0 {
        err := Some(ConfigError(entries));
      } else {
        err := None;
      }
    }
  }

  /** The package-level `Load`: `Set{}.Load`, with no prefix and no file. */
  method Load(shape: Shape, conf: array<Value>, files: Files, decode: Decoder, env: Env, parseFloat: FloatParser)
    returns (err: Option<ConfigError>)
    requires shape.Struct? ==> |shape.fields| == conf.Length
    requires KeepsStorage(decode)
    modifies conf
    ensures var r := LoadSpec(Set("", ""), shape, files, decode, env, parseFloat, old(conf[..]));
      conf[..] == r.values && err == Result(r.entries)
  {
    err := Set("", "").Load(shape, conf, files, decode, env, parseFloat);
  }
}
