/**
 * Concrete loads: the situations the repository's tests exercise, stated
 * against the model of `Set.Load` wherever the tests agree with ssconfig.go.
 */
module Scenarios {
  import opened Wrappers
  import opened Strconv
  import opened Ssconfig

  /** Decimal literals the tests use. */
  lemma ParsesFortyTwo()
    ensures ParseInt("42") == Some(42)
    ensures ParseInt("-42") == Some(-42)
    ensures ParseInt("+42") == Some(42)
  {
    ParseFormatInt(42);
    ParseFormatInt(-42);
    assert FormatInt(42) == "42";
    assert FormatInt(-42) == "-42";
    assert "+42"[1..] == "42";
  }

  /**
   * The default load binds a string field to the raw value: "42" stays the
   * string "42" (ssconfig_test.go:130-141).
   */
  lemma DefaultLoadBindsString(files: Files, decode: Decoder, parseFloat: FloatParser, zero: Value)
    requires KeepsStorage(decode)
    ensures var fields := [FieldInfo("FromEnv", true, String)];
      var r := LoadSpec(Set("", ""), Struct(fields), files, decode, map["FromEnv" := "42"], parseFloat, [zero]);
      r.values == [StrVal("42")] && Result(r.entries) == None
  {
    var fields := [FieldInfo("FromEnv", true, String)];
    var env := map["FromEnv" := "42"];
    assert "" + "FromEnv" == "FromEnv";
    StringFieldVerbatim("", env, parseFloat, fields[0]);
    assert OverlayEntries("", env, parseFloat, fields) == OverlayEntries("", env, parseFloat, []) + [];
  }

  /**
   * "42" fits an int8 field but "128" does not: the width check rejects it
   * and records the field's name, leaving the old value.
   */
  lemma Int8FieldWidth(parseFloat: FloatParser)
    ensures FieldBinding("", map["EnvVarInt8" := "42"], parseFloat, FieldInfo("EnvVarInt8", true, Int8))
      == Assign(IntVal(42))
    ensures FieldBinding("", map["EnvVarInt8" := "128"], parseFloat, FieldInfo("EnvVarInt8", true, Int8))
      == Fail("EnvVarInt8")
  {
    ParsesFortyTwo();
    assert "" + "EnvVarInt8" == "EnvVarInt8";
    ParseFormatInt(128);
    assert FormatInt(128) == "128";
    IntFieldBinding("", map["EnvVarInt8" := "42"], parseFloat, FieldInfo("EnvVarInt8", true, Int8));
    IntFieldBinding("", map["EnvVarInt8" := "128"], parseFloat, FieldInfo("EnvVarInt8", true, Int8));
    assert Pow2(7) == 128;
  }

  /**
   * An int field set to "42.42" and a float32 field set to "hello" give
   * exactly two entries, one per field, in declaration order, and both
   * fields keep their values (ssconfig_test.go:206-225).
   */
  lemma TwoBadFieldsTwoEntries(files: Files, decode: Decoder, parseFloat: FloatParser, a: Value, b: Value)
    requires KeepsStorage(decode)
    requires parseFloat("hello", 32) == None
    ensures var fields := [FieldInfo("EnvInt", true, Int), FieldInfo("EnvFloat", true, Float32)];
      var env := map["EnvInt" := "42.42", "EnvFloat" := "hello"];
      var r := LoadSpec(Set("", ""), Struct(fields), files, decode, env, parseFloat, [a, b]);
      r.values == [a, b] && Result(r.entries) == Some(ConfigError(["EnvInt", "EnvFloat"]))
  {
    var fields := [FieldInfo("EnvInt", true, Int), FieldInfo("EnvFloat", true, Float32)];
    var env := map["EnvInt" := "42.42", "EnvFloat" := "hello"];
    assert "" + "EnvInt" == "EnvInt" && "" + "EnvFloat" == "EnvFloat";
    assert Getenv(env, "EnvFloat") == "hello";
    ParseIntRejectsNonDigit("42.42", 2);
    IntFieldBinding("", env, parseFloat, fields[0]);
    assert FieldBinding("", env, parseFloat, fields[0]) == Fail("EnvInt");
    assert FieldBinding("", env, parseFloat, fields[1]) == Fail("EnvFloat");
    var vs := OverlayValues("", env, parseFloat, fields, [a, b]);
    assert vs[0] == a && vs[1] == b;
    assert vs == [a, b];
    assert fields[..1] == [fields[0]] && fields[..1][..0] == [];
    assert OverlayEntries("", env, parseFloat, fields[..1]) == ["EnvInt"];
    assert OverlayEntries("", env, parseFloat, fields) == ["EnvInt"] + ["EnvFloat"];
    DefaultLoadIsEnvOnly(Struct(fields), files, decode, env, parseFloat, [a, b]);
    var r := LoadSpec(Set("", ""), Struct(fields), files, decode, env, parseFloat, [a, b]);
    assert r.values == vs;
    assert r.entries == ["EnvInt", "EnvFloat"];
  }

  /**
   * A slice field with a value set is not supported: one entry
   * "EnvList: type not supported" (ssconfig_test.go:238-255).
   */
  lemma SliceFieldNotSupported(files: Files, decode: Decoder, parseFloat: FloatParser, zero: Value)
    requires KeepsStorage(decode)
    ensures var fields := [FieldInfo("EnvList", true, Other)];
      var r := LoadSpec(Set("", ""), Struct(fields), files, decode, map["EnvList" := "[42,42]"], parseFloat, [zero]);
      r.values == [zero] && r.entries == ["EnvList: type not supported"]
  {
    var fields := [FieldInfo("EnvList", true, Other)];
    var env := map["EnvList" := "[42,42]"];
    assert "" + "EnvList" == "EnvList";
    assert "EnvList" + ": type not supported" == "EnvList: type not supported";
    UnsupportedFieldBinding("", env, parseFloat, fields[0]);
    OverlayEntriesStep("", env, parseFloat, fields, 0);
    assert fields[..0] == [] && fields[..1] == fields;
    var vs := OverlayValues("", env, parseFloat, fields, [zero]);
    assert vs[0] == zero;
    assert vs == [zero];
    DefaultLoadIsEnvOnly(Struct(fields), files, decode, env, parseFloat, [zero]);
    assert OverlayEntries("", env, parseFloat, []) == [];
    var r := LoadSpec(Set("", ""), Struct(fields), files, decode, env, parseFloat, [zero]);
    assert r.values == vs;
  }

  /**
   * A file that does not decode records one entry, and the overlay still
   * binds the environment value (ssconfig_test.go:174-203).
   */
  lemma MalformedFileStillOverlays(files: Files, decode: Decoder, parseFloat: FloatParser, zero: Value, msg: string)
    requires KeepsStorage(decode)
    requires "test.yml" in files
    requires decode(files["test.yml"], [zero]).failure == Some(msg)
    ensures var fields := [FieldInfo("FromEnv", true, String)];
      var r := LoadSpec(Set("", "test.yml"), Struct(fields), files, decode, map["FromEnv" := "42"], parseFloat, [zero]);
      r.values == [StrVal("42")] && r.entries == ["failed to parse file: " + msg]
  {
    var fields := [FieldInfo("FromEnv", true, String)];
    var env := map["FromEnv" := "42"];
    assert "" + "FromEnv" == "FromEnv";
    assert OverlayEntries("", env, parseFloat, fields) == OverlayEntries("", env, parseFloat, []) + [];
  }

  /**
   * A path that names no readable file records nothing, and the overlay
   * still binds the environment value. (The test at ssconfig_test.go:143-172
   * expects an error here; ssconfig.go records none.)
   */
  lemma MissingFileRecordsNothing(files: Files, decode: Decoder, parseFloat: FloatParser, zero: Value)
    requires KeepsStorage(decode)
    requires "no/file.conf" !in files
    ensures var fields := [FieldInfo("FromEnv", true, String)];
      var r := LoadSpec(Set("", "no/file.conf"), Struct(fields), files, decode, map["FromEnv" := "42"], parseFloat, [zero]);
      r.values == [StrVal("42")] && Result(r.entries) == None
  {
    var fields := [FieldInfo("FromEnv", true, String)];
    var env := map["FromEnv" := "42"];
    assert "" + "FromEnv" == "FromEnv";
    assert OverlayEntries("", env, parseFloat, fields) == OverlayEntries("", env, parseFloat, []) + [];
  }

  /**
   * A value read from the file survives when no environment variable is set,
   * and is replaced when one is (ssconfig_test.go:45-52, 89-111).
   */
  lemma EnvOverwritesFile(files: Files, decode: Decoder, parseFloat: FloatParser, a: Value, b: Value)
    requires KeepsStorage(decode)
    requires "./test.json" in files
    requires decode(files["./test.json"], [a, b]) == Decoded([StrVal("42"), StrVal("file")], None)
    ensures var fields := [FieldInfo("FileString", true, String), FieldInfo("OverwriteString", true, String)];
      var r := LoadSpec(Set("", "./test.json"), Struct(fields), files, decode, map["OverwriteString" := "42"], parseFloat, [a, b]);
      r.values == [StrVal("42"), StrVal("42")] && Result(r.entries) == None
  {
    var fields := [FieldInfo("FileString", true, String), FieldInfo("OverwriteString", true, String)];
    var env := map["OverwriteString" := "42"];
    assert "" + "OverwriteString" == "OverwriteString" && "" + "FileString" == "FileString";
    assert "FileString" != "OverwriteString";
    assert fields[..1] == [fields[0]] && fields[..1][..0] == [];
    assert OverlayEntries("", env, parseFloat, fields[..1]) == [];
    assert OverlayEntries("", env, parseFloat, fields) == [] + [];
  }
}
