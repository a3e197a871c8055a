/**
 * Validation of an application's app.yaml and assembly of its Dockerfile
 * (scripts/gen_dockerfile.py).
 */
module GenDockerfile {
  import opened Wrappers
  import opened YamlValue
  import opened Text
  import opened ValidationUtils
  import PyInt

  // ---------------------------------------------------------------------
  // Character checks

  predicate IsControl(c: char) {
    c as int <= 0x1f
  }

  predicate NoControl(s: string) {
    forall k :: 0 <= k < |s| ==> !IsControl(s[k])
  }

  /**
   * `PRINTABLE_REGEX.match(s)` for `^[^\x00-\x1f]*$`: no control character,
   * except that `$` also matches before a newline that ends the text, so one
   * final '\n' gets through.
   */
  predicate IsPrintable(s: string) {
    NoControl(s) || (|s| > 0 && s[|s| - 1] == '\n' && NoControl(s[..|s| - 1]))
  }

  predicate IsAlnum(c: char) {
    'a' <= c <= 'z' || 'A' <= c <= 'Z' || '0' <= c <= '9'
  }

  predicate IsImageChar(c: char) {
    IsAlnum(c) || c == '-' || c == '_' || c == '.' || c == '/' || c == ':' || c == '@' || c == '+'
  }

  predicate ImageBody(s: string) {
    |s| >= 1 && IsAlnum(s[0]) && forall k :: 1 <= k < |s| ==> IsImageChar(s[k])
  }

  /** `IMAGE_REGEX.match(s)`: the same trailing-newline allowance as above. */
  predicate IsImageName(s: string) {
    ImageBody(s) || (|s| > 0 && s[|s| - 1] == '\n' && ImageBody(s[..|s| - 1]))
  }

  /** A printable text holds no control character, except possibly one '\n' at its very end. */
  lemma PrintableMeaning(s: string)
    ensures IsPrintable(s) <==>
      forall k :: 0 <= k < |s| ==> !IsControl(s[k]) || (k == |s| - 1 && s[k] == '\n')
  {
    if forall k :: 0 <= k < |s| ==> !IsControl(s[k]) || (k == |s| - 1 && s[k] == '\n') {
      if !NoControl(s) {
        assert |s| > 0 && s[|s| - 1] == '\n';
        assert forall k :: 0 <= k < |s| - 1 ==> s[..|s| - 1][k] == s[k];
      }
    }
  }

  /** The injection of the tests, a newline inside the entrypoint, is refused. */
  lemma EmbeddedNewlineRejected(a: string, b: string)
    requires b != ""
    ensures !IsPrintable(a + "\n" + b)
  {
    var s := a + "\n" + b;
    assert s[|a|] == '\n';
    PrintableMeaning(s);
  }

  /** An image name holds no space, and no newline except possibly a final one. */
  lemma ImageNameNoSpace(s: string)
    requires IsImageName(s)
    ensures |s| > 0 && IsAlnum(s[0])
    ensures forall k :: 0 <= k < |s| ==> s[k] != ' '
    ensures forall k :: 0 <= k < |s| - 1 ==> s[k] != '\n'
  {
    if !ImageBody(s) {
      var b := s[..|s| - 1];
      assert forall k :: 0 <= k < |s| - 1 ==> s[k] == b[k];
    }
  }

  /** A `:tag` or `@digest` of image characters may follow a name on one line. */
  lemma ImageNameWithSuffix(name: string, suffix: string)
    requires ImageBody(name)
    requires forall k :: 0 <= k < |suffix| ==> IsImageChar(suffix[k])
    ensures IsImageName(name + suffix)
  {
    var s := name + suffix;
    forall k | 1 <= k < |s|
      ensures IsImageChar(s[k])
    {
      if k >= |name| {
        assert s[k] == suffix[k - |name|];
      }
    }
    assert ImageBody(s);
  }

  /** The test's image names: accepted with a tag or a digest, refused when empty or starting with ':'. */
  lemma ImageNameExamples()
    ensures ValidateArgRegex("nocolon", IsImageName).Ok?
    ensures ValidateArgRegex("name:andcolon", IsImageName).Ok?
    ensures ValidateArgRegex("name@sha256:digest", IsImageName).Ok?
    ensures ValidateArgRegex("", IsImageName).Err?
    ensures ValidateArgRegex(":", IsImageName).Err?
    ensures ValidateArgRegex(":noname", IsImageName).Err?
  {
    assert ImageBody("nocolon");
    assert ImageBody("name:andcolon");
    assert ImageBody("name@sha256:digest");
    assert ":"[..0] == "";
  }

  // ---------------------------------------------------------------------
  // The application configuration

  /** `PYTHON_INTERPRETER_VERSION_MAP`: app.yaml `python_version` to the Dockerfile's. */
  const PythonInterpreterVersionMap: map<string, string> := map[
    "" := "",
    "2" := "",
    "3" := "3.6",
    "3.4" := "3.4",
    "3.5" := "3.5",
    "3.6" := "3.6",
    "3.7" := "3.7"]

  /** The versions accepted are exactly the seven keys; 2 and an absent version mean the default 2.7. */
  lemma VersionTable(v: string)
    ensures v in PythonInterpreterVersionMap <==> v in {"", "2", "3", "3.4", "3.5", "3.6", "3.7"}
    ensures v in PythonInterpreterVersionMap ==>
      PythonInterpreterVersionMap[v] == (if v == "" || v == "2" then "" else if v == "3" then "3.6" else v)
  {
  }

  /**
   * `AppConfig`. The python-compat configuration has every other field None
   * in the source, so it carries nothing here.
   */
  datatype AppConfig =
    | PythonCompat
    | Standard(baseImage: string, dockerfilePythonVersion: string, entrypoint: string, hasRequirementsTxt: bool)

  /** The ValueErrors of `get_app_config`; the messages' wording is not modelled. */
  datatype ConfigError =
    | NotMapping(found: PyType)
    | BadField(error: FieldError)
    | InvalidEntrypoint(entrypoint: string)
    | InvalidPythonVersion(version: string)

  function AsConfig(r: Result<Value, FieldError>): Result<Value, ConfigError> {
    match r
    case Ok(v) => Ok(v)
    case Err(e) => Err(BadField(e))
  }

  /** The Cloud SDK's mangling: a non-empty entrypoint is run with `exec`. */
  function MangleEntrypoint(e: string): (r: string)
    ensures r == "" <==> e == ""
    ensures r != "" ==> StartsWith(r, "exec ")
    ensures r == e || r == "exec " + e
  {
    if e != "" && !StartsWith(e, "exec ") then "exec " + e else e
  }

  lemma MangleIdempotent(e: string)
    ensures MangleEntrypoint(MangleEntrypoint(e)) == MangleEntrypoint(e)
  {
  }

  /** Mangling keeps a printable entrypoint printable. */
  lemma ManglePrintable(e: string)
    requires IsPrintable(e)
    ensures IsPrintable(MangleEntrypoint(e))
  {
    var r := MangleEntrypoint(e);
    if r != e {
      PrintableMeaning(e);
      PrintableMeaning(r);
      assert forall k :: 5 <= k < |r| ==> r[k] == e[k - 5];
    }
  }

  /**
   * `get_app_config`, with Python's `os.path.isfile` test for
   * requirements.txt passed in as `hasRequirementsTxt`.
   */
  function GetAppConfig(raw: Value, baseImage: string, hasRequirementsTxt: bool): (r: Result<AppConfig, ConfigError>)
    ensures !raw.Map? ==> r == Err(NotMapping(TypeOf(raw)))
    ensures r.Ok? && r.value.Standard? ==>
      && r.value.baseImage == baseImage
      && r.value.hasRequirementsTxt == hasRequirementsTxt
      && r.value.dockerfilePythonVersion in PythonInterpreterVersionMap.Values
      && IsPrintable(r.value.entrypoint)
      && (r.value.entrypoint == "" || StartsWith(r.value.entrypoint, "exec "))
  {
    if !raw.Map? then Err(NotMapping(TypeOf(raw)))
    else
      var runtime :- AsConfig(GetFieldValue(raw, Name("runtime"), StrField));
      if runtime.s == "python-compat" then Ok(PythonCompat)
      else
        var entrypoint :- AsConfig(GetFieldValue(raw, Name("entrypoint"), StrField));
        if !IsPrintable(entrypoint.s) then Err(InvalidEntrypoint(entrypoint.s))
        else
          ManglePrintable(entrypoint.s);
          var mangled := MangleEntrypoint(entrypoint.s);
          var runtimeConfig :- AsConfig(GetFieldValue(raw, Name("runtime_config"), DictField));
          var pythonVersion :- AsConfig(GetFieldValue(runtimeConfig, Name("python_version"), StrField));
          if pythonVersion.s !in PythonInterpreterVersionMap then Err(InvalidPythonVersion(pythonVersion.s))
          else Ok(Standard(baseImage, PythonInterpreterVersionMap[pythonVersion.s], mangled, hasRequirementsTxt))
  }

  /**
   * The python-compat short circuit: the configuration is python-compat
   * exactly when `runtime` reads as that str, whatever the entrypoint and
   * version fields hold.
   */
  lemma CompatShortCircuit(raw: Value, baseImage: string, hasRequirementsTxt: bool)
    ensures GetAppConfig(raw, baseImage, hasRequirementsTxt) == Ok(PythonCompat) <==>
      raw.Map? && GetFieldValue(raw, Name("runtime"), StrField) == Ok(Str("python-compat"))
  {
  }

  /** An entrypoint that is not printable is refused before anything else is looked at. */
  lemma EntrypointChecked(m: map<Value, Value>, baseImage: string, hasRequirementsTxt: bool, e: string)
    requires GetFieldValue(Map(m), Name("runtime"), StrField).Ok?
    requires GetFieldValue(Map(m), Name("runtime"), StrField) != Ok(Str("python-compat"))
    requires GetFieldValue(Map(m), Name("entrypoint"), StrField) == Ok(Str(e))
    ensures !IsPrintable(e) ==> GetAppConfig(Map(m), baseImage, hasRequirementsTxt) == Err(InvalidEntrypoint(e))
    ensures IsPrintable(e) && GetAppConfig(Map(m), baseImage, hasRequirementsTxt).Ok? ==>
      GetAppConfig(Map(m), baseImage, hasRequirementsTxt).value.entrypoint == MangleEntrypoint(e)
  {
  }

  /** The version is looked up in the table, and a version outside it is refused. */
  lemma VersionChecked(m: map<Value, Value>, baseImage: string, hasRequirementsTxt: bool, rc: Value, v: string)
    requires GetFieldValue(Map(m), Name("runtime"), StrField).Ok?
    requires GetFieldValue(Map(m), Name("runtime"), StrField) != Ok(Str("python-compat"))
    requires GetFieldValue(Map(m), Name("entrypoint"), StrField).Ok?
    requires IsPrintable(GetFieldValue(Map(m), Name("entrypoint"), StrField).value.s)
    requires GetFieldValue(Map(m), Name("runtime_config"), DictField) == Ok(rc)
    requires GetFieldValue(rc, Name("python_version"), StrField) == Ok(Str(v))
    ensures v !in PythonInterpreterVersionMap ==>
      GetAppConfig(Map(m), baseImage, hasRequirementsTxt) == Err(InvalidPythonVersion(v))
    ensures v in PythonInterpreterVersionMap ==>
      && GetAppConfig(Map(m), baseImage, hasRequirementsTxt).Ok?
      && GetAppConfig(Map(m), baseImage, hasRequirementsTxt).value.dockerfilePythonVersion == PythonInterpreterVersionMap[v]
  {
  }

  /** An empty app.yaml loads as null, which is no mapping. */
  lemma EmptyConfigRejected(baseImage: string, hasRequirementsTxt: bool)
    ensures GetAppConfig(Null, baseImage, hasRequirementsTxt) == Err(NotMapping(NoneType))
  {
  }

  /** `env: flex`: the default version, no entrypoint. */
  lemma FlexExample(baseImage: string, hasRequirementsTxt: bool)
    ensures GetAppConfig(Map(map[Str("env") := Str("flex")]), baseImage, hasRequirementsTxt)
      == Ok(Standard(baseImage, "", "", hasRequirementsTxt))
  {
    assert IsPrintable("");
    assert "" in PythonInterpreterVersionMap;
  }

  /** A config holding only a printable entrypoint: it is mangled, the version is the default. */
  lemma EntrypointOnlyConfig(e: string, baseImage: string, hasRequirementsTxt: bool)
    requires IsPrintable(e)
    ensures GetAppConfig(Map(map[Str("entrypoint") := Str(e)]), baseImage, hasRequirementsTxt)
      == Ok(Standard(baseImage, "", MangleEntrypoint(e), hasRequirementsTxt))
  {
    var raw := Map(map[Str("entrypoint") := Str(e)]);
    assert GetFieldValue(raw, Name("entrypoint"), StrField) == Ok(Str(e));
    assert "" in PythonInterpreterVersionMap;
  }

  /** `entrypoint: my entrypoint` becomes `exec my entrypoint`. */
  lemma EntrypointExample()
    ensures MangleEntrypoint("my entrypoint") == "exec my entrypoint"
    ensures IsPrintable("my entrypoint")
  {
    assert NoControl("my entrypoint");
    assert "my entrypoint"[0] != 'e';
  }

  function VersionConfig(v: Value): Value {
    Map(map[Str("runtime_config") := Map(map[Str("python_version") := v])])
  }

  /**
   * A config holding only `runtime_config.python_version`: the version read
   * as a str is looked up in the table, with no entrypoint.
   */
  lemma VersionOnlyConfig(v: Value, version: string, baseImage: string, hasRequirementsTxt: bool)
    requires GetFieldValue(Map(map[Str("python_version") := v]), Name("python_version"), StrField) == Ok(Str(version))
    ensures GetAppConfig(VersionConfig(v), baseImage, hasRequirementsTxt) ==
      if version in PythonInterpreterVersionMap
      then Ok(Standard(baseImage, PythonInterpreterVersionMap[version], "", hasRequirementsTxt))
      else Err(InvalidPythonVersion(version))
  {
    var raw := VersionConfig(v);
    var rc := Map(map[Str("python_version") := v]);
    assert GetFieldValue(raw, Name("runtime"), StrField) == Ok(Str(""));
    assert GetFieldValue(raw, Name("entrypoint"), StrField) == Ok(Str(""));
    assert IsPrintable("");
    assert MangleEntrypoint("") == "";
    assert GetFieldValue(raw, Name("runtime_config"), DictField) == Ok(rc);
  }

  /** `python_version: 3.4` loads as a float, whose str is the key '3.4'. */
  lemma FloatVersionExample(baseImage: string)
    ensures GetAppConfig(VersionConfig(Float("3.4")), baseImage, false) == Ok(Standard(baseImage, "3.4", "", false))
  {
    assert Allowlisted(FloatType, StrType);
    VersionOnlyConfig(Float("3.4"), "3.4", baseImage, false);
    assert "3.4" in PythonInterpreterVersionMap;
  }

  /** `python_version: 3` loads as an int, whose str is the key '3', and that maps to 3.6. */
  lemma IntVersionExample(baseImage: string)
    ensures GetAppConfig(VersionConfig(Int(3)), baseImage, false) == Ok(Standard(baseImage, "3.6", "", false))
  {
    assert PyInt.IntToDecimal(3) == "3";
    IntToStr(3, Name("python_version"));
    VersionOnlyConfig(Int(3), "3", baseImage, false);
    assert "3" in PythonInterpreterVersionMap;
  }

  /** `python_version:` with no value is null, which reads as the default ''. */
  lemma NullVersionExample(baseImage: string)
    ensures GetAppConfig(VersionConfig(Null), baseImage, false) == Ok(Standard(baseImage, "", "", false))
  {
    VersionOnlyConfig(Null, "", baseImage, false);
    assert "" in PythonInterpreterVersionMap;
  }

  /** `python_version: 1` is refused. */
  lemma IntVersionRejected(baseImage: string)
    ensures GetAppConfig(VersionConfig(Int(1)), baseImage, false) == Err(InvalidPythonVersion("1"))
  {
    assert PyInt.IntToDecimal(1) == "1";
    IntToStr(1, Name("python_version"));
    VersionOnlyConfig(Int(1), "1", baseImage, false);
    assert "1" !in PythonInterpreterVersionMap;
  }

  /** `python_version: python2` is refused. */
  lemma WordVersionRejected(baseImage: string)
    ensures GetAppConfig(VersionConfig(Str("python2")), baseImage, false) == Err(InvalidPythonVersion("python2"))
  {
    VersionOnlyConfig(Str("python2"), "python2", baseImage, false);
    assert "python2" !in PythonInterpreterVersionMap;
  }

  // ---------------------------------------------------------------------
  // The generated files

  /**
   * The data files, formatted where they are templates: `preamble` is
   * formatted with the base image, `virtualenv` with the Python version and
   * `entrypoint` with the entrypoint. Reading them is not part of this model.
   */
  datatype Templates = Templates(
    preamble: string -> string,
    virtualenv: string -> string,
    requirementsTxt: string,
    installApp: string,
    entrypoint: string -> string,
    pythonCompatDockerfile: string,
    pythonCompatDockerignore: string,
    dockerignore: string)

  /** The Dockerfile of a configuration: a fixed file for python-compat, fragments otherwise. */
  function Dockerfile(config: AppConfig, t: Templates): string {
    match config
    case PythonCompat => t.pythonCompatDockerfile
    case Standard(baseImage, version, entrypoint, hasRequirementsTxt) =>
      Concat([
        t.preamble(baseImage),
        t.virtualenv(version),
        if hasRequirementsTxt then t.requirementsTxt else "",
        t.installApp,
        if entrypoint != "" then t.entrypoint(entrypoint) else ""])
  }

  /** `generate_files`: file name to contents. */
  function GenerateFiles(config: AppConfig, t: Templates): (files: map<string, string>)
    ensures files.Keys == {"Dockerfile", ".dockerignore"}
    ensures files["Dockerfile"] == Dockerfile(config, t)
    ensures files[".dockerignore"] == if config.PythonCompat? then t.pythonCompatDockerignore else t.dockerignore
  {
    map["Dockerfile" := Dockerfile(config, t),
        ".dockerignore" := if config.PythonCompat? then t.pythonCompatDockerignore else t.dockerignore]
  }

  /** The fragments in their order: preamble, virtualenv, requirements, app, entrypoint. */
  lemma DockerfileFragments(b: string, v: string, e: string, req: bool, t: Templates)
    ensures Dockerfile(Standard(b, v, e, req), t) ==
      t.preamble(b) + t.virtualenv(v) + (if req then t.requirementsTxt else "")
      + t.installApp + (if e != "" then t.entrypoint(e) else "")
  {
    var parts := [t.preamble(b), t.virtualenv(v), if req then t.requirementsTxt else "",
                  t.installApp, if e != "" then t.entrypoint(e) else ""];
    assert Concat(parts[..1]) == parts[0] by {
      assert parts[..1][..0] == [];
    }
    assert Concat(parts[..2]) == Concat(parts[..1]) + parts[1] by {
      assert parts[..2][..1] == parts[..1];
    }
    assert Concat(parts[..3]) == Concat(parts[..2]) + parts[2] by {
      assert parts[..3][..2] == parts[..2];
    }
    assert Concat(parts[..4]) == Concat(parts[..3]) + parts[3] by {
      assert parts[..4][..3] == parts[..3];
    }
    assert Concat(parts) == Concat(parts[..4]) + parts[4];
  }

  /** The requirements fragment is there exactly when requirements.txt is: it sits between virtualenv and app. */
  lemma RequirementsToggle(b: string, v: string, e: string, t: Templates)
    ensures var head := t.preamble(b) + t.virtualenv(v);
      var tail := t.installApp + (if e != "" then t.entrypoint(e) else "");
      && Dockerfile(Standard(b, v, e, false), t) == head + tail
      && Dockerfile(Standard(b, v, e, true), t) == head + t.requirementsTxt + tail
  {
    DockerfileFragments(b, v, e, false, t);
    DockerfileFragments(b, v, e, true, t);
  }

  /** A non-empty entrypoint appends its fragment and changes nothing else. */
  lemma EntrypointToggle(b: string, v: string, e: string, req: bool, t: Templates)
    requires e != ""
    ensures Dockerfile(Standard(b, v, e, req), t) == Dockerfile(Standard(b, v, "", req), t) + t.entrypoint(e)
  {
    DockerfileFragments(b, v, e, req, t);
    DockerfileFragments(b, v, "", req, t);
  }
}
