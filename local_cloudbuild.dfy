/**
 * The local emulation of Cloud Build (scripts/local_cloudbuild.py): decoding
 * a parsed cloudbuild.yaml into validated steps, turning each step into a
 * `docker run` command line, assembling the shell script around those
 * commands, and the permission bits the script file is given.
 */
module LocalCloudbuild {
  import opened Wrappers
  import opened YamlValue
  import opened Text
  import opened ValidationUtils
  import opened ShellQuote

  /** One validated build step. */
  datatype Step = Step(args: seq<string>, dir: string, env: seq<string>, name: string)

  /** A validated recipe together with the flags that travel with it. */
  datatype CloudBuild = CloudBuild(outputScript: string, run: bool, steps: seq<Step>)

  /** The command line flags `get_cloudbuild` reads. */
  datatype Flags = Flags(config: string, outputScript: string, run: bool)

  /**
   * The script's file name: the `--output_script` flag, or when it is absent
   * or empty, the config path with `_local.sh` appended.
   */
  function OutputScript(config: string, outputScript: Option<string>): (path: string)
    ensures outputScript.Some? && outputScript.value != "" ==> path == outputScript.value
    ensures outputScript.None? || outputScript.value == "" ==>
      |path| == |config| + 9 && StartsWith(path, config) && path[|config|..] == "_local.sh"
  {
    if outputScript.None? || outputScript.value == "" then config + "_local.sh" else outputScript.value
  }

  /** The ValueErrors of decoding; the messages' wording is not modelled. */
  datatype BuildError =
    | ConfigNotDict(found: PyType)
    | NoStepsDefined
    | StepNotDict(found: PyType)
    | BadField(error: FieldError)

  // ---------------------------------------------------------------------
  // Decoding

  /**
   * This file's own `get_field_value`: only a field that is absent (KeyError
   * or IndexError) defaults to the zero value; an explicit null goes through
   * the type check like any other value.
   */
  function FetchField(container: Value, field: FieldName, t: FieldType): (r: Result<Value, FieldError>)
    ensures r.Ok? ==> TypeOf(r.value) == TypeName(t)
  {
    var fetched :- Subscript(container, field);
    match fetched
    case None => Ok(Zero(t))
    case Some(v) => Coerce(v, field, t)
  }

  function AsBuild(r: Result<Value, FieldError>): Result<Value, BuildError> {
    match r
    case Ok(v) => Ok(v)
    case Err(e) => Err(BadField(e))
  }

  /** An explicit null is a type error here, never the default. */
  lemma NullRejected(m: map<Value, Value>, name: string, t: FieldType)
    requires Str(name) in m && m[Str(name)] == Null
    ensures FetchField(Map(m), Name(name), t) == Err(Disallowed(Name(name), TypeName(t), NoneType))
  {
  }

  /** The two copies of `get_field_value` agree everywhere except on an explicit null. */
  lemma FetchFieldAgrees(container: Value, field: FieldName, t: FieldType)
    ensures Subscript(container, field) != Ok(Some(Null)) ==>
      FetchField(container, field, t) == GetFieldValue(container, field, t)
    ensures Subscript(container, field) == Ok(Some(Null)) ==>
      && GetFieldValue(container, field, t) == Ok(Zero(t))
      && FetchField(container, field, t).Err?
  {
  }

  /** Elements of a list that are present are fetched and coerced by position. */
  lemma FetchElement(items: seq<Value>, k: int, t: FieldType)
    requires 0 <= k < |items|
    ensures FetchField(List(items), Index(k), t) == Coerce(items[k], Index(k), t)
  {
  }

  /**
   * `[get_field_value(raw, index, str) for index in range(len(raw))]` on a
   * list `raw`: every element coerced to a str, the first failure raised
   * (see `StrElementsFirstError`).
   */
  function StrElements(items: seq<Value>): (r: Result<seq<string>, FieldError>)
    ensures r.Ok? <==> forall k :: 0 <= k < |items| ==> Coerce(items[k], Index(k), StrField).Ok?
    ensures r.Ok? ==>
      && |r.value| == |items|
      && forall k :: 0 <= k < |items| ==> Coerce(items[k], Index(k), StrField) == Ok(Str(r.value[k]))
  {
    if |items| == 0 then Ok([])
    else
      var n := |items| - 1;
      assert forall k :: 0 <= k < n ==> items[..n][k] == items[k];
      var init :- StrElements(items[..n]);
      var last :- FetchField(List(items), Index(n), StrField);
      Ok(init + [last.s])
  }

  /** The error raised is the one of the first element that cannot be coerced. */
  lemma {:induction false} StrElementsFirstError(items: seq<Value>, k: nat)
    requires k < |items|
    requires forall j :: 0 <= j < k ==> Coerce(items[j], Index(j), StrField).Ok?
    requires Coerce(items[k], Index(k), StrField).Err?
    ensures StrElements(items) == Err(Coerce(items[k], Index(k), StrField).error)
  {
    var n := |items| - 1;
    var init := items[..n];
    assert forall j :: 0 <= j < n ==> init[j] == items[j];
    if k < n {
      StrElementsFirstError(init, k);
    } else {
      FetchElement(items, n, StrField);
      assert StrElements(init).Ok?;
    }
  }

  function StrElementsOf(items: seq<Value>): (r: Result<seq<string>, BuildError>)
    ensures r.Ok? <==> StrElements(items).Ok?
    ensures r.Ok? ==> r.value == StrElements(items).value
    ensures r.Err? ==> r.error == BadField(StrElements(items).error)
  {
    match StrElements(items)
    case Ok(v) => Ok(v)
    case Err(e) => Err(BadField(e))
  }

  /** The list a step keeps under `key`, or `[]` where there is none to fetch. */
  function RawList(raw: Value, key: string): seq<Value> {
    match FetchField(raw, Name(key), ListField)
    case Ok(List(items)) => items
    case _ => []
  }

  /** `get_step`: the fields are fetched in the order args, dir, env, name. */
  function GetStep(raw: Value): (r: Result<Step, BuildError>)
    ensures !raw.Map? ==> r == Err(StepNotDict(TypeOf(raw)))
  {
    if !raw.Map? then Err(StepNotDict(TypeOf(raw)))
    else
      var rawArgs :- AsBuild(FetchField(raw, Name("args"), ListField));
      var args :- StrElementsOf(rawArgs.items);
      var dir :- AsBuild(FetchField(raw, Name("dir"), StrField));
      var rawEnv :- AsBuild(FetchField(raw, Name("env"), ListField));
      var env :- StrElementsOf(rawEnv.items);
      var name :- AsBuild(FetchField(raw, Name("name"), StrField));
      Ok(Step(args, dir.s, env, name.s))
  }

  /**
   * A decoded step holds the fetched `name` and `dir` strs and the coerced
   * elements of the fetched `args` and `env` lists.
   */
  lemma GetStepFields(raw: Value)
    requires GetStep(raw).Ok?
    ensures var step := GetStep(raw).value;
      && FetchField(raw, Name("name"), StrField) == Ok(Str(step.name))
      && FetchField(raw, Name("dir"), StrField) == Ok(Str(step.dir))
      && StrElements(RawList(raw, "args")) == Ok(step.args)
      && StrElements(RawList(raw, "env")) == Ok(step.env)
  {
    GetStepSucceeds(raw);
    var rawArgs := FetchField(raw, Name("args"), ListField).value;
    var dir := FetchField(raw, Name("dir"), StrField).value;
    var rawEnv := FetchField(raw, Name("env"), ListField).value;
    var name := FetchField(raw, Name("name"), StrField).value;
    assert RawList(raw, "args") == rawArgs.items && RawList(raw, "env") == rawEnv.items;
    var args := StrElements(rawArgs.items).value;
    var env := StrElements(rawEnv.items).value;
    assert GetStep(raw) == Ok(Step(args, dir.s, env, name.s));
  }

  /** A step decodes exactly when it is a dict whose four fields and all list elements decode. */
  lemma GetStepSucceeds(raw: Value)
    ensures GetStep(raw).Ok? <==>
      && raw.Map?
      && FetchField(raw, Name("args"), ListField).Ok?
      && FetchField(raw, Name("dir"), StrField).Ok?
      && FetchField(raw, Name("env"), ListField).Ok?
      && FetchField(raw, Name("name"), StrField).Ok?
      && StrElements(RawList(raw, "args")).Ok?
      && StrElements(RawList(raw, "env")).Ok?
  {
  }

  /** `[f(x) for x in xs]` where `f` may raise: the results in order, or the first error raised. */
  function Collect<A, B, E>(f: A -> Result<B, E>, xs: seq<A>): (r: Result<seq<B>, E>)
    ensures r.Ok? <==> forall k :: 0 <= k < |xs| ==> f(xs[k]).Ok?
    ensures r.Ok? ==> |r.value| == |xs| && forall k :: 0 <= k < |xs| ==> f(xs[k]) == Ok(r.value[k])
  {
    if |xs| == 0 then Ok([])
    else
      var n := |xs| - 1;
      assert forall k :: 0 <= k < n ==> xs[..n][k] == xs[k];
      var init :- Collect(f, xs[..n]);
      var last :- f(xs[n]);
      Ok(init + [last])
  }

  lemma {:induction false} CollectFirstError<A, B, E>(f: A -> Result<B, E>, xs: seq<A>, k: nat)
    requires k < |xs|
    requires forall j :: 0 <= j < k ==> f(xs[j]).Ok?
    requires f(xs[k]).Err?
    ensures Collect(f, xs) == Err(f(xs[k]).error)
  {
    var n := |xs| - 1;
    assert forall j :: 0 <= j < n ==> xs[..n][j] == xs[j];
    if k < n {
      CollectFirstError(f, xs[..n], k);
    }
  }

  /** `[get_step(raw_step) for raw_step in raw_steps]`: one step per raw step, in order. */
  function GetSteps(raws: seq<Value>): (r: Result<seq<Step>, BuildError>)
    ensures r.Ok? <==> forall k :: 0 <= k < |raws| ==> GetStep(raws[k]).Ok?
    ensures r.Ok? ==> |r.value| == |raws| && forall k :: 0 <= k < |raws| ==> GetStep(raws[k]) == Ok(r.value[k])
  {
    Collect(GetStep, raws)
  }

  /** The error raised is the one of the first step that does not decode. */
  lemma GetStepsFirstError(raws: seq<Value>, k: nat)
    requires k < |raws|
    requires forall j :: 0 <= j < k ==> GetStep(raws[j]).Ok?
    requires GetStep(raws[k]).Err?
    ensures GetSteps(raws) == Err(GetStep(raws[k]).error)
  {
    CollectFirstError(GetStep, raws, k);
  }

  /** `get_cloudbuild`. */
  function GetCloudbuild(raw: Value, flags: Flags): (r: Result<CloudBuild, BuildError>)
    ensures !raw.Map? ==> r == Err(ConfigNotDict(TypeOf(raw)))
    ensures r.Ok? ==> r.value.outputScript == flags.outputScript && r.value.run == flags.run
    ensures r.Ok? ==> |RawList(raw, "steps")| > 0 && GetSteps(RawList(raw, "steps")) == Ok(r.value.steps)
  {
    if !raw.Map? then Err(ConfigNotDict(TypeOf(raw)))
    else
      var rawSteps :- AsBuild(FetchField(raw, Name("steps"), ListField));
      if |rawSteps.items| == 0 then Err(NoStepsDefined)
      else
        var steps :- GetSteps(rawSteps.items);
        Ok(CloudBuild(flags.outputScript, flags.run, steps))
  }

  /** A recipe without a `steps` field has no steps defined. */
  lemma MissingSteps(m: map<Value, Value>, flags: Flags)
    requires Str("steps") !in m
    ensures GetCloudbuild(Map(m), flags) == Err(NoStepsDefined)
  {
  }

  /** An empty `steps` list is rejected like a missing one. */
  lemma EmptySteps(m: map<Value, Value>, flags: Flags)
    requires Str("steps") in m && m[Str("steps")] == List([])
    ensures GetCloudbuild(Map(m), flags) == Err(NoStepsDefined)
  {
  }

  /** A `steps` field that is not a list, null included, is a type error. */
  lemma StepsNotList(m: map<Value, Value>, flags: Flags)
    requires Str("steps") in m && !m[Str("steps")].List?
    ensures GetCloudbuild(Map(m), flags) ==
      Err(BadField(Disallowed(Name("steps"), ListType, TypeOf(m[Str("steps")]))))
  {
  }

  /**
   * A recipe whose steps all decode yields exactly those steps, in order,
   * with the flags copied, whatever other keys it holds.
   */
  lemma CloudbuildSteps(m: map<Value, Value>, rawSteps: seq<Value>, flags: Flags, steps: seq<Step>)
    requires Str("steps") in m && m[Str("steps")] == List(rawSteps)
    requires |rawSteps| > 0 && |steps| == |rawSteps|
    requires forall k :: 0 <= k < |rawSteps| ==> GetStep(rawSteps[k]) == Ok(steps[k])
    ensures GetCloudbuild(Map(m), flags) == Ok(CloudBuild(flags.outputScript, flags.run, steps))
  {
    var r := GetSteps(rawSteps);
    assert r.Ok?;
    assert r.value == steps;
  }

  /** A recipe with a step that does not decode raises the first such step's error. */
  lemma CloudbuildFirstError(m: map<Value, Value>, rawSteps: seq<Value>, flags: Flags, k: nat)
    requires Str("steps") in m && m[Str("steps")] == List(rawSteps)
    requires k < |rawSteps|
    requires forall j :: 0 <= j < k ==> GetStep(rawSteps[j]).Ok?
    requires GetStep(rawSteps[k]).Err?
    ensures GetCloudbuild(Map(m), flags) == Err(GetStep(rawSteps[k]).error)
  {
    GetStepsFirstError(rawSteps, k);
  }

  /** An empty step decodes to all defaults: `Step([], '', [], '')`. */
  lemma EmptyStep()
    ensures GetStep(Map(map[])) == Ok(Step([], "", [], ""))
  {
  }

  /** The str a scalar element becomes: a str stays as it is, an int becomes its decimal rendering. */
  function ScalarText(v: Value): string
    requires v.Str? || v.Int?
  {
    if v.Str? then v.s else PyInt.IntToDecimal(v.i)
  }

  /**
   * A list of strs and ints always decodes, element by element; the test's
   * `['arg1', 2, 'arg3 with \n newline']` gives `['arg1', '2', 'arg3 with \n newline']`.
   */
  lemma StrElementsOfScalars(items: seq<Value>)
    requires forall k :: 0 <= k < |items| ==> items[k].Str? || items[k].Int?
    ensures StrElements(items) == Ok(seq(|items|, k requires 0 <= k < |items| => ScalarText(items[k])))
  {
    var expected := seq(|items|, k requires 0 <= k < |items| => ScalarText(items[k]));
    forall k | 0 <= k < |items|
      ensures Coerce(items[k], Index(k), StrField) == Ok(Str(expected[k]))
    {
      if items[k].Int? {
        IntToStr(items[k].i, Index(k));
      }
    }
    var r := StrElements(items);
    assert r.Ok? && |r.value| == |items|;
    forall k | 0 <= k < |items|
      ensures r.value[k] == expected[k]
    {
      assert Coerce(items[k], Index(k), StrField) == Ok(Str(r.value[k]));
    }
    assert r.value == expected;
  }

  /** The test's rejected steps: not a dict, args or env not a list. */
  lemma InvalidStepShapes()
    ensures GetStep(List([])) == Err(StepNotDict(ListType))
    ensures GetStep(Map(map[Str("args") := Str("not_a_list")])).Err?
    ensures GetStep(Map(map[Str("env") := Str("not_a_list")])).Err?
  {
    var args := Map(map[Str("args") := Str("not_a_list")]);
    assert FetchField(args, Name("args"), ListField).Err?;
    GetStepSucceeds(args);
    var env := Map(map[Str("env") := Str("not_a_list")]);
    assert FetchField(env, Name("env"), ListField).Err?;
    GetStepSucceeds(env);
  }

  /** A step whose `key` list holds a single element that is not a str is refused. */
  lemma BadElementRejected(key: string, element: Value)
    requires key == "args" || key == "env"
    requires Coerce(element, Index(0), StrField).Err?
    ensures GetStep(Map(map[Str(key) := List([element])])).Err?
  {
    var raw := Map(map[Str(key) := List([element])]);
    assert FetchField(raw, Name(key), ListField) == Ok(List([element]));
    assert RawList(raw, key) == [element];
    StrElementsFirstError([element], 0);
    GetStepSucceeds(raw);
  }

  /** The test's rejected steps: containers where strs are expected. */
  lemma InvalidStepElements()
    ensures GetStep(Map(map[Str("args") := List([List([])])])).Err?
    ensures GetStep(Map(map[Str("env") := List([Map(map[])])])).Err?
  {
    BadElementRejected("args", List([]));
    BadElementRejected("env", Map(map[]));
  }

  lemma InvalidStepFields()
    ensures GetStep(Map(map[Str("dir") := Map(map[])])).Err?
    ensures GetStep(Map(map[Str("name") := List([])])).Err?
  {
    var dir := Map(map[Str("dir") := Map(map[])]);
    assert FetchField(dir, Name("dir"), StrField).Err?;
    GetStepSucceeds(dir);
    var name := Map(map[Str("name") := List([])]);
    assert FetchField(name, Name("name"), StrField).Err?;
    GetStepSucceeds(name);
  }

  // ---------------------------------------------------------------------
  // Commands

  /** `os.path.join(a, b)` for two path components. */
  function PathJoin(a: string, b: string): (p: string)
    ensures StartsWith(b, "/") ==> p == b
    ensures !StartsWith(b, "/") ==> |p| >= |a| + |b| && p[..|a|] == a && p[|p| - |b|..] == b
  {
    if StartsWith(b, "/") then b
    else if a == "" || a[|a| - 1] == '/' then a + b
    else a + "/" + b
  }

  /** The `--workdir` of a step. */
  function Workdir(dir: string): string {
    if dir == "" then "/workspace" else PathJoin("/workspace", Quote(dir))
  }

  const Volumes: seq<string> := [
    "--volume", "/var/run/docker.sock:/var/run/docker.sock",
    "--volume", "/root/.docker:/root/.docker",
    "--volume", "${HOST_WORKSPACE}:/workspace"]

  /** `--env`, then the quoted entry, for each entry in order. */
  function EnvFlags(env: seq<string>): seq<string> {
    if |env| == 0 then [] else EnvFlags(env[..|env| - 1]) + ["--env", Quote(env[|env| - 1])]
  }

  function QuoteAll(args: seq<string>): (q: seq<string>)
    ensures |q| == |args| && forall k :: 0 <= k < |args| ==> q[k] == Quote(args[k])
  {
    seq(|args|, k requires 0 <= k < |args| => Quote(args[k]))
  }

  function CommandPrefix(workdir: string): seq<string> {
    ["docker", "run"] + Volumes + ["--workdir", workdir]
  }

  /** The token vector of a step. */
  function CommandTokens(step: Step): seq<string> {
    CommandPrefix(Workdir(step.dir)) + EnvFlags(step.env) + [Quote(step.name)] + QuoteAll(step.args)
  }

  /** The fixed tokens, mounts included, are emitted verbatim. */
  lemma CommandPrefixTokens(workdir: string)
    ensures CommandPrefix(workdir) ==
      ["docker", "run", "--volume", "/var/run/docker.sock:/var/run/docker.sock",
       "--volume", "/root/.docker:/root/.docker", "--volume", "${HOST_WORKSPACE}:/workspace",
       "--workdir", workdir]
  {
  }

  /** `generate_command`. */
  method GenerateCommand(step: Step) returns (cmd: seq<string>)
    ensures cmd == CommandTokens(step)
  {
    var quotedArgs := QuoteAll(step.args);
    var quotedEnv: seq<string> := [];
    var i := 0;
    while i < |step.env|
      invariant 0 <= i <= |step.env|
      invariant quotedEnv == EnvFlags(step.env[..i])
    {
      assert step.env[..i + 1][..i] == step.env[..i];
      quotedEnv := quotedEnv + ["--env", Quote(step.env[i])];
      i := i + 1;
    }
    assert step.env[..i] == step.env;
    var quotedName := Quote(step.name);
    var workdir := "/workspace";
    if step.dir != "" {
      workdir := PathJoin(workdir, Quote(step.dir));
    }
    cmd := CommandPrefix(workdir) + quotedEnv + [quotedName] + quotedArgs;
  }

  lemma {:induction false} EnvFlagsLayout(env: seq<string>)
    ensures |EnvFlags(env)| == 2 * |env|
    ensures forall k :: 0 <= k < |env| ==> EnvFlags(env)[2 * k] == "--env" && EnvFlags(env)[2 * k + 1] == Quote(env[k])
  {
    if |env| > 0 {
      var n := |env| - 1;
      var init := env[..n];
      EnvFlagsLayout(init);
      var f := EnvFlags(env);
      assert f == EnvFlags(init) + ["--env", Quote(env[n])];
      forall k | 0 <= k < |env|
        ensures f[2 * k] == "--env" && f[2 * k + 1] == Quote(env[k])
      {
        if k < n {
          assert init[k] == env[k];
        }
      }
    }
  }

  lemma FourPartLayout(p: seq<string>, e: seq<string>, x: string, q: seq<string>)
    ensures var c := p + e + [x] + q;
      && |c| == |p| + |e| + 1 + |q|
      && c[..|p|] == p
      && (forall k :: 0 <= k < |e| ==> c[|p| + k] == e[k])
      && c[|p| + |e|] == x
      && (forall k :: 0 <= k < |q| ==> c[|p| + |e| + 1 + k] == q[k])
  {
  }

  /**
   * The exact command: the ten fixed tokens ending in the workdir, one
   * `--env` pair per entry in order, the quoted image name and the quoted
   * arguments in order, 11 + 2·|env| + |args| tokens in all.
   */
  lemma CommandLayout(step: Step)
    ensures var c := CommandTokens(step);
      var n := |step.env|;
      && |c| == 11 + 2 * n + |step.args|
      && c[..10] == CommandPrefix(Workdir(step.dir))
      && (forall k :: 0 <= k < n ==> c[10 + 2 * k] == "--env" && c[11 + 2 * k] == Quote(step.env[k]))
      && c[10 + 2 * n] == Quote(step.name)
      && (forall k :: 0 <= k < |step.args| ==> c[11 + 2 * n + k] == Quote(step.args[k]))
  {
    var p := CommandPrefix(Workdir(step.dir));
    var e := EnvFlags(step.env);
    var x := Quote(step.name);
    var q := QuoteAll(step.args);
    var c := CommandTokens(step);
    var n := |step.env|;
    EnvFlagsLayout(step.env);
    assert |p| == 10 && |e| == 2 * n;
    assert c == p + e + [x] + q;
    FourPartLayout(p, e, x, q);
    forall k | 0 <= k < n
      ensures c[10 + 2 * k] == "--env" && c[11 + 2 * k] == Quote(step.env[k])
    {
      assert c[|p| + 2 * k] == e[2 * k];
      assert c[|p| + (2 * k + 1)] == e[2 * k + 1];
    }
    forall k | 0 <= k < |step.args|
      ensures c[11 + 2 * n + k] == Quote(step.args[k])
    {
      assert c[|p| + |e| + 1 + k] == q[k];
    }
  }

  /**
   * The workdir is `/workspace` for no directory, the directory itself when
   * it is a bare absolute path (`os.path.join` drops `/workspace`), and
   * otherwise `/workspace/` followed by the quoted directory.
   */
  lemma WorkdirCases(dir: string)
    ensures dir == "" ==> Workdir(dir) == "/workspace"
    ensures dir != "" && AllSafe(dir) && dir[0] == '/' ==> Workdir(dir) == dir
    ensures dir != "" && !(AllSafe(dir) && dir[0] == '/') ==> Workdir(dir) == "/workspace/" + Quote(dir)
  {
    if dir != "" && !(AllSafe(dir) && dir[0] == '/') {
      QuoteIdentity(dir);
      if Quote(dir) == dir {
        assert dir[0] != '/';
      } else {
        assert Quote(dir)[0] == '\'';
      }
    }
  }

  lemma WorkdirExample()
    ensures Workdir("adir") == "/workspace/adir"
  {
    assert AllSafe("adir") && "adir"[0] != '/';
    QuoteIdentity("adir");
    WorkdirCases("adir");
  }

  // ---------------------------------------------------------------------
  // The script

  const DebianImage: string := "gcr.io/google-appengine/debian8"

  /** The step that empties `/workspace`, hidden files included, but keeps the directory. */
  const CleanupStep: Step := Step(["rm", "-rf", "/workspace"], "", [], DebianImage)

  /** The build script template, split at its two holes, with `{{`/`}}` already unescaped. */
  const ScriptHead: string := @"#!/bin/bash
# This is a generated file.  Do not edit.

set -euo pipefail

SOURCE_DIR=.

# Setup staging directory
HOST_WORKSPACE=$(mktemp -d -t local_cloudbuild_XXXXXXXXXX)
function cleanup {
    if [ ""${HOST_WORKSPACE}"" != '/' -a -d ""${HOST_WORKSPACE}"" ]; then
        # Expect a single error message about /workspace busy
        "

  const ScriptMid: string := @" 2>/dev/null || true
        # Do not expect error messages here.  Display but ignore any that happen.
        rmdir ""${HOST_WORKSPACE}"" || true
    fi
}
trap cleanup EXIT

# Copy source to staging directory
echo ""Copying source to staging directory ${HOST_WORKSPACE}""
rsync -avzq --exclude=.git ""${SOURCE_DIR}"" ""${HOST_WORKSPACE}""

# Build commands
"

  const ScriptTail: string := @"
# End of build commands
echo ""Build completed successfully""
"

  /** The template with `cleanup_str` and `docker_str` filled in. */
  function ScriptText(cleanupStr: string, dockerStr: string): string {
    ScriptHead + cleanupStr + ScriptMid + dockerStr + ScriptTail
  }

  /** A step's line of the script: its command joined by spaces, then a blank line. */
  function DockerLine(step: Step): string {
    Join(CommandTokens(step), " ") + "\n\n"
  }

  function DockerLines(steps: seq<Step>): (lines: seq<string>)
    ensures |lines| == |steps| && forall k :: 0 <= k < |steps| ==> lines[k] == DockerLine(steps[k])
  {
    seq(|steps|, k requires 0 <= k < |steps| => DockerLine(steps[k]))
  }

  lemma DockerLinesNext(steps: seq<Step>, i: nat)
    requires i < |steps|
    ensures DockerLines(steps[..i + 1]) == DockerLines(steps[..i]) + [DockerLine(steps[i])]
  {
    var next, prev := DockerLines(steps[..i + 1]), DockerLines(steps[..i]);
    assert forall k :: 0 <= k < i ==> steps[..i + 1][k] == steps[..i][k];
    assert next == prev + [DockerLine(steps[i])];
  }

  function DockerStr(steps: seq<Step>): string {
    Concat(DockerLines(steps))
  }

  function CleanupStr(): string {
    Join(CommandTokens(CleanupStep), " ")
  }

  /** The cleanup step's command, joined by spaces. */
  method CleanupCommand() returns (cleanupStr: string)
    ensures cleanupStr == CleanupStr()
  {
    var cleanupCommand := GenerateCommand(CleanupStep);
    cleanupStr := Join(cleanupCommand, " ");
  }

  /** The loop of `generate_script` that builds `docker_str`, one line per step. */
  method DockerCommands(steps: seq<Step>) returns (dockerStr: string)
    ensures dockerStr == DockerStr(steps)
  {
    var dockerLines: seq<string> := [];
    var i := 0;
    while i < |steps|
      invariant 0 <= i <= |steps|
      invariant dockerLines == DockerLines(steps[..i])
    {
      var dockerCommand := GenerateCommand(steps[i]);
      var line := Join(dockerCommand, " ") + "\n\n";
      assert line == DockerLine(steps[i]);
      DockerLinesNext(steps, i);
      dockerLines := dockerLines + [line];
      i := i + 1;
    }
    assert steps[..i] == steps;
    dockerStr := Concat(dockerLines);
  }

  /** `generate_script`. */
  method GenerateScript(cloudbuild: CloudBuild) returns (s: string)
    ensures s == ScriptText(CleanupStr(), DockerStr(cloudbuild.steps))
  {
    var cleanupStr := CleanupCommand();
    var dockerStr := DockerCommands(cloudbuild.steps);
    s := ScriptText(cleanupStr, dockerStr);
  }

  /** No steps leave the build-commands section empty. */
  lemma NoStepsNoCommands()
    ensures DockerStr([]) == ""
  {
  }

  /** The commands section is the steps' lines in order: it distributes over concatenation. */
  lemma DockerStrAppend(a: seq<Step>, b: seq<Step>)
    ensures DockerStr(a + b) == DockerStr(a) + DockerStr(b)
  {
    var la, lb, lab := DockerLines(a), DockerLines(b), DockerLines(a + b);
    forall k | 0 <= k < |lab|
      ensures lab[k] == (la + lb)[k]
    {
      if k < |a| {
        assert (a + b)[k] == a[k];
      } else {
        assert (a + b)[k] == b[k - |a|];
      }
    }
    assert lab == la + lb;
    ConcatAppend(la, lb);
  }

  lemma OneStepLine(step: Step)
    ensures DockerStr([step]) == Join(CommandTokens(step), " ") + "\n\n"
  {
    var lines := DockerLines([step]);
    assert lines == [DockerLine(step)];
    assert lines[..0] == [];
    assert Concat(lines) == Concat(lines[..0]) + lines[0];
    assert "" + DockerLine(step) == DockerLine(step);
  }

  // ---------------------------------------------------------------------
  // The script's permission bits

  /**
   * `mode | ((mode & 0o444) >> 2)`: each read bit (0o400, 0o040, 0o004)
   * sets the execute bit of the same class (0o100, 0o010, 0o001). The mode
   * is held in 32 bits, which covers `st_mode`.
   */
  function NewMode(mode: bv32): (r: bv32)
    ensures r & mode == mode
  {
    mode | ((mode & 0x124) >> 2)
  }

  /** Each execute bit is set exactly when it or the read bit of its class was set. */
  lemma NewModeExecBits(mode: bv32)
    ensures (NewMode(mode) & 0x40 != 0) <==> (mode & 0x40 != 0 || mode & 0x100 != 0)
    ensures (NewMode(mode) & 0x08 != 0) <==> (mode & 0x08 != 0 || mode & 0x20 != 0)
    ensures (NewMode(mode) & 0x01 != 0) <==> (mode & 0x01 != 0 || mode & 0x04 != 0)
  {
  }

  /** Only the three execute bits can change. */
  lemma NewModeOtherBits(mode: bv32)
    ensures NewMode(mode) & !0x49 == mode & !0x49
  {
  }

  /** Making a file executable twice is the same as doing it once. */
  lemma NewModeIdempotent(mode: bv32)
    ensures NewMode(NewMode(mode)) == NewMode(mode)
  {
  }

  /** `rw-r--r--` becomes `rwxr-xr-x`, and `rw-------` becomes `rwx------`. */
  lemma NewModeExamples()
    ensures NewMode(0x1A4) == 0x1ED
    ensures NewMode(0x180) == 0x1C0
  {
  }
}
