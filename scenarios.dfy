/** The cases of tests/unit_tests/test_yaml_arguments.py, stated on the model.
    The YAML documents appear here as the namespaces that parsing and the JSON
    round trip would hand to the merge. */
module YamlArgumentsScenarios {
  import opened Wrappers
  import opened PyValues
  import opened EnvPattern
  import opened YamlArguments

  /** YAML values override CLI values; an attribute the YAML omits keeps its
      CLI value. */
  lemma YamlOverridesCli(yaml: Namespace, cli: Namespace)
    requires yaml == [("learning_rate", VFloat("0.01")), ("batch_size", VInt(64))]
    requires cli == [("learning_rate", VFloat("0.001")), ("batch_size", VInt(32)), ("num_epochs", VInt(10))]
    ensures Merge(yaml, cli, true)
         == Ok([("learning_rate", VFloat("0.01")), ("batch_size", VInt(64)), ("num_epochs", VInt(10))])
  {
    GetAttrAt(yaml, 0);
    GetAttrAt(yaml, 1);
    assert !HasAttr(yaml, "num_epochs");
    MergeOk(yaml, cli, true);
    var r := Merge(yaml, cli, true).value;
    assert r[0] == ("learning_rate", VFloat("0.01"));
    assert r[1] == ("batch_size", VInt(64));
    assert r[2] == ("num_epochs", VInt(10));
    assert r == [("learning_rate", VFloat("0.01")), ("batch_size", VInt(64)), ("num_epochs", VInt(10))];
  }

  /** A string where the CLI holds a float fails the type gate. */
  lemma StringForFloatIsRejected(yaml: Namespace, cli: Namespace)
    requires yaml == [("learning_rate", VStr("invalid_string"))]
    requires cli == [("learning_rate", VFloat("0.001"))]
    ensures Merge(yaml, cli, false) == Err(InvalidType("learning_rate", Float, Str))
    ensures "Invalid type" <= Message(InvalidType("learning_rate", Float, Str))
  {
    GetAttrAt(yaml, 0);
    assert Mismatch(yaml, cli[0]);
    MergeTypeGate(yaml, cli, false);
  }

  /** A YAML attribute unknown to the CLI fails the merge unless unknown
      arguments are ignored, and is then dropped. */
  lemma UnknownArgumentDetected(yaml: Namespace, cli: Namespace)
    requires yaml == [("learning_rate", VFloat("0.01")), ("unknown_arg", VStr("value"))]
    requires cli == [("learning_rate", VFloat("0.001"))]
    ensures Merge(yaml, cli, false) == Err(UnknownArgument("unknown_arg"))
    ensures Merge(yaml, cli, true) == Ok([("learning_rate", VFloat("0.01"))])
    ensures "Unknown argument" <= Message(UnknownArgument("unknown_arg"))
  {
    GetAttrAt(yaml, 0);
    assert !Mismatch(yaml, cli[0]);
    assert HasAttr(cli, yaml[0].0);
    assert !HasAttr(cli, yaml[1].0);
    MergeUnknownCheck(yaml, cli, false);
    MergeOk(yaml, cli, true);
    var r := Merge(yaml, cli, true).value;
    assert r[0] == ("learning_rate", VFloat("0.01"));
    assert r == [("learning_rate", VFloat("0.01"))];
  }

  /** Every attribute of the loaded YAML overrides its CLI counterpart. */
  lemma LoadedYamlOverridesAll(yaml: Namespace, cli: Namespace)
    requires yaml == [("learning_rate", VFloat("0.01")), ("batch_size", VInt(64)), ("num_epochs", VInt(100))]
    requires cli == [("learning_rate", VFloat("0.001")), ("batch_size", VInt(32)), ("num_epochs", VInt(10))]
    ensures Merge(yaml, cli, true) == Ok(yaml)
  {
    assert Distinct(yaml);
    GetAttrAt(yaml, 0);
    GetAttrAt(yaml, 1);
    GetAttrAt(yaml, 2);
    MergeOk(yaml, cli, true);
    var r := Merge(yaml, cli, true).value;
    assert r[0] == yaml[0] && r[1] == yaml[1] && r[2] == yaml[2];
    assert r == yaml;
  }

  /** With `TEST_VAR` set to `/test/path`, `${TEST_VAR}/data` becomes
      `/test/path/data` and `${TEST_VAR}/checkpoints` becomes
      `/test/path/checkpoints`. */
  lemma EnvironmentVariableSubstituted(name: string, value: string, tail: string, env: Env)
    requires name == "TEST_VAR" && value == "/test/path" && env == map[name := value]
    requires tail == "/data" || tail == "/checkpoints"
    ensures Resolve(Placeholder(name) + tail, env) == Ok(value + tail)
  {
    assert Plain(name);
    assert forall k :: 0 <= k < |tail| ==> tail[k] != '$';
    ResolveLeadingPlaceholder(name, tail, env);
  }

  /** The resolved strings override the CLI defaults. */
  lemma ResolvedPathsOverrideDefaults()
    ensures Merge([("data_path", VStr("/test/path/data")), ("checkpoint_path", VStr("/test/path/checkpoints"))],
                  [("data_path", VStr("/default/data")), ("checkpoint_path", VStr("/default/checkpoints"))],
                  true)
         == Ok([("data_path", VStr("/test/path/data")), ("checkpoint_path", VStr("/test/path/checkpoints"))])
  {
    var yaml := [("data_path", VStr("/test/path/data")), ("checkpoint_path", VStr("/test/path/checkpoints"))];
    var cli := [("data_path", VStr("/default/data")), ("checkpoint_path", VStr("/default/checkpoints"))];
    GetAttrAt(yaml, 0);
    GetAttrAt(yaml, 1);
    MergeOk(yaml, cli, true);
    var r := Merge(yaml, cli, true).value;
    assert r[0] == yaml[0] && r[1] == yaml[1];
    assert r == yaml;
    assert Merge(yaml, cli, true) == Ok(r);
  }

  /** A variable that is not set stops the substitution and is named. */
  lemma UnsetVariableReported(name: string, tail: string, env: Env)
    requires name == "TEST_VAR" && tail == "/data" && name !in env
    ensures Resolve(Placeholder(name) + tail, env) == Err(MissingEnvironmentVariable("TEST_VAR"))
  {
    assert Plain(name);
    assert forall k :: 0 <= k < |tail| ==> tail[k] != '$';
    FindAllLeadingPlaceholder(name, tail);
  }

  /** Nested namespaces from the YAML replace the CLI ones whole. */
  lemma NestedNamespacesReplaced()
    ensures Merge([("optimizer", VNs([("type", VStr("adam")), ("lr", VFloat("0.001"))])),
                   ("model", VNs([("layers", VInt(12)), ("hidden_size", VInt(768))]))],
                  [("optimizer", VNs([("type", VStr("sgd")), ("lr", VFloat("0.01"))])),
                   ("model", VNs([("layers", VInt(6)), ("hidden_size", VInt(512))]))],
                  true)
         == Ok([("optimizer", VNs([("type", VStr("adam")), ("lr", VFloat("0.001"))])),
                ("model", VNs([("layers", VInt(12)), ("hidden_size", VInt(768))]))])
  {
    var optimizer := VNs([("type", VStr("adam")), ("lr", VFloat("0.001"))]);
    var model := VNs([("layers", VInt(12)), ("hidden_size", VInt(768))]);
    var yaml := [("optimizer", optimizer), ("model", model)];
    var cli := [("optimizer", VNs([("type", VStr("sgd")), ("lr", VFloat("0.01"))])),
                ("model", VNs([("layers", VInt(6)), ("hidden_size", VInt(512))]))];
    GetAttrAt(yaml, 0);
    GetAttrAt(yaml, 1);
    MergeOk(yaml, cli, true);
    var r := Merge(yaml, cli, true).value;
    assert r[0] == yaml[0] && r[1] == yaml[1];
    assert r == yaml;
    assert Merge(yaml, cli, true) == Ok(r);
  }

  /** `${}` is a match with an empty group, so the substitution asks for the
      variable with the empty name. */
  lemma EmptyPlaceholderNamesEmptyVariable(name: string, tail: string, env: Env)
    requires name == "" && tail == "" && name !in env
    ensures FindAll(Placeholder(name) + tail) == [""]
    ensures Resolve(Placeholder(name) + tail, env) == Err(MissingEnvironmentVariable(""))
  {
    FindAllLeadingPlaceholder(name, tail);
  }
}
