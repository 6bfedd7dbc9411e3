/** megatron/training/yaml_arguments.py: the merge of a YAML configuration
    into the command-line arguments (`merge_yaml_and_cli_args`) and the
    `${NAME}` environment substitution applied to YAML scalars
    (`env_constructor`). Each is a method with the source's loop, proved equal
    to a specification function; the lemmas below state what those functions
    promise. */
module YamlArguments {
  import opened Wrappers
  import opened PyValues
  import opened PyStrings
  import opened EnvPattern

  /** The assertions the two functions can fail. */
  datatype Error =
    | InvalidType(key: string, expected: PyType, got: PyType)
    | UnknownArgument(key: string)
    | MissingEnvironmentVariable(name: string)

  /** The assertion message each failure carries. */
  function Message(e: Error): string
  {
    match e
    case InvalidType(key, expected, got) =>
      "Invalid type for '" + key + "' in YAML. Expected '" + TypeName(expected)
        + "', got '" + TypeName(got) + "'."
    case UnknownArgument(key) => "Unknown argument '" + key + "' in YAML config."
    case MissingEnvironmentVariable(name) => "environment variable " + name + " in yaml not found"
  }

  /** The messages start with the words the unit tests match on. */
  lemma MessagesNameTheFailure(key: string, expected: PyType, got: PyType)
    ensures "Invalid type for '" + key + "'" <= Message(InvalidType(key, expected, got))
    ensures "Unknown argument '" + key + "'" <= Message(UnknownArgument(key))
  {
  }

  // ----- merge_yaml_and_cli_args -------------------------------------------

  /** The YAML value for a CLI attribute fails the type gate: it is set (not
      None) and not an instance of the CLI value's type. */
  predicate Mismatch(yaml: Namespace, entry: (string, Value))
  {
    GetAttr(yaml, entry.0) != VNone && !IsInstance(GetAttr(yaml, entry.0), TypeOf(entry.1))
  }

  /** The failure the type gate reports for a CLI attribute. */
  function InvalidTypeFor(yaml: Namespace, entry: (string, Value)): Error
  {
    InvalidType(entry.0, TypeOf(entry.1), TypeOf(GetAttr(yaml, entry.0)))
  }

  /** The attribute the merge stores for one CLI attribute: the YAML value
      when it is set, the CLI value otherwise. */
  function MergedEntry(yaml: Namespace, entry: (string, Value)): (string, Value)
  {
    var yamlValue := GetAttr(yaml, entry.0);
    if yamlValue != VNone then (entry.0, yamlValue) else entry
  }

  /** The type-gate failure met first when walking the CLI attributes in order. */
  function FirstTypeError(yaml: Namespace, cli: Namespace): Option<Error>
    decreases |cli|
  {
    if cli == [] then None
    else if Mismatch(yaml, cli[0]) then Some(InvalidTypeFor(yaml, cli[0]))
    else FirstTypeError(yaml, cli[1..])
  }

  /** The first YAML attribute, in YAML order, that the CLI namespace lacks. */
  function FirstUnknown(yaml: Namespace, cli: Namespace): Option<Error>
    decreases |yaml|
  {
    if yaml == [] then None
    else if !HasAttr(cli, yaml[0].0) then Some(UnknownArgument(yaml[0].0))
    else FirstUnknown(yaml[1..], cli)
  }

  /** The namespace the first loop builds from the CLI attributes. */
  function MergedArgs(yaml: Namespace, cli: Namespace): Namespace
    decreases |cli|
  {
    if cli == [] then []
    else MergedArgs(yaml, cli[..|cli| - 1]) + [MergedEntry(yaml, cli[|cli| - 1])]
  }

  /** The outcome of `merge_yaml_and_cli_args(yaml, cli, ignoreUnknown)`: the
      first type-gate failure, else (when unknown arguments are checked) the
      first unknown YAML attribute, else the merged namespace. */
  function Merge(yaml: Namespace, cli: Namespace, ignoreUnknown: bool): Result<Namespace, Error>
  {
    match FirstTypeError(yaml, cli)
    case Some(e) => Err(e)
    case None =>
      if ignoreUnknown then Ok(MergedArgs(yaml, cli))
      else
        match FirstUnknown(yaml, cli)
        case Some(e) => Err(e)
        case None => Ok(MergedArgs(yaml, cli))
  }

  /** `merge_yaml_and_cli_args`: a fresh namespace filled by `setattr` while
      walking `vars(cli_args)`, then a walk over `vars(yaml_args)` checking
      each attribute is known. */
  method MergeYamlAndCliArgs(yamlArgs: Namespace, cliArgs: Namespace, ignoreUnknownArgs: bool)
    returns (r: Result<Namespace, Error>)
    requires Distinct(cliArgs)
    ensures r == Merge(yamlArgs, cliArgs, ignoreUnknownArgs)
  {
    var args: Namespace := [];
    for i := 0 to |cliArgs|
      invariant args == MergedArgs(yamlArgs, cliArgs[..i])
      invariant FirstTypeError(yamlArgs, cliArgs[i..]) == FirstTypeError(yamlArgs, cliArgs)
    {
      var key, cliValue := cliArgs[i].0, cliArgs[i].1;
      var yamlValue := GetAttr(yamlArgs, key);
      var expectedType := TypeOf(cliValue);
      MergedArgsAt(yamlArgs, cliArgs[..i]);
      assert !HasAttr(args, key);
      assert cliArgs[..i + 1][..i] == cliArgs[..i];
      assert cliArgs[i..][1..] == cliArgs[i + 1..];
      if yamlValue != VNone {
        if !IsInstance(yamlValue, expectedType) {
          return Err(InvalidType(key, expectedType, TypeOf(yamlValue)));
        }
        args := SetAttr(args, key, yamlValue);
      } else {
        args := SetAttr(args, key, cliValue);
      }
    }
    assert cliArgs[..|cliArgs|] == cliArgs;
    if !ignoreUnknownArgs {
      for j := 0 to |yamlArgs|
        invariant FirstUnknown(yamlArgs[j..], cliArgs) == FirstUnknown(yamlArgs, cliArgs)
      {
        assert yamlArgs[j..][1..] == yamlArgs[j + 1..];
        if !HasAttr(cliArgs, yamlArgs[j].0) {
          return Err(UnknownArgument(yamlArgs[j].0));
        }
      }
    }
    return Ok(args);
  }

  /** The merged namespace holds, position by position, the merged entry of
      each CLI attribute. */
  lemma {:induction false} MergedArgsAt(yaml: Namespace, cli: Namespace)
    ensures |MergedArgs(yaml, cli)| == |cli|
    ensures forall i :: 0 <= i < |cli| ==> MergedArgs(yaml, cli)[i] == MergedEntry(yaml, cli[i])
    decreases |cli|
  {
    if cli != [] {
      MergedArgsAt(yaml, cli[..|cli| - 1]);
    }
  }

  /** The type gate fails exactly when some CLI attribute has a mismatching
      YAML value, and it reports the first such attribute. */
  lemma {:induction false} FirstTypeErrorIsFirstMismatch(yaml: Namespace, cli: Namespace)
    ensures FirstTypeError(yaml, cli) == None <==> forall i :: 0 <= i < |cli| ==> !Mismatch(yaml, cli[i])
    ensures forall i :: (0 <= i < |cli| && Mismatch(yaml, cli[i]) && (forall j :: 0 <= j < i ==> !Mismatch(yaml, cli[j]))
      ==> FirstTypeError(yaml, cli) == Some(InvalidTypeFor(yaml, cli[i])))
    decreases |cli|
  {
    if cli != [] {
      FirstTypeErrorIsFirstMismatch(yaml, cli[1..]);
      assert forall i :: 1 <= i < |cli| ==> cli[i] == cli[1..][i - 1];
    }
  }

  /** The unknown-key walk fails exactly when some YAML attribute is not a CLI
      attribute, and it reports the first such attribute. */
  lemma {:induction false} FirstUnknownIsFirstMissing(yaml: Namespace, cli: Namespace)
    ensures FirstUnknown(yaml, cli) == None <==> forall j :: 0 <= j < |yaml| ==> HasAttr(cli, yaml[j].0)
    ensures forall j :: (0 <= j < |yaml| && !HasAttr(cli, yaml[j].0) && (forall k :: 0 <= k < j ==> HasAttr(cli, yaml[k].0))
      ==> FirstUnknown(yaml, cli) == Some(UnknownArgument(yaml[j].0)))
    decreases |yaml|
  {
    if yaml != [] {
      FirstUnknownIsFirstMissing(yaml[1..], cli);
      assert forall j :: 1 <= j < |yaml| ==> yaml[j] == yaml[1..][j - 1];
    }
  }

  /** Type gate: the merge fails with "Invalid type" exactly when some CLI
      attribute has a set YAML value that is not an instance of the CLI
      value's type (`Mismatch`), and then it names the
      first such attribute in CLI order, whatever the unknown-key setting and
      whatever unknown keys the YAML holds. */
  lemma MergeTypeGate(yaml: Namespace, cli: Namespace, ignoreUnknown: bool)
    ensures (Merge(yaml, cli, ignoreUnknown).Err? && Merge(yaml, cli, ignoreUnknown).error.InvalidType?)
      <==> exists i :: 0 <= i < |cli| && Mismatch(yaml, cli[i])
    ensures forall i :: (0 <= i < |cli| && Mismatch(yaml, cli[i]) && (forall j :: 0 <= j < i ==> !Mismatch(yaml, cli[j]))
      ==> Merge(yaml, cli, ignoreUnknown) == Err(InvalidTypeFor(yaml, cli[i])))
  {
    FirstTypeErrorIsFirstMismatch(yaml, cli);
    FirstTypeErrorKind(yaml, cli);
    FirstUnknownKind(yaml, cli);
  }

  /** Every failure of the type gate is an "Invalid type" failure. */
  lemma {:induction false} FirstTypeErrorKind(yaml: Namespace, cli: Namespace)
    ensures FirstTypeError(yaml, cli).Some? ==> FirstTypeError(yaml, cli).value.InvalidType?
    decreases |cli|
  {
    if cli != [] {
      FirstTypeErrorKind(yaml, cli[1..]);
    }
  }

  /** Every failure of the unknown-key walk is an "Unknown argument" failure. */
  lemma {:induction false} FirstUnknownKind(yaml: Namespace, cli: Namespace)
    ensures FirstUnknown(yaml, cli).Some? ==> FirstUnknown(yaml, cli).value.UnknownArgument?
    decreases |yaml|
  {
    if yaml != [] {
      FirstUnknownKind(yaml[1..], cli);
    }
  }

  /** Unknown-key check: with `ignore_unknown_args` it never fails; without
      it, once the type gate passes, the merge fails with "Unknown argument"
      exactly when some YAML attribute is not a CLI attribute, naming the
      first one in YAML order. */
  lemma MergeUnknownCheck(yaml: Namespace, cli: Namespace, ignoreUnknown: bool)
    ensures ignoreUnknown ==> !(Merge(yaml, cli, ignoreUnknown).Err? && Merge(yaml, cli, ignoreUnknown).error.UnknownArgument?)
    ensures !ignoreUnknown && (forall i :: 0 <= i < |cli| ==> !Mismatch(yaml, cli[i])) ==>
      ((Merge(yaml, cli, ignoreUnknown).Err? && Merge(yaml, cli, ignoreUnknown).error.UnknownArgument?)
        <==> exists j :: 0 <= j < |yaml| && !HasAttr(cli, yaml[j].0))
    ensures !ignoreUnknown && (forall i :: 0 <= i < |cli| ==> !Mismatch(yaml, cli[i])) ==>
      forall j :: 0 <= j < |yaml| && !HasAttr(cli, yaml[j].0) && (forall k :: 0 <= k < j ==> HasAttr(cli, yaml[k].0))
        ==> Merge(yaml, cli, ignoreUnknown) == Err(UnknownArgument(yaml[j].0))
  {
    FirstTypeErrorIsFirstMismatch(yaml, cli);
    FirstTypeErrorKind(yaml, cli);
    FirstUnknownIsFirstMissing(yaml, cli);
    FirstUnknownKind(yaml, cli);
  }

  /** The merge succeeds exactly when the type gate passes for every CLI
      attribute and, unless unknown arguments are ignored, every YAML
      attribute is a CLI attribute. Otherwise it returns only the error. */
  lemma MergeSucceedsIff(yaml: Namespace, cli: Namespace, ignoreUnknown: bool)
    ensures Merge(yaml, cli, ignoreUnknown).Ok? <==>
      && (forall i :: 0 <= i < |cli| ==> !Mismatch(yaml, cli[i]))
      && (ignoreUnknown || forall j :: 0 <= j < |yaml| ==> HasAttr(cli, yaml[j].0))
  {
    FirstTypeErrorIsFirstMismatch(yaml, cli);
    FirstUnknownIsFirstMissing(yaml, cli);
  }

  /** Keys and precedence: a successful merge has exactly the CLI attributes,
      in CLI order, and never a YAML-only one; each holds the YAML value when
      that is set and not None, the CLI value otherwise (absent and None are
      the same). */
  lemma MergeResult(yaml: Namespace, cli: Namespace, ignoreUnknown: bool)
    requires Distinct(cli)
    requires Merge(yaml, cli, ignoreUnknown).Ok?
    ensures var r := Merge(yaml, cli, ignoreUnknown).value;
      && Keys(r) == Keys(cli)
      && Distinct(r)
      && (forall k :: HasAttr(r, k) <==> HasAttr(cli, k))
      && (forall i :: 0 <= i < |cli| ==>
            r[i].1 == if GetAttr(yaml, cli[i].0) != VNone then GetAttr(yaml, cli[i].0) else cli[i].1)
      && (forall k :: HasAttr(cli, k) ==>
            GetAttr(r, k) == if GetAttr(yaml, k) != VNone then GetAttr(yaml, k) else GetAttr(cli, k))
  {
    assert Merge(yaml, cli, ignoreUnknown).value == MergedArgs(yaml, cli);
    MergedArgsShape(yaml, cli);
    MergedArgsGetAttr(yaml, cli);
  }

  /** The merged namespace has the CLI attribute names, in CLI order. */
  lemma MergedArgsShape(yaml: Namespace, cli: Namespace)
    requires Distinct(cli)
    ensures var r := MergedArgs(yaml, cli);
      && Keys(r) == Keys(cli)
      && Distinct(r)
      && (forall k :: HasAttr(r, k) <==> HasAttr(cli, k))
      && (forall i :: 0 <= i < |cli| ==>
            r[i].1 == if GetAttr(yaml, cli[i].0) != VNone then GetAttr(yaml, cli[i].0) else cli[i].1)
  {
    var r := MergedArgs(yaml, cli);
    MergedArgsAt(yaml, cli);
    assert forall i :: 0 <= i < |cli| ==> r[i].0 == cli[i].0;
    assert Keys(r) == Keys(cli);
  }

  /** Reading an attribute of the merged namespace gives the winning value. */
  lemma MergedArgsGetAttr(yaml: Namespace, cli: Namespace)
    requires Distinct(cli)
    ensures forall k :: HasAttr(cli, k) ==>
      GetAttr(MergedArgs(yaml, cli), k) == if GetAttr(yaml, k) != VNone then GetAttr(yaml, k) else GetAttr(cli, k)
  {
    var r := MergedArgs(yaml, cli);
    MergedArgsShape(yaml, cli);
    MergedArgsAt(yaml, cli);
    forall k | HasAttr(cli, k)
      ensures GetAttr(r, k) == if GetAttr(yaml, k) != VNone then GetAttr(yaml, k) else GetAttr(cli, k)
    {
      var i :| 0 <= i < |cli| && cli[i].0 == k;
      GetAttrAt(cli, i);
      GetAttrAt(r, i);
    }
  }

  /** When the type gate passes and no unknown argument stops it, the merge
      returns, position by position, each CLI attribute with its winning value. */
  lemma MergeOk(yaml: Namespace, cli: Namespace, ignoreUnknown: bool)
    requires forall i :: 0 <= i < |cli| ==> !Mismatch(yaml, cli[i])
    requires ignoreUnknown || forall j :: 0 <= j < |yaml| ==> HasAttr(cli, yaml[j].0)
    ensures Merge(yaml, cli, ignoreUnknown).Ok?
    ensures var r := Merge(yaml, cli, ignoreUnknown).value;
      |r| == |cli| && forall i :: 0 <= i < |cli| ==> r[i] == MergedEntry(yaml, cli[i])
  {
    MergeSucceedsIff(yaml, cli, ignoreUnknown);
    MergedArgsAt(yaml, cli);
  }

  /** A nested namespace from the YAML replaces the CLI one whole: the gate
      accepts any namespace for a namespace, and the result holds the YAML
      namespace itself, with no field-by-field merge. */
  lemma NestedNamespaceReplacedWhole(yaml: Namespace, cli: Namespace, ignoreUnknown: bool, i: nat)
    requires i < |cli|
    requires cli[i].1.VNs? && GetAttr(yaml, cli[i].0).VNs?
    ensures !Mismatch(yaml, cli[i])
    ensures var r := Merge(yaml, cli, ignoreUnknown);
      r.Ok? ==> |r.value| == |cli| && r.value[i] == (cli[i].0, GetAttr(yaml, cli[i].0))
  {
    var r := Merge(yaml, cli, ignoreUnknown);
    if r.Ok? {
      assert r.value == MergedArgs(yaml, cli);
      MergedArgsAt(yaml, cli);
    }
  }

  /** When the YAML sets none of the CLI attributes, the merge with unknown
      arguments ignored gives the CLI namespace back. */
  lemma MergeWithoutOverrides(yaml: Namespace, cli: Namespace)
    requires forall i :: 0 <= i < |cli| ==> GetAttr(yaml, cli[i].0) == VNone
    ensures Merge(yaml, cli, true) == Ok(cli)
  {
    MergeSucceedsIff(yaml, cli, true);
    MergedArgsAt(yaml, cli);
    assert MergedArgs(yaml, cli) == cli;
  }

  /** The type gate follows `isinstance`: a bool passes where an int is
      expected, an int does not pass where a float is expected, nothing but
      None passes where the CLI value is None, and any namespace passes for a
      namespace. */
  lemma TypeGateCases(b: bool, n: int, v: Value, f1: Namespace, f2: Namespace)
    ensures IsInstance(VBool(b), TypeOf(VInt(n)))
    ensures !IsInstance(VInt(n), Float)
    ensures !IsInstance(VBool(b), Float)
    ensures v != VNone ==> !IsInstance(v, TypeOf(VNone))
    ensures !IsInstance(VInt(n), Bool)
    ensures IsInstance(VNs(f1), TypeOf(VNs(f2)))
  {
  }

  // ----- env_constructor ---------------------------------------------------

  /** The process environment, read-only during one substitution. */
  type Env = map<string, string>

  /** The loop of `env_constructor` over the extracted groups, in order: stop
      at the first unset variable, otherwise replace every `${group}` in the
      current value with the variable's value. Later groups see the text that
      earlier replacements produced. */
  function Substitute(value: string, groups: seq<string>, env: Env): Result<string, Error>
    decreases |groups|
  {
    if groups == [] then Ok(value)
    else if groups[0] !in env then Err(MissingEnvironmentVariable(groups[0]))
    else Substitute(Replace(value, Placeholder(groups[0]), env[groups[0]]), groups[1..], env)
  }

  /** The outcome of `env_constructor` on a scalar string. */
  function Resolve(scalar: string, env: Env): Result<string, Error>
  {
    Substitute(scalar, FindAll(scalar), env)
  }

  /** `env_constructor`: the groups are extracted once from the original
      scalar; `value` is then rebound by one `str.replace` per group. */
  method EnvConstructor(scalar: string, env: Env) returns (r: Result<string, Error>)
    ensures r == Resolve(scalar, env)
  {
    var value := scalar;
    var groups := FindAll(value);
    for i := 0 to |groups|
      invariant Substitute(value, groups[i..], env) == Resolve(scalar, env)
    {
      var group := groups[i];
      assert groups[i..][1..] == groups[i + 1..];
      if group !in env {
        return Err(MissingEnvironmentVariable(group));
      }
      value := Replace(value, Placeholder(group), env[group]);
    }
    assert groups[|groups|..] == [];
    return Ok(value);
  }

  /** The substitution loop fails exactly when some group names an unset
      variable, and it names the first such group. */
  lemma {:induction false} SubstituteFailsIff(value: string, groups: seq<string>, env: Env)
    ensures (forall i :: 0 <= i < |groups| ==> groups[i] in env) <==> Substitute(value, groups, env).Ok?
    ensures forall i :: (0 <= i < |groups| && groups[i] !in env && (forall j :: 0 <= j < i ==> groups[j] in env)
      ==> Substitute(value, groups, env) == Err(MissingEnvironmentVariable(groups[i])))
    decreases |groups|
  {
    if groups != [] && groups[0] in env {
      SubstituteFailsIff(Replace(value, Placeholder(groups[0]), env[groups[0]]), groups[1..], env);
      assert forall i :: 1 <= i < |groups| ==> groups[i] == groups[1..][i - 1];
    }
  }

  /** Substitution fails with "environment variable ... not found" exactly
      when some group `findall` extracts is not set, and it names the first
      such group in `findall` order. */
  lemma ResolveFailsIff(scalar: string, env: Env)
    ensures Resolve(scalar, env).Err? <==> exists g :: g in FindAll(scalar) && g !in env
    ensures var groups := FindAll(scalar);
      forall i :: 0 <= i < |groups| && groups[i] !in env && (forall j :: 0 <= j < i ==> groups[j] in env)
        ==> Resolve(scalar, env) == Err(MissingEnvironmentVariable(groups[i]))
  {
    SubstituteFailsIff(scalar, FindAll(scalar), env);
  }

  /** A scalar holding no `${NAME}` (with a name free of `}` and line breaks)
      is returned unchanged, whatever the environment. */
  lemma ResolveWithoutPlaceholders(scalar: string, env: Env)
    requires forall name :: Plain(name) ==> !Contains(scalar, Placeholder(name))
    ensures Resolve(scalar, env) == Ok(scalar)
  {
    FindAllEmptyIff(scalar);
  }

  /** When every variable the loop looks up is set to its own placeholder
      (`NAME` set to the text `${NAME}`), each `str.replace` puts back what it
      found, and the value comes out unchanged. */
  lemma {:induction false} SubstituteSelfValued(value: string, groups: seq<string>, env: Env)
    requires forall i :: 0 <= i < |groups| ==> groups[i] in env && env[groups[i]] == Placeholder(groups[i])
    ensures Substitute(value, groups, env) == Ok(value)
    decreases |groups|
  {
    if groups != [] {
      ReplaceBySelf(value, Placeholder(groups[0]));
      assert forall i :: 0 <= i < |groups[1..]| ==> groups[1..][i] == groups[i + 1];
      SubstituteSelfValued(value, groups[1..], env);
    }
  }

  /** A scalar whose variables are all set to their own placeholders resolves
      to itself. */
  lemma ResolveSelfValued(scalar: string, env: Env)
    requires forall g :: g in FindAll(scalar) ==> g in env && env[g] == Placeholder(g)
    ensures Resolve(scalar, env) == Ok(scalar)
  {
    SubstituteSelfValued(scalar, FindAll(scalar), env);
  }

  /** A scalar that starts with one placeholder followed by literal text has
      the placeholder replaced by the variable's value and the text kept. */
  lemma ResolveLeadingPlaceholder(name: string, tail: string, env: Env)
    requires Plain(name) && name in env
    requires forall k :: 0 <= k < |tail| ==> tail[k] != '$'
    ensures Resolve(Placeholder(name) + tail, env) == Ok(env[name] + tail)
  {
    var s := Placeholder(name) + tail;
    var p := Placeholder(name);
    FindAllLeadingPlaceholder(name, tail);
    assert !Contains(tail, p) by {
      forall i | 0 <= i <= |tail| - |p| ensures !OccursAt(tail, p, i) {
        assert tail[i..i + |p|][0] == tail[i];
      }
    }
    ReplaceLeading(p, tail, env[name]);
    assert Resolve(s, env) == Substitute(s, [name], env);
    assert [name][1..] == [];
    assert Substitute(s, [name], env) == Substitute(env[name] + tail, [], env);
  }

  /** The replacements do not always leave the output free of placeholders,
      even when no environment value contains `${`: in `$${a}{a}` with `a`
      set to the empty string, the one group is `a`, and replacing `${a}`
      joins the surrounding `$` and `{a}` into a new `${a}`. */
  lemma PlaceholderCanSurvive()
    ensures FindAll("$${a}{a}") == ["a"]
    ensures Resolve("$${a}{a}", map["a" := ""]) == Ok("${a}")
    ensures Contains("${a}", Placeholder("a"))
  {
    var s := "$${a}{a}";
    assert !OpensAt(s, 0);
    assert CloseAt(s, 3) == Some(4);
    assert OpensAt(s, 1);
    assert forall q :: 5 <= q < |s| ==> !OpensAt(s, q);
    assert FindAllFrom(s, 5) == [];
    assert FindAllFrom(s, 0) == FindAllFrom(s, 1);
    assert s[3..4] == "a";
    assert FindAllFrom(s, 1) == [s[3..4]] + FindAllFrom(s, 5);
    var p := Placeholder("a");
    assert Replace("{a}", p, "") == "{a}";
    assert Replace(s[1..], p, "") == "{a}";
    assert Replace(s, p, "") == "${a}";
    assert OccursAt("${a}", p, 0);
  }
}
