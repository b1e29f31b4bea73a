/**
 * Input-mapping resolution: before a step runs, the engine copies the step's configuration and
 * overwrites each mapped key whose mapping is a reference "<step id>:<dot path>" to an earlier
 * step that produced a truthy output, with the value found by walking that output along the
 * dot path. Any other mapping entry (a literal, or a reference whose step has no truthy output)
 * leaves the copied configuration as it was.
 */
module InputMapping {
  import opened Wrappers
  import opened Text
  import opened Values
  import opened Models

  /** The outputs of the steps completed so far, keyed by step id (`stepOutputs`). */
  type Outputs = map<int, Value>

  /**
   * The dot-path walk: one segment at a time, descend while the current value is a truthy
   * object that has the segment; the first segment that cannot be followed gives `undefined`.
   */
  function Walk(v: Value, parts: seq<string>): Value
    decreases |parts|
  {
    if parts == [] then v
    else
      match Child(v, parts[0])
      case None => Undef
      case Some(c) => Walk(c, parts[1..])
  }

  /** The walk loop of the resolver, with its early `break`. */
  method WalkPath(start: Value, pathParts: seq<string>) returns (value: Value)
    ensures value == Walk(start, pathParts)
  {
    value := start;
    var i := 0;
    while i < |pathParts|
      invariant 0 <= i <= |pathParts|
      invariant Walk(start, pathParts) == Walk(value, pathParts[i..])
      decreases |pathParts| - i
    {
      var part := pathParts[i];
      var child := Child(value, part);
      if child.None? {
        value := Undef;
        return;
      }
      assert pathParts[i..][1..] == pathParts[i + 1..];
      value := child.value;
      i := i + 1;
    }
  }

  /** Walking from `undefined` gives `undefined`, whatever the path. */
  lemma WalkUndef(parts: seq<string>)
    ensures Walk(Undef, parts) == Undef
  {
  }

  /** A walk along a concatenated path is the walk along the second half from where the first ends. */
  lemma {:induction false} WalkAppend(v: Value, a: seq<string>, b: seq<string>)
    ensures Walk(v, a + b) == Walk(Walk(v, a), b)
    decreases |a|
  {
    if a == [] {
      assert a + b == b;
    } else {
      assert (a + b)[0] == a[0] && (a + b)[1..] == a[1..] + b;
      match Child(v, a[0])
      case None =>
        WalkUndef(b);
      case Some(c) =>
        WalkAppend(c, a[1..], b);
    }
  }

  /** A walk that cannot follow its segment at position `j` ends in `undefined`. */
  lemma BrokenWalk(v: Value, parts: seq<string>, j: nat)
    requires j < |parts| && Child(Walk(v, parts[..j]), parts[j]).None?
    ensures Walk(v, parts) == Undef
  {
    assert parts == parts[..j] + parts[j..];
    WalkAppend(v, parts[..j], parts[j..]);
    assert parts[j..][0] == parts[j];
  }

  /** `typeof mappingValue === "string" && mappingValue.includes(":")`. */
  predicate IsReference(mappingValue: Value)
  {
    mappingValue.Str? && ':' in mappingValue.s
  }

  /** `refStepId`: the text before the first colon. */
  function RefStepId(ref: string): string
  {
    Split(ref, ':')[0]
  }

  /** `outputPath`: the text between the first and the second colon (the rest is dropped). */
  function OutputPath(ref: string): string
    requires ':' in ref
  {
    SplitAtLeastTwo(ref, ':');
    Split(ref, ':')[1]
  }

  /** `stepOutputs[parseInt(refStepId, 10)]`, when that is truthy. */
  function ReferencedOutput(ref: string, outputs: Outputs): Option<Value>
  {
    match ParseInt(RefStepId(ref))
    case None => None
    case Some(id) => if id in outputs && Truthy(outputs[id]) then Some(outputs[id]) else None
  }

  /** The mapped keys whose reference finds an output: exactly the keys the resolver assigns. */
  function AssignedKeys(mapping: map<string, Value>, outputs: Outputs): set<string>
  {
    set k | k in mapping && IsReference(mapping[k]) && ReferencedOutput(mapping[k].s, outputs).Some?
  }

  /** The value an assigned key receives. */
  function Resolved(mapping: map<string, Value>, outputs: Outputs, k: string): Value
    requires k in AssignedKeys(mapping, outputs)
  {
    Walk(ReferencedOutput(mapping[k].s, outputs).value, Split(OutputPath(mapping[k].s), '.'))
  }

  /** Every assigned key with the value it receives. */
  function Assignments(mapping: map<string, Value>, outputs: Outputs): (a: map<string, Value>)
    ensures a.Keys == AssignedKeys(mapping, outputs)
  {
    map k | k in AssignedKeys(mapping, outputs) :: Resolved(mapping, outputs, k)
  }

  /** `base` with the keys in `keys` overwritten by their values in `values`. */
  function Overlay(base: map<string, Value>, values: map<string, Value>, keys: set<string>): map<string, Value>
    requires keys <= values.Keys
  {
    map k | k in base.Keys + keys :: if k in keys then values[k] else base[k]
  }

  /** The configuration a step is executed with. */
  function ResolveConfig(config: Value, inputMapping: Option<map<string, Value>>, outputs: Outputs): map<string, Value>
  {
    match inputMapping
    case None => Spread(config)
    case Some(mapping) => Overlay(Spread(config), Assignments(mapping, outputs), AssignedKeys(mapping, outputs))
  }

  /** Overwriting one more key is one more map update. */
  lemma OverlayInsert(base: map<string, Value>, values: map<string, Value>, keys: set<string>, k: string)
    requires keys <= values.Keys && k in values
    ensures Overlay(base, values, keys + {k}) == Overlay(base, values, keys)[k := values[k]]
  {
  }

  /**
   * One mapping entry: a reference "<step id>:<path>" to a step with a truthy output gives the
   * value found along the path; anything else gives nothing.
   */
  method ResolveReference(mappingValue: Value, stepOutputs: Outputs) returns (found: Option<Value>)
    ensures found.Some? <==> IsReference(mappingValue) && ReferencedOutput(mappingValue.s, stepOutputs).Some?
    ensures found.Some? ==>
              found.value == Walk(ReferencedOutput(mappingValue.s, stepOutputs).value, Split(OutputPath(mappingValue.s), '.'))
  {
    found := None;
    if mappingValue.Str? && ':' in mappingValue.s {
      SplitAtLeastTwo(mappingValue.s, ':');
      var pieces := Split(mappingValue.s, ':');
      var refStepId, outputPath := pieces[0], pieces[1];
      var stepId := ParseInt(refStepId);
      if stepId.Some? && stepId.value in stepOutputs && Truthy(stepOutputs[stepId.value]) {
        var value := WalkPath(stepOutputs[stepId.value], Split(outputPath, '.'));
        found := Some(value);
      }
    }
  }

  /**
   * The resolver of the step executor: spread the configuration, then visit the mapping's
   * entries one by one and assign every reference that finds an output.
   */
  method ResolveInputs(step: Step, stepOutputs: Outputs) returns (stepConfig: map<string, Value>)
    ensures stepConfig == ResolveConfig(step.config, step.inputMapping, stepOutputs)
  {
    stepConfig := Spread(step.config);
    if step.inputMapping.Some? {
      var mapping := step.inputMapping.value;
      ghost var assignments := Assignments(mapping, stepOutputs);
      var pending := mapping.Keys;
      ghost var visited: set<string> := {};
      while pending != {}
        invariant pending <= mapping.Keys && visited == mapping.Keys - pending
        invariant stepConfig == Overlay(Spread(step.config), assignments, visited * assignments.Keys)
        decreases pending
      {
        var inputKey :| inputKey in pending;
        ghost var assignedBefore := visited * assignments.Keys;
        var found := ResolveReference(mapping[inputKey], stepOutputs);
        if found.Some? {
          assert inputKey in assignments && assignments[inputKey] == found.value;
          OverlayInsert(Spread(step.config), assignments, assignedBefore, inputKey);
          stepConfig := stepConfig[inputKey := found.value];
          assert (visited + {inputKey}) * assignments.Keys == assignedBefore + {inputKey};
        } else {
          assert (visited + {inputKey}) * assignments.Keys == assignedBefore;
        }
        pending := pending - {inputKey};
        visited := visited + {inputKey};
      }
      assert visited * assignments.Keys == assignments.Keys;
    }
  }

  /** The resolved configuration has the copied keys plus the assigned ones, and no others. */
  lemma ResolvedKeys(config: Value, mapping: map<string, Value>, outputs: Outputs)
    ensures ResolveConfig(config, Some(mapping), outputs).Keys == Spread(config).Keys + AssignedKeys(mapping, outputs)
  {
  }

  /** A key that is not assigned keeps the copied configuration's entry, or stays absent. */
  lemma UnassignedKeyKept(config: Value, mapping: map<string, Value>, outputs: Outputs, k: string)
    requires k !in AssignedKeys(mapping, outputs)
    ensures k in ResolveConfig(config, Some(mapping), outputs) <==> k in Spread(config)
    ensures k in Spread(config) ==> ResolveConfig(config, Some(mapping), outputs)[k] == Spread(config)[k]
  {
  }

  /** A mapping made only of literals changes nothing: the step runs with a copy of its configuration. */
  lemma LiteralsChangeNothing(config: Value, mapping: map<string, Value>, outputs: Outputs)
    requires forall k :: k in mapping ==> !IsReference(mapping[k])
    ensures ResolveConfig(config, Some(mapping), outputs) == Spread(config)
  {
    assert AssignedKeys(mapping, outputs) == {};
  }

  /** A reference to a step with no truthy output (or an id that does not parse) leaves its key as it was. */
  lemma MissingReferenceKept(config: Value, mapping: map<string, Value>, outputs: Outputs, k: string)
    requires k in mapping && IsReference(mapping[k])
    requires ParseInt(RefStepId(mapping[k].s)).None?
          || ParseInt(RefStepId(mapping[k].s)).value !in outputs
          || !Truthy(outputs[ParseInt(RefStepId(mapping[k].s)).value])
    ensures k in ResolveConfig(config, Some(mapping), outputs) <==> k in Spread(config)
    ensures k in Spread(config) ==> ResolveConfig(config, Some(mapping), outputs)[k] == Spread(config)[k]
  {
    UnassignedKeyKept(config, mapping, outputs, k);
  }

  /** Parsing the reference "<id>:<path>" for a path without colons gives back the id and the path. */
  lemma {:induction false} ReferenceParts(id: int, path: string)
    requires NoChar(path, ':')
    ensures ':' in IntToString(id) + ":" + path
    ensures ParseInt(RefStepId(IntToString(id) + ":" + path)) == Some(id)
    ensures OutputPath(IntToString(id) + ":" + path) == path
  {
    var idText := IntToString(id);
    var ref := idText + ":" + path;
    assert ref[|idText|] == ':';
    assert NoChar(idText, ':') by {
      if id < 0 {
        assert idText == "-" + NatToString(-id);
        assert forall i :: 1 <= i < |idText| ==> idText[i] == NatToString(-id)[i - 1];
      }
    }
    assert Join([idText, path], ':') == ref by {
      assert Join([idText, path], ':') == idText + [':'] + Join([path], ':');
    }
    SplitJoin([idText, path], ':');
    ParseIntOfIntToString(id);
  }

  /** A reference to step `id` with a truthy output sets its key to the walk along the dot path. */
  lemma {:induction false} ReferenceResolves(config: Value, mapping: map<string, Value>, k: string, id: int, path: string, outputs: Outputs)
    requires k in mapping && mapping[k] == Str(IntToString(id) + ":" + path)
    requires NoChar(path, ':') && id in outputs && Truthy(outputs[id])
    ensures k in ResolveConfig(config, Some(mapping), outputs)
    ensures ResolveConfig(config, Some(mapping), outputs)[k] == Walk(outputs[id], Split(path, '.'))
  {
    ReferenceParts(id, path);
    assert k in AssignedKeys(mapping, outputs);
  }

  /** A found reference whose path breaks at some segment sets its key to `undefined`. */
  lemma {:induction false} BrokenPathGivesUndefined(config: Value, mapping: map<string, Value>, k: string, id: int, path: string, outputs: Outputs, j: nat)
    requires k in mapping && mapping[k] == Str(IntToString(id) + ":" + path)
    requires NoChar(path, ':') && id in outputs && Truthy(outputs[id])
    requires j < |Split(path, '.')|
    requires Child(Walk(outputs[id], Split(path, '.')[..j]), Split(path, '.')[j]).None?
    ensures k in ResolveConfig(config, Some(mapping), outputs)
    ensures ResolveConfig(config, Some(mapping), outputs)[k] == Undef
  {
    ReferenceResolves(config, mapping, k, id, path, outputs);
    BrokenWalk(outputs[id], Split(path, '.'), j);
  }

  /** The documented example: "1:items.0.id" against an output `{ items: [{ id: 123 }] }` yields 123. */
  lemma {:induction false} ItemsExample(config: Value)
    ensures var resolved := ResolveConfig(
              config,
              Some(map["itemId" := Str("1:items.0.id")]),
              map[1 := Obj(map["items" := List([Obj(map["id" := Num(123.0)])])])]);
            "itemId" in resolved && resolved["itemId"] == Num(123.0)
  {
    var out := Obj(map["items" := List([Obj(map["id" := Num(123.0)])])]);
    var outputs: Outputs := map[1 := out];
    assert IntToString(1) + ":" + "items.0.id" == "1:items.0.id" by {
      assert NatToString(1) == "1";
    }
    ReferenceResolves(config, map["itemId" := Str("1:items.0.id")], "itemId", 1, "items.0.id", outputs);
    ItemsPath();
    ItemsWalk(out);
  }

  lemma ItemsPath()
    ensures Split("items.0.id", '.') == ["items", "0", "id"]
  {
    assert "items.0.id" == Join(["items", "0", "id"], '.');
    SplitJoin(["items", "0", "id"], '.');
  }

  lemma ItemsWalk(out: Value)
    requires out == Obj(map["items" := List([Obj(map["id" := Num(123.0)])])])
    ensures Walk(out, ["items", "0", "id"]) == Num(123.0)
  {
    var item := Obj(map["id" := Num(123.0)]);
    assert ArrayIndex("0") == Some(0) by {
      assert NatToString(0) == "0";
      ArrayIndexOfNatToString(0);
    }
    assert Child(out, "items") == Some(List([item]));
    assert Child(List([item]), "0") == Some(item);
    assert Child(item, "id") == Some(Num(123.0));
    assert ["items", "0", "id"][1..] == ["0", "id"];
    assert ["0", "id"][1..] == ["id"];
    assert ["id"][1..] == [];
  }

  /**
   * The resolver against an integration result as the tests' HTTP step produces it: the
   * reference "1:data" under the key `data` picks the `data` member out of `{ success, data, error }`.
   */
  lemma {:induction false} DataMemberExample(config: Value, data: Value)
    ensures var resolved := ResolveConfig(
              config,
              Some(map["data" := Str("1:data")]),
              map[1 := Obj(map["success" := Bool(true), "data" := data, "error" := Undef])]);
            "data" in resolved && resolved["data"] == data
  {
    var out := Obj(map["success" := Bool(true), "data" := data, "error" := Undef]);
    DataReference();
    DataWalk(out, data);
    ReferenceResolves(config, map["data" := Str("1:data")], "data", 1, "data", map[1 := out]);
  }

  lemma DataReference()
    ensures IntToString(1) + ":" + "data" == "1:data"
    ensures NoChar("data", ':') && Split("data", '.') == ["data"]
  {
    assert NatToString(1) == "1";
    assert "data" == Join(["data"], '.');
    SplitJoin(["data"], '.');
  }

  lemma DataWalk(out: Value, data: Value)
    requires out == Obj(map["success" := Bool(true), "data" := data, "error" := Undef])
    ensures Truthy(out) && Walk(out, ["data"]) == data
  {
    assert Child(out, "data") == Some(data);
    assert ["data"][1..] == [];
  }
}
