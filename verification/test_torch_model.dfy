/** The two concrete models of the torch model tests and their unroll
    scenarios, stated over shapes, keys and the tensors handed to user
    code. Tensor contents are `arange` values; the arithmetic the models
    would perform on them is not modelled. */
module TestTorchModel {
  import opened Results
  import opened Tensors
  import opened Specs
  import opened BaseModel

  const B: nat := 6
  const T: nat := 8

  /** The number of elements of a tensor of the given shape. */
  function Size(shape: seq<nat>): nat {
    if |shape| == 0 then 1 else shape[0] * Size(shape[1..])
  }

  /** `torch.arange(Size(shape)).reshape(shape)`. */
  function Arange(shape: seq<nat>): Tensor {
    Tensor(shape, seq(Size(shape), i => i))
  }

  /** A spec dictionary declaring a single path. */
  function Declare(path: string, names: seq<string>, sizes: map<string, nat>): SpecDict {
    SpecDict([(path, MakeSpec(names, sizes))])
  }

  lemma DeclareKeys(path: string, names: seq<string>, sizes: map<string, nat>)
    ensures Keys(Declare(path, names, sizes)) == {path}
  {
    var s := Declare(path, names, sizes);
    assert s.entries[0].0 == path;
  }

  // ---------------------------------------------------------------------
  // SimpleRecurrentModel

  /** `_unroll` of the recurrent test model: it raises unless it receives
      the expected `in` tensors and no `bork` key, then returns fixed
      outputs and next state. */
  function SimpleRecurrentUnroll(inputs: TensorDict, prevState: TensorDict): (r: Result<Pair>)
    ensures r.Success? <==> && "in" in inputs && inputs["in"] == Arange([B, T, 2])
                            && "in" in prevState && prevState["in"] == Arange([B, 4])
                            && "bork" !in inputs && "bork" !in prevState
    ensures r.Success? ==> && r.value.0 == map["out" := Arange([B, T, 3])]
                           && r.value.1 == map["out" := Arange([B, 5])]
  {
    if "in" !in inputs || inputs["in"] != Arange([B, T, 2]) then Failure(HookFailed("unexpected input in"))
    else if "in" !in prevState || prevState["in"] != Arange([B, 4]) then Failure(HookFailed("unexpected prev_state in"))
    else if "bork" in inputs then Failure(HookFailed("bork reached _unroll in inputs"))
    else if "bork" in prevState then Failure(HookFailed("bork reached _unroll in prev_state"))
    else Success((map["out" := Arange([B, T, 3])], map["out" := Arange([B, 5])]))
  }

  /** The recurrent test model. Its initial state comes from the torch base
      class, which is not part of this model, so it is a parameter. */
  function SimpleRecurrentModel(init: Result<TensorDict>): RecurrentModel {
    Recurrent(
      Declare("in", ["b", "t", "h"], map["h" := 2]),
      Declare("in", ["b", "h"], map["h" := 4]),
      Declare("out", ["b", "t", "h"], map["h" := 3]),
      Declare("out", ["b", "h"], map["h" := 5]),
      init,
      SimpleRecurrentUnroll)
  }

  /** The inputs of the recurrent unroll test, with an undeclared `bork`
      whose first axis (5) disagrees with the batch size (6). */
  const RecurrentInputs: TensorDict := map["in" := Arange([B, T, 2]), "bork" := Arange([5, 4])]
  const RecurrentStates: TensorDict := map["in" := Arange([B, 4]), "bork" := Arange([5, 4])]

  /** The specs of the recurrent test model, axis by axis. */
  lemma SimpleRecurrentSpecs(init: Result<TensorDict>)
    ensures var m := SimpleRecurrentModel(init);
            && m.inputSpec == SpecDict([("in", [Free("b"), Free("t"), Fixed("h", 2)])])
            && m.outputSpec == SpecDict([("out", [Free("b"), Free("t"), Fixed("h", 3)])])
            && m.prevStateSpec == SpecDict([("in", [Free("b"), Fixed("h", 4)])])
            && m.nextStateSpec == SpecDict([("out", [Free("b"), Fixed("h", 5)])])
  {
    MakeSpecBTH(2);
    MakeSpecBTH(3);
    MakeSpecBH(4);
    MakeSpecBH(5);
  }

  /** `TorchSpecs("b, t, h", h=size)`. */
  lemma MakeSpecBTH(size: nat)
    ensures MakeSpec(["b", "t", "h"], map["h" := size]) == [Free("b"), Free("t"), Fixed("h", size)]
  {
    var s := MakeSpec(["b", "t", "h"], map["h" := size]);
    assert s[0] == Free("b") && s[1] == Free("t") && s[2] == Fixed("h", size);
  }

  /** `TorchSpecs("b, h", h=size)`. */
  lemma MakeSpecBH(size: nat)
    ensures MakeSpec(["b", "h"], map["h" := size]) == [Free("b"), Fixed("h", size)]
  {
    var s := MakeSpec(["b", "h"], map["h" := size]);
    assert s[0] == Free("b") && s[1] == Fixed("h", size);
  }

  /** The undeclared `bork` tensors do not take part in validation, although
      their first axis (5) disagrees with the batch size (6). */
  lemma RecurrentScenarioValidates(init: Result<TensorDict>)
    ensures Conforms(SimpleRecurrentModel(init).inputSpec, RecurrentInputs)
    ensures Conforms(SimpleRecurrentModel(init).prevStateSpec, RecurrentStates)
  {
    var m := SimpleRecurrentModel(init);
    SimpleRecurrentSpecs(init);
    var env: Env := map["b" := B, "t" := T];
    assert EntryConforms("in", m.inputSpec.entries[0].1, RecurrentInputs, env);
    assert ConformsUnder(m.inputSpec.entries, RecurrentInputs, env);
    assert EntryConforms("in", m.prevStateSpec.entries[0].1, RecurrentStates, env);
    assert ConformsUnder(m.prevStateSpec.entries, RecurrentStates, env);
  }

  /** `_unroll` receives only the declared `in` tensors, unchanged, and no
      `bork` in either dictionary. */
  lemma RecurrentScenarioFilters(init: Result<TensorDict>)
    ensures UnrollArguments(SimpleRecurrentModel(init), RecurrentInputs, RecurrentStates)
            == Success((map["in" := Arange([B, T, 2])], map["in" := Arange([B, 4])]))
  {
    var m := SimpleRecurrentModel(init);
    RecurrentScenarioValidates(init);
    DeclareKeys("in", ["b", "t", "h"], map["h" := 2]);
    DeclareKeys("in", ["b", "h"], map["h" := 4]);
    var admittedInputs := Admit(m.inputSpec, RecurrentInputs);
    var admittedState := Admit(m.prevStateSpec, RecurrentStates);
    assert admittedInputs.Success? && admittedState.Success?;
    assert admittedInputs.value == map["in" := Arange([B, T, 2])];
    assert admittedState.value == map["in" := Arange([B, 4])];
  }

  /** The recurrent unroll succeeds with outputs holding exactly `out` of
      shape (6, 8, 3) and a next state holding exactly `out` of shape (6, 5). */
  lemma RecurrentScenarioUnroll(init: Result<TensorDict>)
    ensures Unroll(SimpleRecurrentModel(init), RecurrentInputs, RecurrentStates)
            == Success((map["out" := Arange([B, T, 3])], map["out" := Arange([B, 5])]))
  {
    RecurrentScenarioFilters(init);
    RecurrentScenarioOutputsConform(init);
  }

  /** The pair the recurrent test model's `_unroll` returns conforms to its
      output and next-state specs. */
  lemma RecurrentScenarioOutputsConform(init: Result<TensorDict>)
    ensures Conforms(SimpleRecurrentModel(init).outputSpec, map["out" := Arange([B, T, 3])])
    ensures Conforms(SimpleRecurrentModel(init).nextStateSpec, map["out" := Arange([B, 5])])
  {
    var m := SimpleRecurrentModel(init);
    SimpleRecurrentSpecs(init);
    var env: Env := map["b" := B, "t" := T];
    assert ConformsUnder(m.outputSpec.entries, map["out" := Arange([B, T, 3])], env);
    assert ConformsUnder(m.nextStateSpec.entries, map["out" := Arange([B, 5])], env);
  }

  /** A previous state whose `h` axis is 5 instead of the declared 4 is
      rejected, naming the path, the axis, the symbol and both sizes. */
  lemma RecurrentScenarioBadState(init: Result<TensorDict>)
    ensures Unroll(SimpleRecurrentModel(init), RecurrentInputs, map["in" := Arange([B, 5])])
            == Failure(AxisMismatch("in", 1, "h", 4, 5))
  {
  }

  // ---------------------------------------------------------------------
  // SimpleModel

  /** `_forward` of the non-recurrent test model: it raises unless it
      receives the expected `in` tensor, then returns fixed outputs. */
  function SimpleForward(inputs: TensorDict): (r: Result<TensorDict>)
    ensures r.Success? <==> "in" in inputs && inputs["in"] == Arange([B, 2])
    ensures r.Success? ==> r.value == map["out" := Arange([B, 3])]
  {
    if "in" !in inputs || inputs["in"] != Arange([B, 2]) then Failure(HookFailed("unexpected input in"))
    else Success(map["out" := Arange([B, 3])])
  }

  /** The non-recurrent test model. */
  const SimpleModel: Model :=
    Forward(Declare("in", ["b", "h"], map["h" := 2]), Declare("out", ["b", "h"], map["h" := 3]), SimpleForward)

  const ForwardInputs: TensorDict := map["in" := Arange([B, 2]), "bork" := Arange([5, 4])]

  /** Unrolling the non-recurrent model with an empty previous state drops
      `bork` before `_forward` and returns exactly `out` of shape (6, 3),
      with an empty next state. */
  lemma ForwardScenarioUnroll()
    ensures Admit(SimpleModel.inputSpec, ForwardInputs) == Success(map["in" := Arange([B, 2])])
    ensures Unroll(AsRecurrent(SimpleModel), ForwardInputs, map[])
            == Success((map["out" := Arange([B, 3])], map[]))
  {
    MakeSpecBH(2);
    MakeSpecBH(3);
    var env: Env := map["b" := B];
    assert EntryConforms("in", SimpleModel.inputSpec.entries[0].1, ForwardInputs, env);
    assert ConformsUnder(SimpleModel.inputSpec.entries, ForwardInputs, env);
    DeclareKeys("in", ["b", "h"], map["h" := 2]);
    var admitted := Admit(SimpleModel.inputSpec, ForwardInputs).value;
    assert admitted == map["in" := Arange([B, 2])];
    var outputs := map["out" := Arange([B, 3])];
    assert EntryConforms("out", SimpleModel.outputSpec.entries[0].1, outputs, env);
    assert ConformsUnder(SimpleModel.outputSpec.entries, outputs, env);
    ModelUnrollIsForward(SimpleModel, ForwardInputs, map[]);
  }
}
