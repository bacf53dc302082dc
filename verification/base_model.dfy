/** The model-invocation contract.

    `initial_state` and `unroll` are fixed wrappers around user code: they
    validate what goes in and what comes out against the model's four specs,
    hide undeclared keys from user code, and run two overridable hooks. User
    code is represented by the function-valued fields of `RecurrentModel`;
    it is opaque, and each piece of it may raise (a `Failure`). */
module BaseModel {
  import opened Results
  import opened Tensors
  import opened Specs

  /** A pair (data, recurrent state), the shape of `_unroll`'s result. */
  type Pair = (TensorDict, TensorDict)

  /** A recurrent model: its four specs and the user hooks it overrides. */
  datatype RecurrentModel = RecurrentModel(
    inputSpec: SpecDict,
    prevStateSpec: SpecDict,
    outputSpec: SpecDict,
    nextStateSpec: SpecDict,
    /** `_initial_state()` */
    computeInitialState: Result<TensorDict>,
    /** `_unroll(inputs, prev_state)` */
    computeUnroll: (TensorDict, TensorDict) -> Result<Pair>,
    /** `_check_inputs_and_prev_state(inputs, prev_state)` */
    checkInputsAndPrevState: (TensorDict, TensorDict) -> Result<Pair>,
    /** `_check_outputs_and_next_state(outputs, next_state)` */
    checkOutputsAndNextState: (TensorDict, TensorDict) -> Result<Pair>)

  /** The default of both check hooks: return the pair unchanged. */
  function PassPair(a: TensorDict, b: TensorDict): (r: Result<Pair>)
    ensures r.Success? && r.value.0 == a && r.value.1 == b
  {
    Success((a, b))
  }

  /** A recurrent model that overrides only the specs, `_initial_state` and
      `_unroll`, keeping the default check hooks. */
  function Recurrent(
    inputSpec: SpecDict, prevStateSpec: SpecDict, outputSpec: SpecDict, nextStateSpec: SpecDict,
    computeInitialState: Result<TensorDict>,
    computeUnroll: (TensorDict, TensorDict) -> Result<Pair>): RecurrentModel
  {
    RecurrentModel(inputSpec, prevStateSpec, outputSpec, nextStateSpec, computeInitialState,
                   computeUnroll, PassPair, PassPair)
  }

  /** `initial_state()`: the state `_initial_state` built, once it has been
      checked against the next-state spec. */
  function InitialState(m: RecurrentModel): (r: Result<TensorDict>)
    ensures r.Success? ==> m.computeInitialState == Success(r.value)
    ensures r.Success? ==> Conforms(m.nextStateSpec, r.value)
    ensures m.computeInitialState.Success? ==>
              (r.Failure? <==> !Conforms(m.nextStateSpec, m.computeInitialState.value))
    ensures m.computeInitialState.Success? && r.Failure? ==>
              r == Failure(Validate(m.nextStateSpec, m.computeInitialState.value).error)
    ensures m.computeInitialState.Failure? ==> r == m.computeInitialState
  {
    var state :- m.computeInitialState;
    :- Validate(m.nextStateSpec, state);
    Success(state)
  }

  /** Validates `d` against `spec` and hides every undeclared key. On
      success the result holds exactly the declared paths, each with the
      caller's tensor. */
  function Admit(spec: SpecDict, d: TensorDict): (r: Result<TensorDict>)
    ensures r.Success? <==> Conforms(spec, d)
    ensures r.Failure? ==> Validate(spec, d) == Fail(r.error)
    ensures r.Success? ==> r.value.Keys == Keys(spec)
    ensures r.Success? ==> forall k :: k in r.value ==> r.value[k] == d[k]
  {
    match Validate(spec, d)
    case Fail(e) => Failure(e)
    case Pass =>
      ConformsHasDeclaredKeys(spec, d);
      Success(Filter(d, Keys(spec)))
  }

  /** The pair `_unroll` receives: both dictionaries admitted, then passed
      through `_check_inputs_and_prev_state`. */
  function UnrollArguments(m: RecurrentModel, inputs: TensorDict, prevState: TensorDict): (r: Result<Pair>)
    ensures r.Success? ==> Conforms(m.inputSpec, inputs) && Conforms(m.prevStateSpec, prevState)
    ensures !Conforms(m.inputSpec, inputs) ==> r == Failure(Validate(m.inputSpec, inputs).error)
    ensures Conforms(m.inputSpec, inputs) && !Conforms(m.prevStateSpec, prevState) ==>
              r == Failure(Validate(m.prevStateSpec, prevState).error)
    ensures Conforms(m.inputSpec, inputs) && Conforms(m.prevStateSpec, prevState) ==>
              r == m.checkInputsAndPrevState(Admit(m.inputSpec, inputs).value,
                                             Admit(m.prevStateSpec, prevState).value)
  {
    var admittedInputs :- Admit(m.inputSpec, inputs);
    var admittedState :- Admit(m.prevStateSpec, prevState);
    m.checkInputsAndPrevState(admittedInputs, admittedState)
  }

  /** `unroll(inputs, prev_state)`. */
  function Unroll(m: RecurrentModel, inputs: TensorDict, prevState: TensorDict): (r: Result<Pair>)
    ensures r.Success? ==> Conforms(m.inputSpec, inputs) && Conforms(m.prevStateSpec, prevState)
    ensures UnrollArguments(m, inputs, prevState).Failure? ==>
              r == UnrollArguments(m, inputs, prevState).PropagateFailure()
    ensures UnrollArguments(m, inputs, prevState).Success? ==>
              var args := UnrollArguments(m, inputs, prevState).value;
              var raw := m.computeUnroll(args.0, args.1);
              && (raw.Failure? ==> r == raw)
              && (raw.Success? && !Conforms(m.outputSpec, raw.value.0) ==>
                    r == Failure(Validate(m.outputSpec, raw.value.0).error))
              && (raw.Success? && Conforms(m.outputSpec, raw.value.0) && !Conforms(m.nextStateSpec, raw.value.1) ==>
                    r == Failure(Validate(m.nextStateSpec, raw.value.1).error))
              && (raw.Success? && Conforms(m.outputSpec, raw.value.0) && Conforms(m.nextStateSpec, raw.value.1) ==>
                    r == m.checkOutputsAndNextState(raw.value.0, raw.value.1))
  {
    var args :- UnrollArguments(m, inputs, prevState);
    var raw :- m.computeUnroll(args.0, args.1);
    :- Validate(m.outputSpec, raw.0);
    :- Validate(m.nextStateSpec, raw.1);
    m.checkOutputsAndNextState(raw.0, raw.1)
  }

  // ---------------------------------------------------------------------
  // Properties of the recurrent contract

  /** When the inputs or the previous state do not conform, `unroll` fails
      before any user code runs: two models with the same input and
      previous-state specs fail identically, whatever their hooks. */
  lemma UnrollRejectsBeforeHooks(m1: RecurrentModel, m2: RecurrentModel, inputs: TensorDict, prevState: TensorDict)
    requires m1.inputSpec == m2.inputSpec && m1.prevStateSpec == m2.prevStateSpec
    requires !Conforms(m1.inputSpec, inputs) || !Conforms(m1.prevStateSpec, prevState)
    ensures Unroll(m1, inputs, prevState).Failure?
    ensures Unroll(m1, inputs, prevState) == Unroll(m2, inputs, prevState)
  {
  }

  /** With the default check hooks, `_unroll` receives exactly the declared
      paths of the caller's dictionaries, with the caller's tensors. */
  lemma DefaultUnrollArguments(
    inputSpec: SpecDict, prevStateSpec: SpecDict, outputSpec: SpecDict, nextStateSpec: SpecDict,
    init: Result<TensorDict>, hook: (TensorDict, TensorDict) -> Result<Pair>,
    inputs: TensorDict, prevState: TensorDict)
    ensures var args := UnrollArguments(Recurrent(inputSpec, prevStateSpec, outputSpec, nextStateSpec, init, hook), inputs, prevState);
            && (args.Success? <==> Conforms(inputSpec, inputs) && Conforms(prevStateSpec, prevState))
            && (args.Success? ==> args.value.0.Keys == Keys(inputSpec) && args.value.1.Keys == Keys(prevStateSpec))
            && (args.Success? ==> forall k :: k in args.value.0 ==> args.value.0[k] == inputs[k])
            && (args.Success? ==> forall k :: k in args.value.1 ==> args.value.1[k] == prevState[k])
  {
  }

  /** With the default check hooks, every successful `unroll` returns the
      pair `_unroll` computed on the admitted dictionaries, and that pair
      conforms to the output and next-state specs. */
  lemma DefaultUnrollConforms(
    inputSpec: SpecDict, prevStateSpec: SpecDict, outputSpec: SpecDict, nextStateSpec: SpecDict,
    init: Result<TensorDict>, hook: (TensorDict, TensorDict) -> Result<Pair>,
    inputs: TensorDict, prevState: TensorDict)
    ensures var r := Unroll(Recurrent(inputSpec, prevStateSpec, outputSpec, nextStateSpec, init, hook), inputs, prevState);
            r.Success? ==>
              && Conforms(outputSpec, r.value.0)
              && Conforms(nextStateSpec, r.value.1)
              && r == hook(Filter(inputs, Keys(inputSpec)), Filter(prevState, Keys(prevStateSpec)))
  {
  }

  // ---------------------------------------------------------------------
  // The non-recurrent adapter

  /** A non-recurrent model: input and output specs, `_forward`, and the
      single-dictionary check hooks `_check_inputs` / `_check_outputs`. */
  datatype Model = Model(
    inputSpec: SpecDict,
    outputSpec: SpecDict,
    computeForward: TensorDict -> Result<TensorDict>,
    checkInputs: TensorDict -> Result<TensorDict>,
    checkOutputs: TensorDict -> Result<TensorDict>)

  /** The default of `_check_inputs` and `_check_outputs`. */
  function PassOne(d: TensorDict): (r: Result<TensorDict>)
    ensures r.Success? && r.value == d
  {
    Success(d)
  }

  /** A non-recurrent model that overrides only the specs and `_forward`. */
  function Forward(inputSpec: SpecDict, outputSpec: SpecDict, computeForward: TensorDict -> Result<TensorDict>): Model {
    Model(inputSpec, outputSpec, computeForward, PassOne, PassOne)
  }

  /** `Model._unroll`: discard the state, run `_forward`, return no state. */
  function ForwardUnroll(fm: Model, inputs: TensorDict, prevState: TensorDict): (r: Result<Pair>)
    ensures r.Success? <==> fm.computeForward(inputs).Success?
    ensures r.Success? ==> r.value.0 == fm.computeForward(inputs).value && r.value.1 == map[]
    ensures r.Failure? ==> r.error == fm.computeForward(inputs).error
  {
    var outputs :- fm.computeForward(inputs);
    Success((outputs, map[]))
  }

  /** `Model._check_inputs_and_prev_state`: check the inputs only. */
  function ForwardCheckInputs(fm: Model, inputs: TensorDict, prevState: TensorDict): (r: Result<Pair>)
    ensures r.Success? <==> fm.checkInputs(inputs).Success?
    ensures r.Success? ==> r.value.0 == fm.checkInputs(inputs).value && r.value.1 == prevState
    ensures r.Failure? ==> r.error == fm.checkInputs(inputs).error
  {
    var checked :- fm.checkInputs(inputs);
    Success((checked, prevState))
  }

  /** `Model._check_outputs_and_next_state`: check the outputs only. */
  function ForwardCheckOutputs(fm: Model, outputs: TensorDict, nextState: TensorDict): (r: Result<Pair>)
    ensures r.Success? <==> fm.checkOutputs(outputs).Success?
    ensures r.Success? ==> r.value.0 == fm.checkOutputs(outputs).value && r.value.1 == nextState
    ensures r.Failure? ==> r.error == fm.checkOutputs(outputs).error
  {
    var checked :- fm.checkOutputs(outputs);
    Success((checked, nextState))
  }

  /** The recurrent model a `Model` is: no declared state, an empty initial
      state, and the hooks above. */
  function AsRecurrent(fm: Model): (m: RecurrentModel)
    ensures m.inputSpec == fm.inputSpec && m.outputSpec == fm.outputSpec
    ensures Keys(m.prevStateSpec) == {} && Keys(m.nextStateSpec) == {}
    ensures m.computeInitialState == Success(map[])
    ensures forall inputs, prevState :: m.computeUnroll(inputs, prevState) == ForwardUnroll(fm, inputs, prevState)
    ensures forall inputs, prevState ::
              m.checkInputsAndPrevState(inputs, prevState) == ForwardCheckInputs(fm, inputs, prevState)
    ensures forall outputs, nextState ::
              m.checkOutputsAndNextState(outputs, nextState) == ForwardCheckOutputs(fm, outputs, nextState)
  {
    assert Keys(EmptySpecDict) == {};
    RecurrentModel(
      fm.inputSpec, EmptySpecDict, fm.outputSpec, EmptySpecDict,
      Success(map[]),
      (inputs, prevState) => ForwardUnroll(fm, inputs, prevState),
      (inputs, prevState) => ForwardCheckInputs(fm, inputs, prevState),
      (outputs, nextState) => ForwardCheckOutputs(fm, outputs, nextState))
  }

  /** An independent statement of what a non-recurrent model computes:
      admit the inputs, check them, run `_forward`, validate the outputs,
      check them. */
  function ForwardPass(fm: Model, inputs: TensorDict): Result<TensorDict> {
    var admitted :- Admit(fm.inputSpec, inputs);
    var checked :- fm.checkInputs(admitted);
    var outputs :- fm.computeForward(checked);
    :- Validate(fm.outputSpec, outputs);
    fm.checkOutputs(outputs)
  }

  /** Every dictionary conforms to the empty spec, and admitting it leaves
      nothing. */
  lemma AdmitEmpty(d: TensorDict)
    ensures Admit(EmptySpecDict, d) == Success(map[])
  {
  }

  /** A `Model`'s initial state always passes and is empty. */
  lemma ModelInitialState(fm: Model)
    ensures InitialState(AsRecurrent(fm)) == Success(map[])
  {
  }

  /** A `Model`'s `unroll` is its forward pass paired with an empty next
      state: the previous state is dropped and never affects the result. */
  lemma ModelUnrollIsForward(fm: Model, inputs: TensorDict, prevState: TensorDict)
    ensures var r := Unroll(AsRecurrent(fm), inputs, prevState);
            var f := ForwardPass(fm, inputs);
            && (r.Success? <==> f.Success?)
            && (r.Success? ==> r.value == (f.value, map[]))
            && (r.Failure? ==> r.error == f.error)
  {
  }

  /** Corollary: the previous state passed to a `Model` has no effect, and
      the next state it returns is always empty. */
  lemma ModelIgnoresState(fm: Model, inputs: TensorDict, prevState1: TensorDict, prevState2: TensorDict)
    ensures Unroll(AsRecurrent(fm), inputs, prevState1) == Unroll(AsRecurrent(fm), inputs, prevState2)
    ensures Unroll(AsRecurrent(fm), inputs, prevState1).Success? ==>
              Unroll(AsRecurrent(fm), inputs, prevState1).value.1 == map[]
  {
  }
}
