# RLlib model-invocation contract, modelled in Dafny

This project models the contract that RLlib's model base classes put around user code
(`rllib/models/base_model.py`). A `RecurrentModel` declares four shape specs: input,
previous state, output and next state. Its public entry points are not meant to be
overridden. `unroll` validates the inputs and the previous state, and hides every key
their specs do not declare. It then runs the pre-hook `_check_inputs_and_prev_state`
and delegates to the user's `_unroll`. It validates what `_unroll` returned and runs the
post-hook `_check_outputs_and_next_state`. `initial_state` validates the user's
`_initial_state` against the next-state spec. The non-recurrent `Model` adapts this
contract: it declares no state, starts from an empty state, and its `_unroll` runs
`_forward` and returns an empty next state. The two test models of
`rllib/models/tests/test_torch_model.py` are instantiated, and their scenarios are
proved as lemmas.

Files and modules:

- `results.dfy` (`Results`): the error kinds (`MissingKey`, `ArityMismatch`,
  `AxisMismatch`, and `HookFailed` for anything user code raises), plus `Result` and
  `Outcome`.
- `tensors.dfy` (`Tensors`): a tensor is a shape with opaque contents. A TensorDict is a
  `map<string, Tensor>`. This module also holds `Get` and `Filter`.
- `specs.dfy` (`Specs`): axis tokens (`Free(name)` or `Fixed(name, size)`), specs, spec
  dictionaries, and the validator. The validator carries a binding environment from
  path to path. It is proved equal to a declarative meaning: *some* assignment of sizes
  to the free symbols makes every declared path present with the declared arity and
  matching axes.
- `base_model.dfy` (`BaseModel`): `RecurrentModel`, `InitialState`, `Unroll`, the
  default hooks, the `Model` adapter (`AsRecurrent`), and their properties.
- `test_torch_model.dfy` (`TestTorchModel`): `SimpleRecurrentModel`, `SimpleModel`,
  and the unroll-and-filter scenarios.

User code (`_initial_state`, `_unroll`, `_forward` and the check hooks) is represented
by function-valued fields of the model datatypes. The one assumption made about them
is that each is a pure, terminating function of its arguments: it computes a result
or a failure from the dictionaries it is given and nothing else. Beyond that nothing
constrains what they return, and each may fail. Keyword arguments (`**kwargs`) are
dropped.

Design choices:

- The spec classes (`SpecDict`, `TorchSpecs`, `TensorDict`) are imported from modules
  that are not part of this model. They are modelled only as far as `base_model.py` and
  its torch test use them. `TorchSpecs("b, t, h", h=2)` becomes `MakeSpec(["b", "t", "h"], map["h" := 2])`.
- A spec dictionary is an ordered list of (path, spec) pairs, like an insertion-ordered
  Python dict. Validation therefore visits the paths in a fixed order and reports the
  first failure deterministically.
- Validation first requires every declared path to be present and reports the first
  absent one. Only then does it check arity and axis sizes, path by path.
- A symbol fixed by keyword is local to its spec and does not enter the binding
  environment. A free symbol is bound at its first occurrence in one validation call and
  compared at every later one. The inputs and the previous state are validated in
  separate calls. So the batch symbol `b` of the inputs is not compared with the `b` of
  the state, just as in the code.

## Model

| member | source | states |
|---|---|---|
| Specs.MakeSpec | rllib/models/tests/test_torch_model.py:21 | the spec has one token per axis name, in order; a name is fixed exactly when a keyword gives its size, and then to that size |
| Specs.MakeSpecValidates | rllib/models/tests/test_torch_model.py:20-36 | a one-path spec dictionary built from axis names and keyword sizes accepts a dictionary exactly when the path is present, with one axis per name, each keyword-sized axis of its size, and all axes of a repeated free name of one size |
| Specs.Validate | rllib/models/base_model.py:153-154 | validation passes exactly when the dictionary conforms, meaning one size per free symbol makes every declared path present, of the declared arity, and matching on every axis. It reports a missing key exactly when some declared path is absent, naming the first such path in declaration order. Every other failure describes a violation that really occurs: an arity error gives the declared and actual axis counts of a present path; an axis error gives a present path, an axis that exists, its token's symbol, the expected size and the differing actual size. When that token is a free symbol, the expected size is the actual size of another occurrence of the same symbol at a present path, so a symbol that occurs once is never blamed |
| Specs.ValidateIgnoresUndeclared | rllib/models/tests/test_torch_model.py:95-107 | the validation outcome is the same for a dictionary, for its restriction to the declared keys, and for the dictionary with any undeclared keys added, whatever their shapes |
| Specs.SingleOccurrenceNotBlamed | rllib/models/base_model.py:153-154 | with input spec `a:(x)`, `b:(h=4)` and shapes `a:(3)`, `b:(5)`, validation fails on `b`'s fixed axis (expected 4, actual 5) and does not blame the once-occurring free symbol `x` |
| Specs.SharedSymbolMustAgree | rllib/models/base_model.py:153-154 | when a free symbol occurs at two declared axes whose actual sizes differ, validation fails |
| Specs.ConformsHasDeclaredKeys | rllib/models/base_model.py:153-157 | a dictionary that passes validation holds every declared key, so filtering afterwards cannot lose one |
| Tensors.Filter | rllib/models/base_model.py:155-157 | the filtered dictionary's keys are exactly the source's keys that the spec declares, each with the source's tensor |
| Tensors.Get | rllib/models/tests/test_torch_model.py:111-115 | a lookup succeeds exactly when the path is present, returning its tensor, and otherwise fails with a missing-key error for that path |
| BaseModel.InitialState | rllib/models/base_model.py:97-111 | `initial_state` returns exactly what `_initial_state` built, and only if it conforms to the next-state spec. It fails exactly when that value does not conform, and then with the validator's own error. An error `_initial_state` raises is returned unchanged |
| BaseModel.Admit | rllib/models/base_model.py:153-157 | validate-then-filter succeeds exactly on conforming dictionaries, fails with the validator's error otherwise, and on success keeps exactly the declared keys with the caller's tensors |
| BaseModel.UnrollArguments | rllib/models/base_model.py:153-158 | a non-conforming input fails with the input error, and the previous state is not even consulted; a non-conforming state then fails with the state error; only when both conform does the pre-hook run, on the two filtered dictionaries |
| BaseModel.Unroll | rllib/models/base_model.py:132-163 | `unroll` succeeds only on conforming inputs and state. If the pre-hook or `_unroll` raises, that error is returned. `_unroll`'s raw outputs are validated, then its raw next state; the first that fails ends the call. Only when both conform is the post-hook applied to that raw pair, and its result is returned. |
| BaseModel.UnrollRejectsBeforeHooks | rllib/models/base_model.py:153-159 | when the inputs or the state do not conform, `unroll` fails the same way for any two models with the same input and state specs, so no hook can influence or observe the call |
| BaseModel.PassPair | rllib/models/base_model.py:165-193 | the default check hooks never fail and return both dictionaries unchanged |
| BaseModel.DefaultUnrollArguments | rllib/models/base_model.py:153-178 | with default hooks, `_unroll` is reached exactly when both dictionaries conform, and receives exactly the declared keys of each, with the caller's tensors |
| BaseModel.DefaultUnrollConforms | rllib/models/base_model.py:159-193 | with default hooks, every successful `unroll` returns `_unroll`'s pair on the filtered dictionaries, with outputs conforming to the output spec and a next state conforming to the next-state spec |
| BaseModel.PassOne | rllib/models/base_model.py:225-251 | the default `_check_inputs` / `_check_outputs` never fail and return their dictionary unchanged |
| BaseModel.ForwardUnroll | rllib/models/base_model.py:253-258 | `Model._unroll` succeeds exactly when `_forward` does, returning `_forward`'s outputs and an empty next state whatever the previous state; otherwise it fails with `_forward`'s error |
| BaseModel.ForwardCheckInputs | rllib/models/base_model.py:219-223 | `Model._check_inputs_and_prev_state` succeeds exactly when `_check_inputs` does, returning its inputs and the previous state unchanged; otherwise it fails with `_check_inputs`'s error |
| BaseModel.ForwardCheckOutputs | rllib/models/base_model.py:236-240 | `Model._check_outputs_and_next_state` succeeds exactly when `_check_outputs` does, returning its outputs and the next state unchanged; otherwise it fails with `_check_outputs`'s error |
| BaseModel.AsRecurrent | rllib/models/base_model.py:208-258 | a `Model` keeps its input and output specs, declares no previous or next state, starts from the empty state, and uses the three adapter hooks above as `_unroll` and check hooks |
| BaseModel.AdmitEmpty | rllib/models/base_model.py:208-214 | every dictionary passes the empty state spec, and filtering by it leaves the empty dictionary |
| BaseModel.ModelInitialState | rllib/models/base_model.py:208-217 | a non-recurrent model's `initial_state` always succeeds with the empty dictionary |
| BaseModel.ModelUnrollIsForward | rllib/models/base_model.py:219-258 | a non-recurrent model's `unroll` equals an independently written forward pass paired with an empty next state. That pass runs, in order: admit inputs, `_check_inputs`, `_forward`, validate outputs, `_check_outputs`. Success and error agree. |
| BaseModel.ModelIgnoresState | rllib/models/base_model.py:253-258 | a non-recurrent model's result does not depend on the previous state, and its next state is always empty |
| TestTorchModel.SimpleRecurrentSpecs | rllib/models/tests/test_torch_model.py:17-36 | the recurrent test model's specs are input `in:(b,t,2)`, output `out:(b,t,3)`, previous state `in:(b,4)`, next state `out:(b,5)` |
| TestTorchModel.SimpleRecurrentUnroll | rllib/models/tests/test_torch_model.py:38-48 | the recurrent test model's `_unroll` succeeds exactly when it receives the expected `in` tensors in both dictionaries and no `bork` in either, and then returns `{out:(6,8,3)}` and `{out:(6,5)}` |
| TestTorchModel.RecurrentScenarioValidates | rllib/models/tests/test_torch_model.py:95-107 | the test inputs and states pass validation, although their undeclared `bork` of shape (5,4) disagrees with `b = 6` |
| TestTorchModel.RecurrentScenarioFilters | rllib/models/tests/test_torch_model.py:38-43 | `_unroll` receives exactly `{in}` in both dictionaries, with the caller's `in` tensors unchanged and no `bork` |
| TestTorchModel.RecurrentScenarioUnroll | rllib/models/tests/test_torch_model.py:92-115 | the recurrent unroll succeeds; the outputs are exactly `{out}` of shape (6,8,3) and the next state is exactly `{out}` of shape (6,5) |
| TestTorchModel.RecurrentScenarioBadState | rllib/models/tests/test_torch_model.py:28-31 | a previous state `in` of shape (6,5) is rejected with a mismatch on axis 1, symbol `h`, expected 4, got 5 |
| TestTorchModel.SimpleForward | rllib/models/tests/test_torch_model.py:62-65 | the non-recurrent test model's `_forward` succeeds exactly when it receives the expected `in` tensor, and then returns `{out:(6,3)}` |
| TestTorchModel.ForwardScenarioUnroll | rllib/models/tests/test_torch_model.py:120-133 | the non-recurrent unroll with an empty previous state drops `bork` before `_forward` and returns exactly `{out}` of shape (6,3) with an empty next state |

## Left out

- `ModelIO.save` / `load` (`rllib/models/base_model.py:277-313`), the torch
  persistence mixin and `test_save_load`: file I/O through the tensor library, with
  no logic of the contract in them.
- `rllib/models/torch/model.py`: the torch glue. It covers multiple inheritance with
  `nn.Module` and the zero-filled default `_initial_state`. That method reads an
  `initial_state_spec` attribute that the base classes never define. The recurrent
  test model's initial state is therefore a parameter of `SimpleRecurrentModel`.
- `RecurrentModel.name`: the optional module name, which no contract property uses.
- `rllib/agents/random/random_actor_torch_policy.py`: a single policy-class
  construction, outside the contract.
- Tensor numerics: the arithmetic inside `_unroll` and `_forward` is not modelled.
  Tensor contents are carried only as opaque `arange` values.
- `**kwargs` passed through `unroll` to `_unroll` / `_forward`.
- Dtype constraints in specs, literal integer axis tokens, nested (hierarchical)
  dictionary paths, and parsing of the spec string. `base_model.py` and its torch
  test use none of them, and the spec classes are not part of this model.
- Module effects and in-place changes: the Python hooks are methods of a module and
  may read its parameters, which training changes between calls, and may change
  tensors in place. `filter` (`rllib/models/base_model.py:156-157`) hands the
  caller's own tensor objects to `_unroll`, so such a change would be visible to the
  caller. Neither is modelled. A hook here sees only its arguments and returns new
  values, so `unroll` is deterministic in this model only because of that
  assumption.
