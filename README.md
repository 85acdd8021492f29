# Native step compiler of the BayerCLAW workflow compiler

BayerCLAW compiles a workflow description into an AWS Step Functions state
machine. A *native step* is a step whose `Type` names an Amazon States
Language state directly: Pass, Task, Wait, Succeed, Fail, Parallel, or any
other type string. `handle_native_step` turns one native step into one
state. Along the way it does three things:

- It rewrites the result routing fields `ResultPath` and `OutputPath`.
- It writes the successor link, `Next` or `End`.
- For a Parallel step, it compiles every branch and emits the job definition
  resources needed by the job steps inside the branches. Emission is a
  generator, so the caller receives resources while the state is still
  being built.

This project models that behaviour and proves what the unit tests of the
compiler promise about it.

- `values.dfy` (`Values`): the parsed YAML/JSON document as a `Value`
  datatype, Python truthiness, and the key of a one-key dictionary.
- `job_names.dfy` (`JobNames`): the name of the job definition resource of a
  job step. That name is the step name in CamelCase followed by `JobDef`.
- `native_step.dfy` (`NativeSteps`): the compiler as total functions with
  `Result` errors.
  - Field rewriting: `NormalizeRouting`, `NormalizeParallel`, `LinkSuccessor`.
  - The recursive compilation of branches and entries: `CompileNative`,
    `CompileBranches`, `CompileBranch`, `CompileEntries`, `CompileEntry`.
  - A reference definition `JobSteps` of the job steps found in discovery
    order.
  - Lemmas about the shape of compiled branches and about exactly when
    compilation fails.
- `resource_stream.dfy` (`ResourceStream`): the generator, modelled as
  imperative methods.
  - Every recursive call appends its resources to a shared `ResourceSink`
    object the moment it finds them.
  - On success, each method is proved to leave the sink grown by exactly
    the resources of the matching function, in the same order. On failure,
    it is proved only to keep what the sink already held.
- `native_step_tests.dfy` (`NativeStepTests`): the test assertions as
  predicates, lemmas that prove them for every input, and the test fixtures.

Routing rules of the model:

- **Succeed and Fail:** the state never carries `ResultPath`,
  `OutputPath`, `Next`, `End` or `_stet`; every other field is kept.
- **Other steps, without a truthy `_stet`:** a present `ResultPath` becomes
  null and a present `OutputPath` becomes `"$"`; neither is added when
  absent, except on Parallel (below).
- **`_stet`:** a truthy `_stet` keeps both fields as they are, on Parallel
  steps too. The `_stet` key itself is always dropped.
- **Parallel steps:** without a truthy `_stet` they always get
  `ResultPath: null` and `OutputPath: "$"`. `Branches` becomes the list of
  compiled branches `{States: ...}`.
- **Successor link:**
  - a successor of `""` gives `End: true` and no `Next`;
  - any other successor gives `Next: <successor>` and no `End`;
  - Succeed and Fail states get neither.
- **Other fields:** every other field is copied unchanged.

The design of the compiler says that a Parallel state follows the same
routing rules as the other types, so a field absent from the input is not
added. The Parallel test demands `ResultPath: null` and `OutputPath: "$"` on
a Parallel state whose input has neither field. The model follows the test
and sets both on a Parallel state without a truthy `_stet`.

The implementation module of `handle_native_step` is not modelled. Its
behaviour is taken from `lambda/tests/compiler/test_native_step_resources.py`
and from the compiler's design notes, so every row below cites that test
file.

## Model

| member | source | states |
|---|---|---|
| NativeSteps.NormalizeRouting | lambda/tests/compiler/test_native_step_resources.py:82-92 | Succeed and Fail lose ResultPath and OutputPath. For other types without a truthy `_stet`, a present ResultPath becomes null and a present OutputPath becomes "$"; with one, every field is kept. `_stet` is always dropped, no other field changes, and no key is added. |
| NativeSteps.NormalizeParallel | lambda/tests/compiler/test_native_step_resources.py:222-226 | A Parallel state gets the compiled branches as `Branches`. Without a truthy `_stet` it gets `ResultPath: null` and `OutputPath: "$"` whether or not the input had those fields; with one, every field but `Branches` is the input's. `_stet` is dropped; every other field is copied. |
| NativeSteps.LinkSuccessor | lambda/tests/compiler/test_native_step_resources.py:94-105 | The successor link: Succeed/Fail get neither Next nor End, an empty successor gives `End: true` and no Next, any other successor gives `Next: successor` and no End. Every other field is kept. |
| NativeSteps.CompileNative | lambda/tests/compiler/test_native_step_resources.py:77-80 | The compiled state is named after the step, keeps its Type and is linked to the successor. A step other than Parallel yields no resources; a missing Type is UnrecognizedStepType; the only other error is a malformed branch structure. The resources are the job definitions of `JobSteps`, in discovery order. |
| NativeSteps.CompileBranches | lambda/tests/compiler/test_native_step_resources.py:226 | Compiling the branches of a Parallel step in order fails only with MalformedBranchStructure. Its resources are the job definitions of the branches' job steps, in branch order. |
| NativeSteps.CompileBranch | lambda/tests/compiler/test_native_step_resources.py:227-228 | A branch fails only with MalformedBranchStructure, and its resources are the job definitions of its own job steps. |
| NativeSteps.CompileEntry | lambda/tests/compiler/test_native_step_resources.py:153-189 | An entry compiles to a state named after its only key and linked to the next entry, or to the branch end. Its resources are its own job definition for a job step, or the nested step's for a native one. |
| NativeSteps.CompileEntries | lambda/tests/compiler/test_native_step_resources.py:152-189 | The entries of a branch fail only with MalformedBranchStructure, and their resources are the job definitions of their job steps, in entry order. |
| NativeSteps.CompileNativeOk | lambda/tests/compiler/test_native_step_resources.py:148-211 | Compilation fails exactly when the step has no Type, or is a Parallel step whose `Branches`, at any depth, is not a non-empty list of dictionaries, each with a non-empty `steps` list of one-key entries whose value is a dictionary. |
| NativeSteps.EntriesStates | lambda/tests/compiler/test_native_step_resources.py:227-228 | The States map of a branch has exactly the branch's step names as keys. Each name maps to the compiled state of the entry that declares it last (a nested native step's own compiled fields, or a job step's Task state), linked to the entry after it; the last one ends the branch. |
| NativeSteps.BranchesCompiled | lambda/tests/compiler/test_native_step_resources.py:226-228 | The compiled branches correspond one to one, in order, to the source branches, each being `{States: ...}` holding the compiled state of every step, as EntriesStates describes. |
| NativeSteps.ParallelCompiled | lambda/tests/compiler/test_native_step_resources.py:222-228 | A compiled Parallel state has as many branches as its input, each with its own step names as States. Without a truthy `_stet` ResultPath is null and OutputPath is "$"; with one, both are present exactly when the input has them and keep the input's values. The state is linked to its successor. |
| JobNames.CamelCaseRecasesAndDropsUnderscores | lambda/tests/compiler/test_native_step_resources.py:232 | CamelCasing a step name only changes letter case and removes the underscores: ignoring case it equals the name without underscores, and no underscore is left. |
| JobNames.CamelCaseCapitalizesWordStarts | lambda/tests/compiler/test_native_step_resources.py:232 | Every character that starts a word of the step name (its first character, or one after an underscore) is upper-cased in the job definition name. |
| JobNames.JobDefNameShape | lambda/tests/compiler/test_native_step_resources.py:232 | A job definition name is the step name with its underscores removed, followed by `JobDef`: every word-starting character is upper-cased and every other character is kept as it is. |
| JobNames.CamelCaseKeepsInsideWord | lambda/tests/compiler/test_native_step_resources.py:232 | A character that neither is nor follows an underscore comes out unchanged in the job definition name. |
| JobNames.CamelCaseOfWord | lambda/tests/compiler/test_native_step_resources.py:232 | A word without underscores keeps all its characters, with its first one upper-cased when it starts a word. |
| JobNames.CamelCaseAcrossUnderscore | lambda/tests/compiler/test_native_step_resources.py:232 | An underscore between two parts is dropped and starts a new word: the CamelCase of `a_b` is that of `a` followed by the capitalised CamelCase of `b`. |
| JobNames.JobDefNamesOfParallelTest | lambda/tests/compiler/test_native_step_resources.py:232 | The job definitions of `do_this`, `do_that` and `do_the_other` are named `DoThisJobDef`, `DoThatJobDef` and `DoTheOtherJobDef`. |
| ResourceStream.HandleNativeStep | lambda/tests/compiler/test_native_step_resources.py:215-217 | Compiling through the stream returns the state or the error of CompileNative. On success the sink has grown by exactly CompileNative's resources in order; on failure what was emitted stays emitted. |
| ResourceStream.HandleBranches | lambda/tests/compiler/test_native_step_resources.py:226-233 | Compiling the branches one after the other emits each branch's resources as it is compiled, and matches CompileBranches. |
| ResourceStream.HandleBranch | lambda/tests/compiler/test_native_step_resources.py:227-233 | Compiling one branch through the stream matches CompileBranch and emits exactly its resources. |
| ResourceStream.HandleEntry | lambda/tests/compiler/test_native_step_resources.py:230-233 | Compiling one entry through the stream matches CompileEntry and emits exactly its resources. A job step emits its job definition; a native step emits what its own compilation emits. |
| ResourceStream.HandleEntries | lambda/tests/compiler/test_native_step_resources.py:227-233 | Compiling the entries of a branch one after the other builds its States map and emits each entry's resources as it is compiled, and matches CompileEntries. |
| ResourceStream.CollectNativeStep | lambda/tests/compiler/test_native_step_resources.py:110-111 | Draining the stream into a list gives exactly the resources of CompileNative, in order, beside its state or error. |
| NativeStepTests.RoutingChecksHold | lambda/tests/compiler/test_native_step_resources.py:72-108 | For every step that has a Type, is not Parallel and has no truthy `_stet`, and for every successor, the state passes the routing test's checks and no resource is emitted. |
| NativeStepTests.PassFixturePasses | lambda/tests/compiler/test_native_step_resources.py:10-20 | The Pass fixture passes the routing test with successor `next_step` and with the empty successor. |
| NativeStepTests.TaskFixturePasses | lambda/tests/compiler/test_native_step_resources.py:22-32 | Fixture `task_test` passes the routing test with both successors. |
| NativeStepTests.WaitFixturePasses | lambda/tests/compiler/test_native_step_resources.py:34-45 | The Wait fixture passes the routing test with both successors. |
| NativeStepTests.EndFixturesPass | lambda/tests/compiler/test_native_step_resources.py:47-59 | The Succeed and Fail fixtures pass the routing test with neither Next nor End. |
| NativeStepTests.EndStatesDropRouting | lambda/tests/compiler/test_native_step_resources.py:82-95 | A Succeed or Fail step compiles, with no resources, to its own fields without ResultPath, OutputPath, Next, End and `_stet`, whatever the successor. |
| NativeStepTests.StetKeepsRouting | lambda/tests/compiler/test_native_step_resources.py:114-138 | With a truthy `_stet`, the compiled fields of a linked step are exactly the input's without `_stet` and End, plus `Next`. ResultPath and OutputPath are kept verbatim. |
| NativeStepTests.StetFixturePasses | lambda/tests/compiler/test_native_step_resources.py:114-141 | The `_stet` fixture compiles to exactly the expected fields, with no resources. |
| NativeStepTests.TwoBranchCompiled | lambda/tests/compiler/test_native_step_resources.py:148-228 | A Parallel step with job steps a, b in one branch and c in another compiles. The States names of its branches are {a, b} and {c}, and its resources are the job definitions of a, b and c in that order. |
| NativeStepTests.ParallelFixturePasses | lambda/tests/compiler/test_native_step_resources.py:144-233 | The Parallel fixture passes every assertion of its test: name, Type, null ResultPath, "$" OutputPath, Next, two branches with States {do_this, do_that} and {do_the_other}. Every resource is one of the three job definition names, of type `AWS::Batch::JobDefinition`. |
| NativeStepTests.ParallelFixtureResources | lambda/tests/compiler/test_native_step_resources.py:230-233 | The job definitions of the fixture's three job steps are three resources, named as the test expects and of type `AWS::Batch::JobDefinition`. |
| NativeStepTests.AsWrittenAcceptsLeakyState | lambda/tests/compiler/test_native_step_resources.py:101-105 | The checks as written accept a compiled Pass state that keeps `End: false` next to its Next link. The corrected checks and the successor link both reject that state. |
| NativeStepTests.CorrectedChecksImplyAsWritten | lambda/tests/compiler/test_native_step_resources.py:94-105 | The corrected checks are at least as strong as the written ones for any step not named Next or End. |

## Left out

- The implementation module of `handle_native_step` is not part of this
  model. The behaviour comes from the tests and the compiler's design notes.
  Where the tests allow two readings, the model takes the design's: Succeed
  and Fail states drop ResultPath and OutputPath, only the routing fields
  that are present are overridden, and a truthy `_stet` keeps them on every
  type except Succeed and Fail.
- NativeSteps.NormalizeParallel: a Parallel state without a truthy `_stet`
  gets ResultPath and OutputPath even when its input lacks them, because
  the Parallel test demands both on such an input; the design's rule of
  adding neither is not followed there.
- Job step compilation is done by a collaborator that is not part of this
  model. A job entry becomes a Task state linked to its successor and one
  resource, `{Type: AWS::Batch::JobDefinition}`, named by `JobDefName`; only
  the fields the tests look at are modelled.
- The CamelCase rule of the job definition name is known only through the
  three names in the test. The model upper-cases the first character of
  each underscore-separated word and keeps the others.
- YAML parsing is left out: a step arrives as an already parsed `Value` tree.
- The core stack (`CORE_STACK_NAME`, the environment), the workflow
  parameters and the nesting depth are left out. The tests pass them through
  without observing them.
- Dictionary order is left out: fields are a `map`. The tests compare
  dictionaries and key sets, never their order.
- Laziness of the generator is left out. The stream is an append-only sink
  filled while compiling, so discovery order is kept but suspension between
  resources is not.
- A compiled branch holds only `States`. Any other key of the branch's
  state machine, such as `StartAt`, is left out because the tests do not
  look at it.
- ResourceStream.HandleNativeStep: on an error, the contract promises only
  that earlier resources stay emitted, not which partial resources were
  emitted before the failure.

## Findings

| source | as written | input that shows it | evidently intended | confidence | as-written member | corrected member |
|---|---|---|---|---|---|---|
| lambda/tests/compiler/test_native_step_resources.py:95-105 | `"Next" not in result` and `"End" not in result` test membership in the `State` named tuple. They compare the key with the step name and with the fields dictionary, so they hold for any step not named `Next` or `End`. | Step `step_name` from the Pass fixture with successor `next_step`, compiled to `{Type: Pass, Next: next_step, End: false}`. Every assertion of the test passes, yet the state carries both Next and End. | The keys must be absent from the state's fields, `result.spec`. | not executed | NativeStepTests.AsWrittenAcceptsLeakyState | NativeStepTests.RoutingChecksHold |
