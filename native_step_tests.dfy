/** The promises the native step tests make about the compiler, stated once
    for all inputs and then for the fixtures the tests use. */
module NativeStepTests {
  import opened Values
  import opened JobNames
  import opened NativeSteps

  // ---------------------------------------------------------------------
  // Fixtures of the routing test
  //
  // The fixture lemmas below take their fixture as a parameter fixed by a
  // `requires` (`input == PassTest()`) rather than naming it in the
  // `ensures`: that keeps the solver from unfolding the literal maps and
  // names in every proof that states the fixture's property.

  const StepName := "step_name"
  const NextStep := "next_step"
  const Override := Str("override_this")
  const InputPath := Str("$.input_path")

  function PassTest(): map<string, Value>
  {
    map[TypeKey := Str("Pass"), "Comment" := Str("test case for Pass state"),
        "InputPath" := InputPath, "Parameters" := Dict(map["x" := Int(1)]),
        "Result" := Dict(map["y" := Int(1)]), ResultPathKey := Override,
        OutputPathKey := Override, NextKey := Override, EndKey := Bool(false)]
  }

  function TaskTest(): map<string, Value>
  {
    map[TypeKey := Str("Task"), "Comment" := Str("test case for Task state"),
        "Resource" := Str("arn:etc:etc"), "InputPath" := InputPath,
        "Parameters" := Dict(map["x" := Int(1)]), ResultPathKey := Override,
        OutputPathKey := Override, NextKey := Override, EndKey := Bool(false)]
  }

  function WaitTest(): map<string, Value>
  {
    map[TypeKey := Str("Wait"), "Comment" := Str("test case for Wait state"),
        "Seconds" := Str("99"), "SecondsPath" := Str("$.seconds"),
        "Timestamp" := Str("2020-04-23T12:41:00Z"), "TimestampPath" := Str("$.timestamp"),
        "InputPath" := InputPath, OutputPathKey := Override, NextKey := Override,
        EndKey := Bool(false)]
  }

  function SucceedTest(): map<string, Value>
  {
    map[TypeKey := Str("Succeed"), "Comment" := Str("test case for Succeed state"),
        "InputPath" := InputPath, OutputPathKey := Override]
  }

  function FailTest(): map<string, Value>
  {
    map[TypeKey := Str("Fail"), "Comment" := Str("test case for Fail state"),
        "Error" := Str("failure error"), "Cause" := Str("it failed")]
  }

  // ---------------------------------------------------------------------
  // The checks of the routing test

  /** Every field of `small` is a field of `big` with the same value. */
  predicate SubMap(small: map<string, Value>, big: map<string, Value>)
  {
    forall k :: k in small ==> k in big && small[k] == big[k]
  }

  /** What the routing test checks of the state compiled from step `name`
      with fields `input` and successor `next`: the name is kept; a
      ResultPath, if any, is null and an OutputPath, if any, is "$"; a
      Succeed or Fail state has neither Next nor End; any other has
      `End: true` and no Next when `next` is empty, and otherwise
      `Next: next` and no End; with those fields set aside, what is left is
      a part of the input, field for field. */
  predicate PassesRoutingChecks(input: map<string, Value>, name: string, next: string, out: State)
  {
    && out.name == name
    && (ResultPathKey in out.spec ==> out.spec[ResultPathKey] == Null)
    && (OutputPathKey in out.spec ==> out.spec[OutputPathKey] == Str(WholeInput))
    && TypeKey in out.spec
    && var rest := out.spec - {ResultPathKey, OutputPathKey};
       if EndsExecution(out.spec) then
         NextKey !in rest && EndKey !in rest && SubMap(rest, input)
       else if next == Terminal then
         EndKey in rest && rest[EndKey] == Bool(true) && NextKey !in rest && SubMap(rest - {EndKey}, input)
       else
         NextKey in rest && rest[NextKey] == Str(next) && EndKey !in rest && SubMap(rest - {NextKey}, input)
  }

  /** Any step that has a `Type`, is not Parallel and has no truthy `_stet`
      compiles, yields no resources, and passes the routing checks, for any
      successor. */
  lemma RoutingChecksHold(step: Step)
    requires TypeKey in step.spec && !IsParallel(step.spec) && !Stet(step.spec)
    ensures CompileNative(step).Ok? && CompileNative(step).value.resources == []
    ensures PassesRoutingChecks(step.spec, step.name, step.next, CompileNative(step).value.out)
  {
    var routed := NormalizeRouting(step.spec);
    var out := LinkSuccessor(routed, step.next);
    assert CompileNative(step).value.out.spec == out;
    assert out[TypeKey] == step.spec[TypeKey];
    var rest := out - {ResultPathKey, OutputPathKey};
    forall k | k in rest && k != NextKey && k != EndKey
      ensures k in step.spec && rest[k] == step.spec[k]
    {
      assert k in routed && out[k] == routed[k];
    }
  }

  /** One parametrized case of the routing test: compiling `input` as
      step_name with successor `next` passes the routing checks and yields
      no resources. */
  predicate RoutingCasePasses(input: map<string, Value>, next: string)
  {
    var r := CompileNative(Step(StepName, input, next));
    r.Ok? && r.value.resources == [] && PassesRoutingChecks(input, StepName, next, r.value.out)
  }

  /** A fixture with a `Type` other than Parallel and no `_stet` passes the
      routing test for any successor. */
  lemma RoutingFixturePasses(input: map<string, Value>, next: string)
    requires TypeKey in input && input[TypeKey].Str? && input[TypeKey].s != "Parallel"
    requires StetKey !in input
    ensures RoutingCasePasses(input, next)
  {
    RoutingChecksHold(Step(StepName, input, next));
  }

  /** The Pass cases of the routing test. */
  lemma PassFixturePasses(input: map<string, Value>)
    requires input == PassTest()
    ensures RoutingCasePasses(input, NextStep) && RoutingCasePasses(input, Terminal)
  {
    RoutingFixturePasses(input, NextStep);
    RoutingFixturePasses(input, Terminal);
  }

  /** The cases of the routing test built on `task_test`. */
  lemma TaskFixturePasses(input: map<string, Value>)
    requires input == TaskTest()
    ensures RoutingCasePasses(input, NextStep) && RoutingCasePasses(input, Terminal)
  {
    RoutingFixturePasses(input, NextStep);
    RoutingFixturePasses(input, Terminal);
  }

  /** The Wait cases of the routing test. */
  lemma WaitFixturePasses(input: map<string, Value>)
    requires input == WaitTest()
    ensures RoutingCasePasses(input, NextStep) && RoutingCasePasses(input, Terminal)
  {
    RoutingFixturePasses(input, NextStep);
    RoutingFixturePasses(input, Terminal);
  }

  /** The Succeed and Fail cases of the routing test, whose successor is
      never used. */
  lemma EndFixturesPass(succeed: map<string, Value>, fail: map<string, Value>)
    requires succeed == SucceedTest() && fail == FailTest()
    ensures RoutingCasePasses(succeed, "unused") && RoutingCasePasses(fail, "unused")
  {
    RoutingFixturePasses(succeed, "unused");
    RoutingFixturePasses(fail, "unused");
  }

  /** A Succeed or Fail state keeps every field of its step except the
      routing fields: it has no ResultPath, OutputPath, Next or End, and no
      `_stet`, whatever the input and the successor. */
  lemma EndStatesDropRouting(step: Step)
    requires EndsExecution(step.spec)
    ensures CompileNative(step).Ok? && CompileNative(step).value.resources == []
    ensures CompileNative(step).value.out.spec
         == step.spec - {StetKey, ResultPathKey, OutputPathKey, NextKey, EndKey}
  {
  }

  // ---------------------------------------------------------------------
  // The `_stet` test

  /** A truthy `_stet` keeps ResultPath and OutputPath as they are: the
      compiled fields are the input's without `_stet` and End, plus the
      Next link. */
  lemma StetKeepsRouting(step: Step)
    requires TypeKey in step.spec && !IsParallel(step.spec) && Stet(step.spec)
    requires !EndsExecution(step.spec) && step.next != Terminal
    ensures CompileNative(step).Ok? && CompileNative(step).value.resources == []
    ensures CompileNative(step).value.out.spec == (step.spec - {StetKey, EndKey})[NextKey := Str(step.next)]
  {
    var routed := NormalizeRouting(step.spec);
    var out := LinkSuccessor(routed, step.next);
    var wanted := (step.spec - {StetKey, EndKey})[NextKey := Str(step.next)];
    assert !EndsExecution(routed);
    assert out.Keys == wanted.Keys;
    forall k | k in out ensures out[k] == wanted[k] {
      if k != NextKey {
        assert out[k] == routed[k];
      }
    }
  }

  function StetTest(): map<string, Value>
  {
    map[TypeKey := Str("AnyType"), ResultPathKey := Str("keep_this_result_path"),
        OutputPathKey := Str("keep_this_output_path"), StetKey := Bool(true),
        "Other" := Str("stuff")]
  }

  /** The `_stet` test: the exact compiled fields and no resources. */
  lemma StetFixturePasses(step: Step)
    requires step == Step(StepName, StetTest(), NextStep)
    ensures var r := CompileNative(step);
      r.Ok? && r.value.resources == [] && r.value.out.name == StepName
      && r.value.out.spec
         == map[TypeKey := Str("AnyType"), ResultPathKey := Str("keep_this_result_path"),
                OutputPathKey := Str("keep_this_output_path"), "Other" := Str("stuff"),
                NextKey := Str(NextStep)]
  {
    StetKeepsRouting(step);
    var kept := step.spec - {StetKey, EndKey};
    assert kept == map[TypeKey := Str("AnyType"), ResultPathKey := Str("keep_this_result_path"),
                       OutputPathKey := Str("keep_this_output_path"), "Other" := Str("stuff")];
    assert kept[NextKey := Str(NextStep)]
      == map[TypeKey := Str("AnyType"), ResultPathKey := Str("keep_this_result_path"),
             OutputPathKey := Str("keep_this_output_path"), "Other" := Str("stuff"),
             NextKey := Str(NextStep)];
  }


  // ---------------------------------------------------------------------
  // The Parallel test

  /** The fields of one job step of the Parallel fixture. */
  function JobBody(image: string, input: (string, string), command: string, output: (string, string)): Value
  {
    Dict(map["image" := Str(image), "params" := Dict(map["i" := Int(1)]),
             "references" := Dict(map["m" := Str("s3://n")]),
             "inputs" := Dict(map[input.0 := Str(input.1)]),
             "commands" := List([Str(command)]),
             "outputs" := Dict(map[output.0 := Str(output.1)]),
             "compute" := Dict(map["cpus" := Int(1), "memory" := Int(4), "spot" := Bool(true)]),
             "skip_if_output_exists" := Bool(true)])
  }

  /** A branch entry: step `name` with fields `body`. */
  function Entry(name: string, body: Value): Value
  {
    Dict(map[name := body])
  }

  /** A branch holding the given entries as its `steps`. */
  function Branch(entries: seq<Value>): Value
  {
    Dict(map[StepsKey := List(entries)])
  }

  /** A Parallel step shaped like the one of the test: a first branch with
      steps `a` and `b`, a second with step `c`. */
  function TwoBranchParallel(a: string, ab: Value, b: string, bb: Value, c: string, cb: Value): map<string, Value>
  {
    map[TypeKey := Str("Parallel"), "inputs" := Dict(map[]),
        BranchesKey := List([Branch([Entry(a, ab), Entry(b, bb)]), Branch([Entry(c, cb)])]),
        NextKey := Override]
  }

  /** The Parallel step of the test: job steps do_this and do_that in the
      first branch, do_the_other in the second. */
  function ParallelTest(): map<string, Value>
  {
    TwoBranchParallel("do_this", JobBody("bclaw-blank", ("x", "y"), "etc", ("a", "b")),
                      "do_that", JobBody("bclaw-wut", ("p", "q"), "stuff", ("z", "t")),
                      "do_the_other", JobBody("who-dat", ("u", "v"), "woohoo", ("k", "l")))
  }

  /** A job body: a dictionary without `Type`. */
  predicate IsJobBody(v: Value)
  {
    v.Dict? && TypeKey !in v.fields
  }

  /** An entry is named by its only key and, with a job body, is a job step. */
  lemma JobEntry(name: string, body: Value)
    requires IsJobBody(body)
    ensures WellFormedEntry(Entry(name, body)) && EntryName(Entry(name, body)) == name
    ensures TypeKey !in EntryBody(Entry(name, body)) && EntryCompilable(Entry(name, body))
    ensures EntryJobSteps(Entry(name, body)) == [name]
  {
    assert EntryName(Entry(name, body)) == name;
  }

  /** A two-branch Parallel step of job entries compiles. */
  lemma TwoBranchCompiles(a: string, ab: Value, b: string, bb: Value, c: string, cb: Value)
    requires IsJobBody(ab) && IsJobBody(bb) && IsJobBody(cb)
    ensures Compilable(TwoBranchParallel(a, ab, b, bb, c, cb))
  {
    JobEntry(a, ab);
    JobEntry(b, bb);
    JobEntry(c, cb);
    var es := [Entry(a, ab), Entry(b, bb)];
    assert EntriesCompilable(es, 1);
    assert EntriesCompilable(es, 2);
    var fs := [Entry(c, cb)];
    assert EntriesCompilable(fs, 1);
    assert BranchEntries(Branch(es)) == es && BranchCompilable(Branch(es));
    assert BranchEntries(Branch(fs)) == fs && BranchCompilable(Branch(fs));
    var bs := [Branch(es), Branch(fs)];
    assert BranchesCompilable(bs, 1);
    assert BranchesCompilable(bs, 2);
  }

  /** The job steps of a two-branch Parallel step of job entries are its
      three step names, in order. */
  lemma TwoBranchJobSteps(a: string, ab: Value, b: string, bb: Value, c: string, cb: Value)
    requires IsJobBody(ab) && IsJobBody(bb) && IsJobBody(cb)
    ensures JobSteps(TwoBranchParallel(a, ab, b, bb, c, cb)) == [a, b, c]
  {
    JobEntry(a, ab);
    JobEntry(b, bb);
    JobEntry(c, cb);
    var es := [Entry(a, ab), Entry(b, bb)];
    assert EntriesJobSteps(es, 1) == [a];
    assert EntriesJobSteps(es, 2) == [a, b];
    var fs := [Entry(c, cb)];
    assert EntriesJobSteps(fs, 1) == [c];
    var bs := [Branch(es), Branch(fs)];
    assert BranchesJobSteps(bs, 1) == [a, b];
    assert BranchesJobSteps(bs, 2) == [a, b, c];
  }

  /** The step names of the two branches. */
  lemma TwoBranchNames(a: string, ab: Value, b: string, bb: Value, c: string, cb: Value)
    requires IsJobBody(ab) && IsJobBody(bb) && IsJobBody(cb)
    ensures var bs := TwoBranchParallel(a, ab, b, bb, c, cb)[BranchesKey].items;
      WellFormedBranch(bs[0]) && DeclaredNames(BranchEntries(bs[0]), 2) == {a, b}
      && WellFormedBranch(bs[1]) && DeclaredNames(BranchEntries(bs[1]), 1) == {c}
  {
    JobEntry(a, ab);
    JobEntry(b, bb);
    JobEntry(c, cb);
    var es := [Entry(a, ab), Entry(b, bb)];
    assert DeclaredNames(es, 2) == {a, b} by {
      assert EntryName(es[0]) == a && EntryName(es[1]) == b;
    }
    var fs := [Entry(c, cb)];
    assert DeclaredNames(fs, 1) == {c} by {
      assert EntryName(fs[0]) == c;
    }
  }

  /** Compiling a two-branch Parallel step of job entries: the state is
      named after the step, keeps its type, discards the result, passes its
      whole input on, links to the successor, and holds two branches whose
      States are named after their steps; the resources are the job
      definitions of the three steps, in order. */
  lemma TwoBranchCompiled(step: Step, a: string, ab: Value, b: string, bb: Value, c: string, cb: Value)
    requires IsJobBody(ab) && IsJobBody(bb) && IsJobBody(cb)
    requires step.spec == TwoBranchParallel(a, ab, b, bb, c, cb) && step.next != Terminal
    ensures var r := CompileNative(step);
      r.Ok? && r.value.out.name == step.name
      && var out := r.value.out.spec;
      TypeKey in out && out[TypeKey] == Str("Parallel")
      && ResultPathKey in out && out[ResultPathKey] == Null
      && OutputPathKey in out && out[OutputPathKey] == Str(WholeInput)
      && NextKey in out && out[NextKey] == Str(step.next)
      && BranchesKey in out && out[BranchesKey].List? && |out[BranchesKey].items| == 2
      && StatesNames(out[BranchesKey].items[0]) == {a, b}
      && StatesNames(out[BranchesKey].items[1]) == {c}
      && r.value.resources == JobDefinitions([a, b, c])
  {
    TwoBranchCompiles(a, ab, b, bb, c, cb);
    CompileNativeOk(step);
    ParallelCompiled(step);
    TwoBranchNames(a, ab, b, bb, c, cb);
    TwoBranchJobSteps(a, ab, b, bb, c, cb);
    var bs := step.spec[BranchesKey].items;
    var compiled := CompileNative(step).value.out.spec[BranchesKey].items;
    assert CompiledBranch(bs[0], compiled[0]);
    assert CompiledBranch(bs[1], compiled[1]);
  }

  /** The Parallel test: the compiled state keeps its name and type,
      discards the result, passes its whole input on, links to the next
      step, has both branches with exactly their step names as States, and
      the resources are the three job definitions, each named after its job
      step and of type AWS::Batch::JobDefinition. */
  lemma ParallelFixturePasses(step: Step)
    requires step == Step(StepName, ParallelTest(), NextStep)
    ensures var r := CompileNative(step);
      r.Ok? && r.value.out.name == StepName
      && var out := r.value.out.spec;
      TypeKey in out && out[TypeKey] == Str("Parallel")
      && ResultPathKey in out && out[ResultPathKey] == Null
      && OutputPathKey in out && out[OutputPathKey] == Str(WholeInput)
      && NextKey in out && out[NextKey] == Str(NextStep)
      && BranchesKey in out && out[BranchesKey].List? && |out[BranchesKey].items| == 2
      && StatesNames(out[BranchesKey].items[0]) == {"do_this", "do_that"}
      && StatesNames(out[BranchesKey].items[1]) == {"do_the_other"}
      && |r.value.resources| == 3
      && (forall res | res in r.value.resources ::
            res.name in {"DoThisJobDef", "DoThatJobDef", "DoTheOtherJobDef"}
            && TypeKey in res.spec && res.spec[TypeKey] == Str(JobDefinitionType))
  {
    var ab, bb, cb := JobBody("bclaw-blank", ("x", "y"), "etc", ("a", "b")), JobBody("bclaw-wut", ("p", "q"), "stuff", ("z", "t")), JobBody("who-dat", ("u", "v"), "woohoo", ("k", "l"));
    TwoBranchCompiled(step, "do_this", ab, "do_that", bb, "do_the_other", cb);
    ParallelFixtureResources(CompileNative(step).value.resources, ["do_this", "do_that", "do_the_other"]);
  }

  /** The job definitions of the fixture's job steps are the three the
      test names, each of type AWS::Batch::JobDefinition. */
  lemma ParallelFixtureResources(resources: seq<Resource>, names: seq<string>)
    requires names == ["do_this", "do_that", "do_the_other"] && resources == JobDefinitions(names)
    ensures |resources| == 3
    ensures forall res | res in resources ::
      res.name in {"DoThisJobDef", "DoThatJobDef", "DoTheOtherJobDef"}
      && TypeKey in res.spec && res.spec[TypeKey] == Str(JobDefinitionType)
  {
    JobDefNamesOfParallelTest();
    assert resources[0].name == JobDefName(names[0]) == "DoThisJobDef";
    assert resources[1].name == JobDefName(names[1]) == "DoThatJobDef";
    assert resources[2].name == JobDefName(names[2]) == "DoTheOtherJobDef";
    forall res | res in resources
      ensures res.name in {"DoThisJobDef", "DoThatJobDef", "DoTheOtherJobDef"}
      ensures TypeKey in res.spec && res.spec[TypeKey] == Str(JobDefinitionType)
    {
      var i :| 0 <= i < 3 && resources[i] == res;
      assert res == JobDefinition(names[i]);
      if i == 0 {
        assert res.name == "DoThisJobDef";
      } else if i == 1 {
        assert res.name == "DoThatJobDef";
      } else {
        assert res.name == "DoTheOtherJobDef";
      }
    }
  }

  /** The step names of a compiled branch: the keys of its States. */
  function StatesNames(branch: Value): set<string>
  {
    if branch.Dict? && StatesKey in branch.fields && branch.fields[StatesKey].Dict? then
      branch.fields[StatesKey].fields.Keys
    else {}
  }

  // ---------------------------------------------------------------------
  // Absence of Next and End, as the routing test writes it

  /** `key in result` on the compiled State, a named tuple of a name and a
      fields dictionary: Python compares `key` with each member of the
      tuple, and a string equals the name at most, never the dictionary. */
  predicate InStateTuple(key: string, s: State)
  {
    key == s.name
  }

  /** The routing checks with the absence of Next and End tested on the
      tuple rather than on its fields, as the test writes them. */
  predicate PassesRoutingChecksAsWritten(input: map<string, Value>, name: string, next: string, out: State)
  {
    && out.name == name
    && (ResultPathKey in out.spec ==> out.spec[ResultPathKey] == Null)
    && (OutputPathKey in out.spec ==> out.spec[OutputPathKey] == Str(WholeInput))
    && TypeKey in out.spec
    && var rest := out.spec - {ResultPathKey, OutputPathKey};
       if EndsExecution(out.spec) then
         !InStateTuple(NextKey, out) && !InStateTuple(EndKey, out) && SubMap(rest, input)
       else if next == Terminal then
         EndKey in rest && rest[EndKey] == Bool(true) && !InStateTuple(NextKey, out) && SubMap(rest - {EndKey}, input)
       else
         NextKey in rest && rest[NextKey] == Str(next) && !InStateTuple(EndKey, out) && SubMap(rest - {NextKey}, input)
  }

  /** A compiled Pass state that keeps the input's `End: false` beside its
      Next link. */
  function LeakyState(): State
  {
    State(StepName, map[TypeKey := Str("Pass"), NextKey := Str(NextStep), EndKey := Bool(false)])
  }

  /** The checks as written accept a state that carries both Next and End,
      which the corrected checks and the successor link both reject. */
  lemma AsWrittenAcceptsLeakyState(input: map<string, Value>, s: State)
    requires input == PassTest() && s == LeakyState()
    ensures PassesRoutingChecksAsWritten(input, StepName, NextStep, s)
    ensures !PassesRoutingChecks(input, StepName, NextStep, s)
    ensures !Linked(s.spec, NextStep)
  {
    var rest := s.spec - {ResultPathKey, OutputPathKey};
    assert rest == s.spec;
    assert !EndsExecution(s.spec);
    assert EndKey in rest;
    var kept := rest - {NextKey};
    assert kept == map[TypeKey := Str("Pass"), EndKey := Bool(false)];
    assert SubMap(kept, input);
  }

  /** The corrected checks are the stronger ones: for a step not named
      Next or End, a state that passes them passes the checks as written. */
  lemma CorrectedChecksImplyAsWritten(input: map<string, Value>, name: string, next: string, out: State)
    requires name != NextKey && name != EndKey
    requires PassesRoutingChecks(input, name, next, out)
    ensures PassesRoutingChecksAsWritten(input, name, next, out)
  {
  }
}
