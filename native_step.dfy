/** The native step compiler: turns one workflow step whose `Type` names an
    Amazon States Language state (Pass, Task, Wait, Succeed, Fail, Parallel,
    or any other type string) into that state. It rewrites the result
    routing fields and the successor link, copies every other field, and for
    a `Parallel` step compiles each branch, collecting the job definition
    resources that the job steps inside the branches need. */
module NativeSteps {
  import opened Values
  import opened JobNames

  const TypeKey := "Type"
  const ResultPathKey := "ResultPath"
  const OutputPathKey := "OutputPath"
  const NextKey := "Next"
  const EndKey := "End"
  const StetKey := "_stet"
  const BranchesKey := "Branches"
  const StepsKey := "steps"
  const StatesKey := "States"
  /** The successor designator of a step that ends its sequence. */
  const Terminal := ""
  /** The pass-through path written over every OutputPath. */
  const WholeInput := "$"
  const JobDefinitionType := "AWS::Batch::JobDefinition"

  /** One source step: its name, its raw fields and the name of the step that
      follows it (`Terminal` when none does). */
  datatype Step = Step(name: string, spec: map<string, Value>, next: string)
  /** One compiled state machine state. */
  datatype State = State(name: string, spec: map<string, Value>)
  /** One infrastructure resource needed by a compiled job step. */
  datatype Resource = Resource(name: string, spec: map<string, Value>)

  datatype Error =
    | UnrecognizedStepType(step: string)
    | MalformedBranchStructure(step: string)

  datatype Result<T> = Ok(value: T) | Err(error: Error)

  /** What compiling something yields: its output and, in discovery order,
      the resources found on the way. */
  datatype Collected<T> = Collected(out: T, resources: seq<Resource>)

  predicate HasType(spec: map<string, Value>, t: string)
  {
    TypeKey in spec && spec[TypeKey] == Str(t)
  }

  predicate IsParallel(spec: map<string, Value>)
  {
    HasType(spec, "Parallel")
  }

  /** Succeed and Fail states end the execution and never get Next or End. */
  predicate EndsExecution(spec: map<string, Value>)
  {
    HasType(spec, "Succeed") || HasType(spec, "Fail")
  }

  /** A truthy `_stet` marker exempts a step's routing fields from rewriting. */
  predicate Stet(spec: map<string, Value>)
  {
    StetKey in spec && Truthy(spec[StetKey])
  }

  /** The successor link a compiled state must carry for successor `next`. */
  predicate Linked(spec: map<string, Value>, next: string)
  {
    if EndsExecution(spec) then NextKey !in spec && EndKey !in spec
    else if next == Terminal then EndKey in spec && spec[EndKey] == Bool(true) && NextKey !in spec
    else NextKey in spec && spec[NextKey] == Str(next) && EndKey !in spec
  }

  /** A compiled state held as a value (an entry of a branch's States). */
  predicate LinkedState(v: Value, next: string)
  {
    v.Dict? && Linked(v.fields, next)
  }

  // ---------------------------------------------------------------------
  // Field rewriting

  /** ResultPath and OutputPath of a step other than Parallel. A Succeed or
      Fail state never carries either field. Any other step keeps both as
      they are under a truthy `_stet`; without one, a present ResultPath
      becomes null (discard the result) and a present OutputPath becomes
      "$", and neither is added when absent. The `_stet` key itself is
      always dropped and nothing else changes. */
  function NormalizeRouting(spec: map<string, Value>): (r: map<string, Value>)
    ensures EndsExecution(spec) ==> r.Keys == spec.Keys - {StetKey, ResultPathKey, OutputPathKey}
    ensures !EndsExecution(spec) ==> r.Keys == spec.Keys - {StetKey}
    ensures forall k :: k in r && k != ResultPathKey && k != OutputPathKey ==> r[k] == spec[k]
    ensures Stet(spec) ==> forall k :: k in r ==> r[k] == spec[k]
    ensures !Stet(spec) && ResultPathKey in r ==> r[ResultPathKey] == Null
    ensures !Stet(spec) && OutputPathKey in r ==> r[OutputPathKey] == Str(WholeInput)
  {
    var kept := spec - {StetKey};
    if EndsExecution(spec) then kept - {ResultPathKey, OutputPathKey}
    else if Stet(spec) then kept
    else
      var discarded := if ResultPathKey in kept then kept[ResultPathKey := Null] else kept;
      if OutputPathKey in discarded then discarded[OutputPathKey := Str(WholeInput)] else discarded
  }

  /** The fields of a compiled Parallel state: the compiled branches replace
      the source branches and `_stet` is dropped. Under a truthy `_stet`,
      ResultPath and OutputPath are kept as they are; without one,
      ResultPath is null and OutputPath is "$" whether or not the source had
      them. The rest is copied. */
  function NormalizeParallel(spec: map<string, Value>, branches: seq<Value>): (r: map<string, Value>)
    ensures Stet(spec) ==> r.Keys == spec.Keys - {StetKey} + {BranchesKey}
    ensures !Stet(spec) ==> r.Keys == spec.Keys - {StetKey} + {BranchesKey, ResultPathKey, OutputPathKey}
    ensures r[BranchesKey] == List(branches)
    ensures Stet(spec) ==> forall k :: k in r && k != BranchesKey ==> r[k] == spec[k]
    ensures !Stet(spec) ==> r[ResultPathKey] == Null && r[OutputPathKey] == Str(WholeInput)
    ensures forall k :: k in r && k != BranchesKey && k != ResultPathKey && k != OutputPathKey ==> r[k] == spec[k]
  {
    var kept := (spec - {StetKey})[BranchesKey := List(branches)];
    if Stet(spec) then kept
    else kept[ResultPathKey := Null][OutputPathKey := Str(WholeInput)]
  }

  /** Writes the successor link: Succeed and Fail get neither Next nor End,
      a terminal step gets `End: true` and no Next, any other step gets
      `Next: next` and no End. Every other field is kept as it is. */
  function LinkSuccessor(spec: map<string, Value>, next: string): (r: map<string, Value>)
    ensures Linked(r, next)
    ensures forall k :: k != NextKey && k != EndKey ==> (k in r <==> k in spec)
    ensures forall k :: k in r && k != NextKey && k != EndKey ==> r[k] == spec[k]
  {
    if EndsExecution(spec) then spec - {NextKey, EndKey}
    else if next == Terminal then (spec - {NextKey})[EndKey := Bool(true)]
    else (spec - {EndKey})[NextKey := Str(next)]
  }

  // ---------------------------------------------------------------------
  // Branch structure of a Parallel step

  /** A branch entry is a one-key dictionary from a step name to its body. */
  predicate WellFormedEntry(e: Value)
  {
    e.Dict? && |e.fields| == 1 && forall k :: k in e.fields ==> e.fields[k].Dict?
  }

  function EntryName(e: Value): string
    requires WellFormedEntry(e)
  {
    SoleKey(e.fields)
  }

  function EntryBody(e: Value): map<string, Value>
    requires WellFormedEntry(e)
  {
    e.fields[EntryName(e)].fields
  }

  /** A branch is a dictionary whose `steps` is a non-empty list of entries. */
  predicate WellFormedBranch(b: Value)
  {
    b.Dict? && StepsKey in b.fields && b.fields[StepsKey].List? && |b.fields[StepsKey].items| > 0
    && forall e :: e in b.fields[StepsKey].items ==> WellFormedEntry(e)
  }

  function BranchEntries(b: Value): seq<Value>
    requires WellFormedBranch(b)
  {
    b.fields[StepsKey].items
  }

  /** A Parallel step's `Branches` must be a non-empty list. */
  predicate WellFormedBranches(spec: map<string, Value>)
  {
    BranchesKey in spec && spec[BranchesKey].List? && |spec[BranchesKey].items| > 0
  }

  /** Inside a branch, each step is followed by the next entry; the last
      one ends the branch. */
  function Successor(es: seq<Value>, i: nat): string
    requires i < |es| && forall e :: e in es ==> WellFormedEntry(e)
  {
    if i + 1 < |es| then EntryName(es[i + 1]) else Terminal
  }

  /** The step names declared by the first `n` entries of a branch. */
  function DeclaredNames(es: seq<Value>, n: nat): set<string>
    requires n <= |es| && forall e :: e in es ==> WellFormedEntry(e)
  {
    set i | 0 <= i < n :: EntryName(es[i])
  }

  /** Entry `i` is the last of the first `n` to declare its name, so its
      state is the one a name-keyed States map keeps. */
  predicate LastDeclaration(es: seq<Value>, n: nat, i: nat)
    requires i < n <= |es| && forall e :: e in es ==> WellFormedEntry(e)
  {
    forall j :: i < j < n ==> EntryName(es[j]) != EntryName(es[i])
  }

  /** `v` is the compiled state of entry `i` of a branch, as a States
      value: entry `i` compiles, `v` holds the fields of its state, and that
      state is linked to the entry after it. */
  predicate EntryCompiledTo(es: seq<Value>, i: nat, v: Value)
    requires i < |es| && forall e :: e in es ==> WellFormedEntry(e)
  {
    CompileEntry(es, i).Ok? && v == Dict(CompileEntry(es, i).value.out.spec)
    && LinkedState(v, Successor(es, i))
  }

  /** `states` is the States map of the first `n` entries of a branch: its
      keys are exactly their step names, and the state kept for each name is
      the compiled state of its last declaration. */
  predicate StatesOf(es: seq<Value>, n: nat, states: map<string, Value>)
    requires n <= |es| && forall e :: e in es ==> WellFormedEntry(e)
  {
    && states.Keys == DeclaredNames(es, n)
    && forall i :: 0 <= i < n && LastDeclaration(es, n, i) ==>
         EntryCompiledTo(es, i, states[EntryName(es[i])])
  }

  /** `v` is the compiled form of branch `b`: a dictionary holding only
      `States`, which is the States map of all the branch's entries. */
  predicate CompiledBranch(b: Value, v: Value)
    requires WellFormedBranch(b)
  {
    var es := BranchEntries(b);
    v.Dict? && v.fields.Keys == {StatesKey} && v.fields[StatesKey].Dict?
    && StatesOf(es, |es|, v.fields[StatesKey].fields)
  }

  /** `out` is the compiled form of the branch list `bs`, branch for branch
      and in the same order. */
  predicate CompiledBranches(bs: seq<Value>, out: seq<Value>)
  {
    |out| == |bs| && forall i :: 0 <= i < |bs| ==> WellFormedBranch(bs[i]) && CompiledBranch(bs[i], out[i])
  }

  // ---------------------------------------------------------------------
  // Job steps (compiled by a collaborator; only its asserted outputs)

  /** The state a job step compiles to: a Task linked to its successor. */
  function JobState(name: string, next: string): State
  {
    State(name, LinkSuccessor(map[TypeKey := Str("Task")], next))
  }

  /** The job definition resource a job step needs. */
  function JobDefinition(name: string): Resource
  {
    Resource(JobDefName(name), map[TypeKey := Str(JobDefinitionType)])
  }

  function JobDefinitions(names: seq<string>): seq<Resource>
  {
    seq(|names|, i requires 0 <= i < |names| => JobDefinition(names[i]))
  }

  lemma JobDefinitionsAppend(a: seq<string>, b: seq<string>)
    ensures JobDefinitions(a + b) == JobDefinitions(a) + JobDefinitions(b)
  {
  }

  // ---------------------------------------------------------------------
  // Reference definition: the job steps of a step, in discovery order

  /** The names of the job steps found in a step's Parallel branches, depth
      first, in branch order and entry order. */
  function JobSteps(spec: map<string, Value>): seq<string>
    decreases Dict(spec), 0
  {
    if IsParallel(spec) && BranchesKey in spec && spec[BranchesKey].List? then
      BranchesJobSteps(spec[BranchesKey].items, |spec[BranchesKey].items|)
    else []
  }

  function BranchesJobSteps(bs: seq<Value>, n: nat): seq<string>
    requires n <= |bs|
    decreases List(bs), n
  {
    if n == 0 then [] else BranchesJobSteps(bs, n - 1) + BranchJobSteps(bs[n - 1])
  }

  function BranchJobSteps(b: Value): seq<string>
    decreases b, 0
  {
    if b.Dict? && StepsKey in b.fields && b.fields[StepsKey].List? then
      EntriesJobSteps(b.fields[StepsKey].items, |b.fields[StepsKey].items|)
    else []
  }

  function EntriesJobSteps(es: seq<Value>, n: nat): seq<string>
    requires n <= |es|
    decreases List(es), n
  {
    if n == 0 then [] else EntriesJobSteps(es, n - 1) + EntryJobSteps(es[n - 1])
  }

  /** A job entry is a job step itself; a native entry holds the job steps
      of its own branches. */
  function EntryJobSteps(e: Value): seq<string>
    decreases e, 0
  {
    if !WellFormedEntry(e) then []
    else
      assert Dict(EntryBody(e)) == e.fields[EntryName(e)];
      if TypeKey in EntryBody(e) then JobSteps(EntryBody(e)) else [EntryName(e)]
  }

  // ---------------------------------------------------------------------
  // The compiler

  /** Compiles one native step into one state named after the step, plus
      the job definition resources discovered in its Parallel branches. */
  function CompileNative(step: Step): (r: Result<Collected<State>>)
    decreases Dict(step.spec), 0
    ensures TypeKey !in step.spec ==> r == Err(UnrecognizedStepType(step.name))
    ensures TypeKey in step.spec && !IsParallel(step.spec) ==> r.Ok? && r.value.resources == []
    ensures TypeKey in step.spec && r.Err? ==> r.error == MalformedBranchStructure(r.error.step)
    ensures r.Ok? ==> r.value.out.name == step.name && Linked(r.value.out.spec, step.next)
    ensures r.Ok? ==> TypeKey in r.value.out.spec && r.value.out.spec[TypeKey] == step.spec[TypeKey]
    ensures r.Ok? ==> r.value.resources == JobDefinitions(JobSteps(step.spec))
  {
    if TypeKey !in step.spec then Err(UnrecognizedStepType(step.name))
    else if !IsParallel(step.spec) then
      Ok(Collected(State(step.name, LinkSuccessor(NormalizeRouting(step.spec), step.next)), []))
    else if !WellFormedBranches(step.spec) then Err(MalformedBranchStructure(step.name))
    else
      var bs := step.spec[BranchesKey].items;
      match CompileBranches(step.name, bs, |bs|)
      case Err(e) => Err(e)
      case Ok(c) =>
        Ok(Collected(State(step.name, LinkSuccessor(NormalizeParallel(step.spec, c.out), step.next)), c.resources))
  }

  /** Compiles the first `n` branches of Parallel step `owner`, in order. */
  function CompileBranches(owner: string, bs: seq<Value>, n: nat): (r: Result<Collected<seq<Value>>>)
    requires n <= |bs|
    decreases List(bs), n
    ensures r.Err? ==> r.error == MalformedBranchStructure(r.error.step)
    ensures r.Ok? ==> r.value.resources == JobDefinitions(BranchesJobSteps(bs, n))
  {
    if n == 0 then Ok(Collected([], []))
    else
      match CompileBranches(owner, bs, n - 1)
      case Err(e) => Err(e)
      case Ok(done) =>
        match CompileBranch(owner, bs[n - 1])
        case Err(e) => Err(e)
        case Ok(b) =>
          JobDefinitionsAppend(BranchesJobSteps(bs, n - 1), BranchJobSteps(bs[n - 1]));
          Ok(Collected(done.out + [b.out], done.resources + b.resources))
  }

  /** Compiles one branch into `{States: ...}`, every entry linked to the
      entry after it. */
  function CompileBranch(owner: string, b: Value): (r: Result<Collected<Value>>)
    decreases b, 0
    ensures r.Err? ==> r.error == MalformedBranchStructure(r.error.step)
    ensures r.Ok? ==> r.value.resources == JobDefinitions(BranchJobSteps(b))
  {
    if !WellFormedBranch(b) then Err(MalformedBranchStructure(owner))
    else
      var es := BranchEntries(b);
      match CompileEntries(es, |es|)
      case Err(e) => Err(e)
      case Ok(c) => Ok(Collected(Dict(map[StatesKey := Dict(c.out)]), c.resources))
  }

  /** Compiles entry `i` of a branch, linked to the entry after it: an
      entry whose body has a `Type` is a native step, compiled recursively;
      any other is a job step, which gives a Task state and its job
      definition. */
  function CompileEntry(es: seq<Value>, i: nat): (r: Result<Collected<State>>)
    requires i < |es| && forall e :: e in es ==> WellFormedEntry(e)
    decreases List(es), i
    ensures r.Err? ==> r.error == MalformedBranchStructure(r.error.step)
    ensures r.Ok? ==> r.value.out.name == EntryName(es[i]) && Linked(r.value.out.spec, Successor(es, i))
    ensures r.Ok? ==> r.value.resources == JobDefinitions(EntryJobSteps(es[i]))
  {
    var e := es[i];
    var name := EntryName(e);
    var body := EntryBody(e);
    assert Dict(body) == e.fields[name];
    if TypeKey in body then CompileNative(Step(name, body, Successor(es, i)))
    else Ok(Collected(JobState(name, Successor(es, i)), [JobDefinition(name)]))
  }

  /** Compiles the first `n` entries of a branch into a States map keyed by
      step name. */
  function CompileEntries(es: seq<Value>, n: nat): (r: Result<Collected<map<string, Value>>>)
    requires n <= |es| && forall e :: e in es ==> WellFormedEntry(e)
    decreases List(es), n
    ensures r.Err? ==> r.error == MalformedBranchStructure(r.error.step)
    ensures r.Ok? ==> r.value.resources == JobDefinitions(EntriesJobSteps(es, n))
  {
    if n == 0 then Ok(Collected(map[], []))
    else
      match CompileEntries(es, n - 1)
      case Err(e) => Err(e)
      case Ok(done) =>
        match CompileEntry(es, n - 1)
        case Err(err) => Err(err)
        case Ok(c) =>
          JobDefinitionsAppend(EntriesJobSteps(es, n - 1), EntryJobSteps(es[n - 1]));
          Ok(Collected(done.out[c.out.name := Dict(c.out.spec)], done.resources + c.resources))
  }

  /** Adding the state of entry `n - 1` to the States map of the entries
      before it gives the States map of the first `n` entries: its keys are
      their names, and every entry that is the last to declare its name has
      its own compiled state there. */
  lemma StatesExtended(es: seq<Value>, n: nat, states: map<string, Value>, v: Value)
    requires 0 < n <= |es| && forall e :: e in es ==> WellFormedEntry(e)
    requires StatesOf(es, n - 1, states)
    requires EntryCompiledTo(es, n - 1, v)
    ensures StatesOf(es, n, states[EntryName(es[n - 1]) := v])
  {
    NamesExtended(es, n);
    LinksExtended(es, n, states, v);
  }

  /** Declaring entry `n - 1` adds exactly its name to the declared names. */
  lemma NamesExtended(es: seq<Value>, n: nat)
    requires 0 < n <= |es| && forall e :: e in es ==> WellFormedEntry(e)
    ensures DeclaredNames(es, n) == DeclaredNames(es, n - 1) + {EntryName(es[n - 1])}
  {
    forall x | x in DeclaredNames(es, n) ensures x in DeclaredNames(es, n - 1) + {EntryName(es[n - 1])} {
      var i :| 0 <= i < n && EntryName(es[i]) == x;
      if i < n - 1 {
        assert x in DeclaredNames(es, n - 1);
      }
    }
  }

  /** Storing the state of entry `n - 1` under its name keeps the compiled
      state of every last declaration in its place. */
  lemma LinksExtended(es: seq<Value>, n: nat, states: map<string, Value>, v: Value)
    requires 0 < n <= |es| && forall e :: e in es ==> WellFormedEntry(e)
    requires forall i :: 0 <= i < n - 1 && LastDeclaration(es, n - 1, i) ==>
      EntryName(es[i]) in states && EntryCompiledTo(es, i, states[EntryName(es[i])])
    requires EntryCompiledTo(es, n - 1, v)
    ensures var updated := states[EntryName(es[n - 1]) := v];
      forall i :: 0 <= i < n && LastDeclaration(es, n, i) ==>
        EntryName(es[i]) in updated && EntryCompiledTo(es, i, updated[EntryName(es[i])])
  {
    var updated := states[EntryName(es[n - 1]) := v];
    forall i | 0 <= i < n && LastDeclaration(es, n, i)
      ensures EntryName(es[i]) in updated && EntryCompiledTo(es, i, updated[EntryName(es[i])])
    {
      if i < n - 1 {
        assert EntryName(es[n - 1]) != EntryName(es[i]);
        assert LastDeclaration(es, n - 1, i);
        assert updated[EntryName(es[i])] == states[EntryName(es[i])];
      }
    }
  }

  /** Compiling the branches stops at the first malformed one: once the
      first `i` branches fail, so do the first `n`, with the same error. */
  lemma {:induction false} BranchesErrorPersists(owner: string, bs: seq<Value>, i: nat, n: nat)
    requires i <= n <= |bs| && CompileBranches(owner, bs, i).Err?
    ensures CompileBranches(owner, bs, n) == CompileBranches(owner, bs, i)
    decreases n
  {
    if n > i {
      BranchesErrorPersists(owner, bs, i, n - 1);
      var prev := CompileBranches(owner, bs, n - 1);
      assert prev.Err?;
      assert CompileBranches(owner, bs, n) == Err(prev.error);
    }
  }

  /** Compiling the entries of a branch stops at the first failure. */
  lemma {:induction false} EntriesErrorPersists(es: seq<Value>, i: nat, n: nat)
    requires i <= n <= |es| && forall e :: e in es ==> WellFormedEntry(e)
    requires CompileEntries(es, i).Err?
    ensures CompileEntries(es, n) == CompileEntries(es, i)
    decreases n
  {
    if n > i {
      EntriesErrorPersists(es, i, n - 1);
    }
  }

  /** One step of CompileBranches, once the first `n - 1` branches compiled. */
  lemma BranchesStep(owner: string, bs: seq<Value>, n: nat)
    requires 0 < n <= |bs| && CompileBranches(owner, bs, n - 1).Ok?
    ensures var done, b := CompileBranches(owner, bs, n - 1).value, CompileBranch(owner, bs[n - 1]);
      CompileBranches(owner, bs, n)
        == if b.Err? then Err(b.error)
           else Ok(Collected(done.out + [b.value.out], done.resources + b.value.resources))
  {
  }

  /** One step of CompileEntries, once the first `n - 1` entries compiled. */
  lemma EntriesStep(es: seq<Value>, n: nat)
    requires 0 < n <= |es| && forall e :: e in es ==> WellFormedEntry(e)
    requires CompileEntries(es, n - 1).Ok?
    ensures var done, c := CompileEntries(es, n - 1).value, CompileEntry(es, n - 1);
      CompileEntries(es, n)
        == if c.Err? then Err(c.error)
           else Ok(Collected(done.out[c.value.out.name := Dict(c.value.out.spec)], done.resources + c.value.resources))
  {
  }

  // ---------------------------------------------------------------------
  // Shape of the compiled branches

  /** The States map of the first `n` entries of a branch has exactly their
      step names as keys, and each entry that is the last to declare its
      name has there its own compiled state, linked to the entry after it. */
  lemma {:induction false} EntriesStates(es: seq<Value>, n: nat)
    requires n <= |es| && forall e :: e in es ==> WellFormedEntry(e)
    ensures CompileEntries(es, n).Ok? ==> StatesOf(es, n, CompileEntries(es, n).value.out)
  {
    if n == 0 {
      NoEntriesNoStates(es);
    } else {
      EntriesStates(es, n - 1);
      EntriesStatesStep(es, n);
    }
  }

  /** No entries compile to an empty States map. */
  lemma NoEntriesNoStates(es: seq<Value>)
    requires forall e :: e in es ==> WellFormedEntry(e)
    ensures CompileEntries(es, 0) == Ok(Collected(map[], []))
    ensures StatesOf(es, 0, map[])
  {
    assert DeclaredNames(es, 0) == {};
  }

  /** The induction step of EntriesStates: compiling one more entry keeps
      the States map in step with the entries compiled so far. */
  lemma EntriesStatesStep(es: seq<Value>, n: nat)
    requires 0 < n <= |es| && forall e :: e in es ==> WellFormedEntry(e)
    requires CompileEntries(es, n - 1).Ok? ==> StatesOf(es, n - 1, CompileEntries(es, n - 1).value.out)
    ensures CompileEntries(es, n).Ok? ==> StatesOf(es, n, CompileEntries(es, n).value.out)
  {
    if CompileEntries(es, n).Ok? {
      EntriesErrorPersistsBack(es, n);
      StatesAfterEntry(es, n);
    }
  }

  /** One more entry extends a States map that matches the entries before
      it into one that matches all of them. */
  lemma StatesAfterEntry(es: seq<Value>, n: nat)
    requires 0 < n <= |es| && forall e :: e in es ==> WellFormedEntry(e)
    requires CompileEntries(es, n).Ok? && CompileEntries(es, n - 1).Ok?
    requires StatesOf(es, n - 1, CompileEntries(es, n - 1).value.out)
    ensures StatesOf(es, n, CompileEntries(es, n).value.out)
  {
    EntriesStep(es, n);
    var done := CompileEntries(es, n - 1).value.out;
    var c := CompileEntry(es, n - 1).value.out;
    assert EntryCompiledTo(es, n - 1, Dict(c.spec));
    StatesExtended(es, n, done, Dict(c.spec));
    assert CompileEntries(es, n).value.out == done[EntryName(es[n - 1]) := Dict(c.spec)];
  }

  /** A failure among the first `n - 1` entries is a failure of the first `n`. */
  lemma EntriesErrorPersistsBack(es: seq<Value>, n: nat)
    requires 0 < n <= |es| && forall e :: e in es ==> WellFormedEntry(e)
    requires CompileEntries(es, n).Ok?
    ensures CompileEntries(es, n - 1).Ok? && CompileEntry(es, n - 1).Ok?
  {
  }

  /** A compiled branch is `{States: ...}` with one state per step name:
      the compiled state of that step, chained in the order of the branch. */
  lemma BranchCompiled(owner: string, b: Value)
    requires CompileBranch(owner, b).Ok?
    ensures WellFormedBranch(b) && CompiledBranch(b, CompileBranch(owner, b).value.out)
  {
    var es := BranchEntries(b);
    EntriesStates(es, |es|);
  }

  /** The first `n` branches compile to `n` compiled branches, in order. */
  lemma {:induction false} BranchesCompiled(owner: string, bs: seq<Value>, n: nat)
    requires n <= |bs| && CompileBranches(owner, bs, n).Ok?
    ensures CompiledBranches(bs[..n], CompileBranches(owner, bs, n).value.out)
  {
    if n > 0 {
      var done := CompileBranches(owner, bs, n - 1);
      assert done.Ok?;
      BranchesCompiled(owner, bs, n - 1);
      BranchesStep(owner, bs, n);
      BranchCompiled(owner, bs[n - 1]);
      var out := CompileBranches(owner, bs, n).value.out;
      assert out == done.value.out + [CompileBranch(owner, bs[n - 1]).value.out];
      forall i | 0 <= i < n
        ensures WellFormedBranch(bs[..n][i]) && CompiledBranch(bs[..n][i], out[i])
      {
        if i < n - 1 {
          assert bs[..n][i] == bs[..n - 1][i];
        }
      }
    }
  }

  /** The compiled Parallel state holds as many branches as the step, in
      the same order, each with exactly the step names of its source branch
      as States keys; without a truthy `_stet` ResultPath is null and
      OutputPath is "$", with one both are the step's own; and the state is
      linked to the step's successor. */
  lemma ParallelCompiled(step: Step)
    requires IsParallel(step.spec) && CompileNative(step).Ok?
    ensures var out := CompileNative(step).value.out.spec;
      WellFormedBranches(step.spec) && BranchesKey in out && out[BranchesKey].List?
      && CompiledBranches(step.spec[BranchesKey].items, out[BranchesKey].items)
      && (!Stet(step.spec) ==>
            ResultPathKey in out && out[ResultPathKey] == Null
            && OutputPathKey in out && out[OutputPathKey] == Str(WholeInput))
      && (Stet(step.spec) ==>
            (ResultPathKey in out <==> ResultPathKey in step.spec)
            && (ResultPathKey in out ==> out[ResultPathKey] == step.spec[ResultPathKey])
            && (OutputPathKey in out <==> OutputPathKey in step.spec)
            && (OutputPathKey in out ==> out[OutputPathKey] == step.spec[OutputPathKey]))
      && Linked(out, step.next)
  {
    var bs := step.spec[BranchesKey].items;
    BranchesCompiled(step.name, bs, |bs|);
    assert bs[..|bs|] == bs;
  }

  // ---------------------------------------------------------------------
  // When compilation fails

  /** A step compiles exactly when it has a `Type` and, if it is a Parallel
      step, its `Branches` are a non-empty list of well-formed branches all
      the way down. */
  predicate Compilable(spec: map<string, Value>)
    decreases Dict(spec), 1
  {
    TypeKey in spec
    && (IsParallel(spec) ==>
          WellFormedBranches(spec)
          && var bs := spec[BranchesKey].items;
             BranchesCompilable(bs, |bs|))
  }

  /** Each of the first `n` branches compiles. */
  predicate BranchesCompilable(bs: seq<Value>, n: nat)
    requires n <= |bs|
    decreases List(bs), n + 1
  {
    n == 0 || (BranchesCompilable(bs, n - 1) && BranchCompilable(bs[n - 1]))
  }

  /** A branch compiles when it has a non-empty `steps` list of one-key
      entries, each of which compiles. */
  predicate BranchCompilable(b: Value)
    decreases b, 1
  {
    WellFormedBranch(b)
    && var es := BranchEntries(b);
       EntriesCompilable(es, |es|)
  }

  /** Each of the first `n` entries of a branch compiles. */
  predicate EntriesCompilable(es: seq<Value>, n: nat)
    requires n <= |es| && forall e :: e in es ==> WellFormedEntry(e)
    decreases List(es), n + 1
  {
    n == 0 || (EntriesCompilable(es, n - 1) && EntryCompilable(es[n - 1]))
  }

  /** A job entry always compiles; a native entry compiles when its body does. */
  predicate EntryCompilable(e: Value)
    requires WellFormedEntry(e)
    decreases e, 1
  {
    assert Dict(EntryBody(e)) == e.fields[EntryName(e)];
    TypeKey in EntryBody(e) ==> Compilable(EntryBody(e))
  }

  lemma {:induction false} CompileNativeOk(step: Step)
    decreases Dict(step.spec), 2
    ensures CompileNative(step).Ok? <==> Compilable(step.spec)
  {
    if TypeKey in step.spec && IsParallel(step.spec) && WellFormedBranches(step.spec) {
      var bs := step.spec[BranchesKey].items;
      BranchesOk(step.name, bs, |bs|);
    }
  }

  lemma {:induction false} BranchesOk(owner: string, bs: seq<Value>, n: nat)
    requires n <= |bs|
    decreases List(bs), n + 2
    ensures CompileBranches(owner, bs, n).Ok? <==> BranchesCompilable(bs, n)
  {
    if n > 0 {
      BranchesOk(owner, bs, n - 1);
      BranchOk(owner, bs[n - 1]);
      BranchesOkStep(owner, bs, n);
    }
  }

  /** The first `n` branches compile exactly when the first `n - 1` and
      branch `n - 1` do. */
  lemma BranchesOkStep(owner: string, bs: seq<Value>, n: nat)
    requires 0 < n <= |bs|
    ensures CompileBranches(owner, bs, n).Ok? <==> CompileBranches(owner, bs, n - 1).Ok? && CompileBranch(owner, bs[n - 1]).Ok?
  {
  }

  lemma {:induction false} BranchOk(owner: string, b: Value)
    decreases b, 2
    ensures CompileBranch(owner, b).Ok? <==> BranchCompilable(b)
  {
    if WellFormedBranch(b) {
      var es := BranchEntries(b);
      EntriesOk(es, |es|);
    }
  }

  lemma {:induction false} EntriesOk(es: seq<Value>, n: nat)
    requires n <= |es| && forall e :: e in es ==> WellFormedEntry(e)
    decreases List(es), n + 2
    ensures CompileEntries(es, n).Ok? <==> EntriesCompilable(es, n)
  {
    if n > 0 {
      EntriesOk(es, n - 1);
      EntryOk(es, n - 1);
      EntriesOkStep(es, n);
    }
  }

  /** The first `n` entries compile exactly when the first `n - 1` and entry
      `n - 1` do. */
  lemma EntriesOkStep(es: seq<Value>, n: nat)
    requires 0 < n <= |es| && forall e :: e in es ==> WellFormedEntry(e)
    ensures CompileEntries(es, n).Ok? <==> CompileEntries(es, n - 1).Ok? && CompileEntry(es, n - 1).Ok?
  {
  }

  lemma {:induction false} EntryOk(es: seq<Value>, i: nat)
    requires i < |es| && forall e :: e in es ==> WellFormedEntry(e)
    decreases List(es), i
    ensures CompileEntry(es, i).Ok? <==> EntryCompilable(es[i])
  {
    var e := es[i];
    var body := EntryBody(e);
    assert Dict(body) == e.fields[EntryName(e)];
    if TypeKey in body {
      CompileNativeOk(Step(EntryName(e), body, Successor(es, i)));
    }
  }
}
