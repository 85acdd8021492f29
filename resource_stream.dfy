/** The resource stream of the native step compiler. The compiler hands each
    resource to its caller as soon as it discovers it, before the state of
    the enclosing Parallel step is finished, and the caller drains the
    stream into a list. Here the stream is an append-only sink that every
    recursive call writes into, so the order of the sink is the order of
    discovery. */
module ResourceStream {
  import opened Values
  import opened NativeSteps

  /** The consumer end of the stream: everything emitted so far, in order. */
  class ResourceSink {
    var emitted: seq<Resource>

    constructor ()
      ensures emitted == []
    {
      emitted := [];
    }

    method Emit(r: Resource)
      modifies this
      ensures emitted == old(emitted) + [r]
    {
      emitted := emitted + [r];
    }
  }

  lemma AppendAssoc<T>(a: seq<T>, b: seq<T>, c: seq<T>)
    ensures a + b + c == a + (b + c)
  {
  }

  /** Compiles one native step, emitting the resources of its branches into
      `sink` as they are found. On success the state is the one
      CompileNative gives and the sink has grown by exactly its resources;
      on failure the error is CompileNative's and whatever was emitted
      before the failure stays emitted. */
  method HandleNativeStep(step: Step, sink: ResourceSink) returns (r: Result<State>)
    modifies sink
    decreases Dict(step.spec), 1
    ensures match CompileNative(step)
      case Ok(c) => r == Ok(c.out) && sink.emitted == old(sink.emitted) + c.resources
      case Err(e) => r == Err(e) && old(sink.emitted) <= sink.emitted
  {
    if TypeKey !in step.spec {
      return Err(UnrecognizedStepType(step.name));
    }
    if !IsParallel(step.spec) {
      return Ok(State(step.name, LinkSuccessor(NormalizeRouting(step.spec), step.next)));
    }
    if !WellFormedBranches(step.spec) {
      return Err(MalformedBranchStructure(step.name));
    }
    var branches := HandleBranches(step.name, step.spec[BranchesKey].items, sink);
    if branches.Err? {
      return Err(branches.error);
    }
    return Ok(State(step.name, LinkSuccessor(NormalizeParallel(step.spec, branches.value), step.next)));
  }

  /** Compiles the branches of Parallel step `owner` one after the other. */
  method HandleBranches(owner: string, bs: seq<Value>, sink: ResourceSink) returns (r: Result<seq<Value>>)
    modifies sink
    decreases List(bs), 0
    ensures match CompileBranches(owner, bs, |bs|)
      case Ok(c) => r == Ok(c.out) && sink.emitted == old(sink.emitted) + c.resources
      case Err(e) => r == Err(e) && old(sink.emitted) <= sink.emitted
  {
    ghost var start, found := sink.emitted, [];
    var compiled: seq<Value> := [];
    var i := 0;
    while i < |bs|
      invariant i <= |bs|
      invariant CompileBranches(owner, bs, i) == Ok(Collected(compiled, found))
      invariant sink.emitted == start + found
    {
      ghost var before := sink.emitted;
      var b := HandleBranch(owner, bs[i], sink);
      BranchesStep(owner, bs, i + 1);
      if b.Err? {
        BranchesErrorPersists(owner, bs, i + 1, |bs|);
        return Err(b.error);
      }
      ghost var c := CompileBranch(owner, bs[i]).value;
      assert sink.emitted == before + c.resources;
      AppendAssoc(start, found, c.resources);
      found := found + c.resources;
      compiled := compiled + [b.value];
      i := i + 1;
    }
    return Ok(compiled);
  }

  /** Compiles one branch of a Parallel step `owner` into `{States: ...}`. */
  method HandleBranch(owner: string, b: Value, sink: ResourceSink) returns (r: Result<Value>)
    modifies sink
    decreases b, 1
    ensures match CompileBranch(owner, b)
      case Ok(c) => r == Ok(c.out) && sink.emitted == old(sink.emitted) + c.resources
      case Err(e) => r == Err(e) && old(sink.emitted) <= sink.emitted
  {
    if !WellFormedBranch(b) {
      return Err(MalformedBranchStructure(owner));
    }
    var states := HandleEntries(BranchEntries(b), sink);
    if states.Err? {
      return Err(states.error);
    }
    return Ok(Dict(map[StatesKey := Dict(states.value)]));
  }

  /** Compiles the entries of a branch one after the other into its States
      map, emitting resources into `sink` as they are found. */
  method HandleEntries(es: seq<Value>, sink: ResourceSink) returns (r: Result<map<string, Value>>)
    requires forall e :: e in es ==> WellFormedEntry(e)
    modifies sink
    decreases List(es), |es| + 1
    ensures match CompileEntries(es, |es|)
      case Ok(c) => r == Ok(c.out) && sink.emitted == old(sink.emitted) + c.resources
      case Err(e) => r == Err(e) && old(sink.emitted) <= sink.emitted
  {
    ghost var start, found := sink.emitted, [];
    var states: map<string, Value> := map[];
    var i := 0;
    while i < |es|
      invariant i <= |es|
      invariant CompileEntries(es, i) == Ok(Collected(states, found))
      invariant sink.emitted == start + found
    {
      ghost var before := sink.emitted;
      var state := HandleEntry(es, i, sink);
      EntriesStep(es, i + 1);
      if state.Err? {
        EntriesErrorPersists(es, i + 1, |es|);
        return Err(state.error);
      }
      ghost var c := CompileEntry(es, i).value;
      assert sink.emitted == before + c.resources;
      AppendAssoc(start, found, c.resources);
      found := found + c.resources;
      states := states[state.value.name := Dict(state.value.spec)];
      i := i + 1;
    }
    return Ok(states);
  }

  /** Compiles entry `i` of a branch: a native entry recursively, a job
      entry into its Task state, emitting its job definition. */
  method HandleEntry(es: seq<Value>, i: nat, sink: ResourceSink) returns (r: Result<State>)
    requires i < |es| && forall e :: e in es ==> WellFormedEntry(e)
    modifies sink
    decreases List(es), i
    ensures match CompileEntry(es, i)
      case Ok(c) => r == Ok(c.out) && sink.emitted == old(sink.emitted) + c.resources
      case Err(e) => r == Err(e) && old(sink.emitted) <= sink.emitted
  {
    var e := es[i];
    var name := EntryName(e);
    var body := EntryBody(e);
    assert Dict(body) == e.fields[name];
    if TypeKey in body {
      r := HandleNativeStep(Step(name, body, Successor(es, i)), sink);
    } else {
      sink.Emit(JobDefinition(name));
      r := Ok(JobState(name, Successor(es, i)));
    }
  }

  /** The caller's view: compile a step and drain its resource stream into
      a list, as the test does with `list(helper())`. */
  method CollectNativeStep(step: Step) returns (r: Result<State>, resources: seq<Resource>)
    ensures match CompileNative(step)
      case Ok(c) => r == Ok(c.out) && resources == c.resources
      case Err(e) => r == Err(e)
  {
    var sink := new ResourceSink();
    r := HandleNativeStep(step, sink);
    resources := sink.emitted;
  }
}
