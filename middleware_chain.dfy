// The middleware chain: each stage holds a reference to the next one, Use on
// a stage hangs a chain off its end, and Use on a pipeline makes the new stage
// the head with the old chain behind it. Processing a stage runs its work
// before ProcessNext, the rest of the chain, and then its work after. A
// pipeline built by registering stages one by one therefore finishes their
// work in the order they were registered.

module Pipeline {
  import opened Wrappers
  import opened Files
  import opened Messages
  import opened Context
  import opened Stages

  // ---- what a chain does ----------------------------------------------------

  /**
   * Process on the chain `ks`, first stage first: that stage's work before
   * ProcessNext, the rest of the chain (a stage without a successor is
   * answered true), then its work after. An exception anywhere ends the run.
   */
  function Run(ks: seq<StageKind>, hasWriter: bool, s: PipelineState): (Result<bool>, PipelineState)
    decreases |ks|
  {
    if ks == [] then (Ok(true), s)
    else
      var before := Before(ks[0], s.ctx);
      if before.0.Some? then (Err(before.0.value), s.(ctx := before.1))
      else
        var inner := Run(ks[1..], hasWriter, s.(ctx := before.1));
        if inner.0.Err? then inner else After(ks[0], inner.0.value, hasWriter, inner.1)
  }

  /** Every stage's work before ProcessNext, outermost first, up to the first error. */
  function Befores(ks: seq<StageKind>, c: ContextState): (Option<Error>, ContextState)
    decreases |ks|
  {
    if ks == [] then (None, c)
    else
      var before := Before(ks[0], c);
      if before.0.Some? then before else Befores(ks[1..], before.1)
  }

  /** Every stage's work after ProcessNext, innermost (last) first, each given the answer of the one inside it. */
  function Afters(ks: seq<StageKind>, ok: bool, hasWriter: bool, s: PipelineState): (Result<bool>, PipelineState)
    decreases |ks|
  {
    if ks == [] then (Ok(ok), s)
    else
      var inner := Afters(ks[1..], ok, hasWriter, s);
      if inner.0.Err? then inner else After(ks[0], inner.0.value, hasWriter, inner.1)
  }

  /** The stages' work after ProcessNext in the order of `registered`, each given the answer of the one before. */
  function InOrder(registered: seq<StageKind>, ok: bool, hasWriter: bool, s: PipelineState): (Result<bool>, PipelineState)
    decreases |registered|
  {
    if registered == [] then (Ok(ok), s)
    else
      var first := After(registered[0], ok, hasWriter, s);
      if first.0.Err? then first else InOrder(registered[1..], first.0.value, hasWriter, first.1)
  }

  function Reversed(ks: seq<StageKind>): (r: seq<StageKind>)
    ensures |r| == |ks| && forall i :: 0 <= i < |ks| ==> r[i] == ks[|ks| - 1 - i]
    decreases |ks|
  {
    if ks == [] then [] else Reversed(ks[1..]) + [ks[0]]
  }

  /** A run is all the work before ProcessNext, outside in, then all the work after it, inside out. */
  lemma {:induction false} RunSplits(ks: seq<StageKind>, hasWriter: bool, s: PipelineState)
    ensures Run(ks, hasWriter, s) ==
      var b := Befores(ks, s.ctx);
      if b.0.Some? then (Err(b.0.value), s.(ctx := b.1)) else Afters(ks, true, hasWriter, s.(ctx := b.1))
    decreases |ks|
  {
    if ks != [] {
      var before := Before(ks[0], s.ctx);
      if before.0.None? {
        RunSplits(ks[1..], hasWriter, s.(ctx := before.1));
      }
    }
  }

  /** The work after ProcessNext of a chain with one more stage at its end: that stage's first. */
  lemma {:induction false} AftersAppend(ks: seq<StageKind>, k: StageKind, ok: bool, hasWriter: bool, s: PipelineState)
    ensures Afters(ks + [k], ok, hasWriter, s) ==
      var last := After(k, ok, hasWriter, s);
      if last.0.Err? then last else Afters(ks, last.0.value, hasWriter, last.1)
    decreases |ks|
  {
    if ks == [] {
      assert [k][1..] == [];
    } else {
      assert (ks + [k])[1..] == ks[1..] + [k];
      AftersAppend(ks[1..], k, ok, hasWriter, s);
    }
  }

  /** Run inside out, the work after ProcessNext of a reversed list is that of the list taken in order. */
  lemma {:induction false} AftersReversed(registered: seq<StageKind>, ok: bool, hasWriter: bool, s: PipelineState)
    ensures Afters(Reversed(registered), ok, hasWriter, s) == InOrder(registered, ok, hasWriter, s)
    decreases |registered|
  {
    if registered != [] {
      AftersAppend(Reversed(registered[1..]), registered[0], ok, hasWriter, s);
      var first := After(registered[0], ok, hasWriter, s);
      if first.0.Ok? {
        AftersReversed(registered[1..], first.0.value, hasWriter, first.1);
      }
    }
  }

  /**
   * The chain of stages registered in order `registered` (the last one is
   * the head) does their work before ProcessNext newest first, and their
   * work after it oldest first: the order of registration.
   */
  lemma RegistrationOrder(registered: seq<StageKind>, hasWriter: bool, s: PipelineState)
    ensures Run(Reversed(registered), hasWriter, s) ==
      var b := Befores(Reversed(registered), s.ctx);
      if b.0.Some? then (Err(b.0.value), s.(ctx := b.1)) else InOrder(registered, true, hasWriter, s.(ctx := b.1))
  {
    RunSplits(Reversed(registered), hasWriter, s);
    var b := Befores(Reversed(registered), s.ctx);
    if b.0.None? {
      AftersReversed(registered, true, hasWriter, s.(ctx := b.1));
    }
  }

  /** No stage turns a failure of the rest of the chain into success. */
  lemma FailureStays(k: StageKind, hasWriter: bool, s: PipelineState)
    ensures After(k, false, hasWriter, s).0 != Ok(true)
  {
  }

  /** A callback that always answers false. */
  ghost predicate AlwaysFails(process: Callback)
  {
    forall c :: !process(c).result
  }

  /** Once a stage has answered false, every later stage still fails. */
  lemma {:induction false} FailureStaysInOrder(registered: seq<StageKind>, hasWriter: bool, s: PipelineState)
    ensures InOrder(registered, false, hasWriter, s).0 != Ok(true)
    decreases |registered|
  {
    if registered != [] {
      FailureStays(registered[0], hasWriter, s);
      var first := After(registered[0], false, hasWriter, s);
      if first.0.Ok? {
        FailureStaysInOrder(registered[1..], hasWriter, first.1);
      }
    }
  }

  /** A registered function that always answers false makes the whole run fail, whatever comes after it. */
  lemma {:induction false} FailingFunctionFails(registered: seq<StageKind>, i: nat, ok: bool, hasWriter: bool, s: PipelineState)
    requires i < |registered| && registered[i].FunctionStage? && registered[i].process.Some?
    requires AlwaysFails(registered[i].process.value)
    ensures InOrder(registered, ok, hasWriter, s).0 != Ok(true)
    decreases |registered|
  {
    var first := After(registered[0], ok, hasWriter, s);
    if first.0.Ok? {
      if i == 0 {
        assert first.0 == Ok(false);
        FailureStaysInOrder(registered[1..], hasWriter, first.1);
      } else {
        FailingFunctionFails(registered[1..], i - 1, first.0.value, hasWriter, first.1);
      }
    }
  }

  // ---- the linked chain -------------------------------------------------------

  /** A middleware stage: SnapshotMiddlewareBase with the work of its class. */
  class Middleware {
    var kind: StageKind
    var next: Middleware?
    /** The stages of the chain from this one on. */
    ghost var Repr: set<Middleware>
    /** Their kinds, this stage's first. */
    ghost var Kinds: seq<StageKind>

    ghost predicate Valid()
      reads this, Repr
      decreases Repr
    {
      this in Repr &&
      (next == null ==> Kinds == [kind]) &&
      (next != null ==>
        next in Repr && next.Repr <= Repr && this !in next.Repr && next.Valid() && Kinds == [kind] + next.Kinds)
    }

    /** A new stage of the given class, with nothing after it. */
    constructor (kind: StageKind)
      ensures Valid() && fresh(Repr) && Kinds == [kind]
    {
      this.kind := kind;
      next := null;
      Repr := {this};
      Kinds := [kind];
    }

    /**
     * Use: a null chain changes nothing; otherwise the chain is attached
     * after the last stage. The stage itself is returned.
     */
    method Use(nextStage: Middleware?) returns (r: Middleware)
      requires Valid()
      requires nextStage != null ==> nextStage.Valid() && Repr !! nextStage.Repr
      modifies Repr
      ensures r == this && Valid()
      ensures nextStage == null ==> Kinds == old(Kinds) && Repr == old(Repr)
      ensures nextStage != null ==> Kinds == old(Kinds) + old(nextStage.Kinds) && Repr == old(Repr) + old(nextStage.Repr)
      decreases Repr
    {
      if nextStage != null {
        if next == null {
          next := nextStage;
        } else {
          var _ := next.Use(nextStage);
        }
        Repr := Repr + nextStage.Repr;
        Kinds := [kind] + next.Kinds;
      }
      r := this;
    }

    /** ProcessNext: the next stage's answer, or true for the last stage. */
    method ProcessNext(ctx: SnapshotContext, store: FileStore, tips: TipFlags) returns (r: Result<bool>)
      requires Valid()
      modifies ctx, store, tips, ctx.writer
      ensures (r, StateOf(ctx, store, tips)) == Run(Kinds[1..], ctx.writer != null, old(StateOf(ctx, store, tips)))
      decreases Repr, 0
    {
      if next == null {
        r := Ok(true);
      } else {
        r := next.Process(ctx, store, tips);
      }
    }

    /** Process: the work of this stage's class around ProcessNext. */
    method Process(ctx: SnapshotContext, store: FileStore, tips: TipFlags) returns (r: Result<bool>)
      requires Valid()
      modifies ctx, store, tips, ctx.writer
      ensures (r, StateOf(ctx, store, tips)) == Run(Kinds, ctx.writer != null, old(StateOf(ctx, store, tips)))
      decreases Repr, 1
    {
      var err := StageBefore(kind, ctx);
      if err.Some? {
        r := Err(err.value);
      } else {
        var inner := ProcessNext(ctx, store, tips);
        if inner.Err? {
          r := inner;
        } else {
          r := StageAfter(kind, inner.value, ctx, store, tips);
        }
      }
    }
  }

  /** SnapshotMiddlewarePipeline: the head of a chain, empty at first. */
  class SnapshotMiddlewarePipeline {
    var head: Middleware?
    ghost var Repr: set<Middleware>

    ghost predicate Valid()
      reads this, Repr
    {
      (head == null ==> Repr == {}) &&
      (head != null ==> head in Repr && head.Repr == Repr && head.Valid())
    }

    /** The kinds of the chain's stages, head first. */
    ghost function Chain(): seq<StageKind>
      reads this, head
    {
      if head == null then [] else head.Kinds
    }

    constructor ()
      ensures Valid() && Chain() == [] && Repr == {}
    {
      head := null;
      Repr := {};
    }

    /**
     * Use(middleware): null is refused; otherwise the new chain is the
     * middleware's own chain with the old one attached behind it.
     */
    method Use(middleware: Middleware?) returns (err: Option<Error>)
      requires Valid()
      requires middleware != null ==> middleware.Valid() && middleware.Repr !! Repr
      modifies this, if middleware == null then {} else middleware.Repr
      ensures Valid()
      ensures middleware == null ==> err == Some(ArgumentNull("middleware")) && Chain() == old(Chain()) && Repr == old(Repr)
      ensures middleware != null ==> err.None? && head == middleware && Repr == old(middleware.Repr) + old(Repr)
      ensures middleware != null ==> Chain() == old(middleware.Kinds) + old(Chain())
    {
      if middleware == null {
        return Some(ArgumentNull("middleware"));
      }
      var h := middleware.Use(head);
      head := h;
      Repr := h.Repr;
      err := None;
    }

    /** Use<T>(initializer): a new stage of the class, configured by the initializer, becomes the head. */
    method UseNew(kind: StageKind, initializer: Option<StageKind -> StageKind>)
      requires Valid()
      modifies this
      ensures Valid() && fresh(Repr - old(Repr))
      ensures Chain() == [Initialized(kind, initializer)] + old(Chain())
    {
      var m := new Middleware(Initialized(kind, initializer));
      var _ := Use(m);
    }

    /** Use(Func): a function stage for the callback becomes the head; a null callback is accepted. */
    method UseFunction(process: Option<Callback>)
      requires Valid()
      modifies this
      ensures Valid() && fresh(Repr - old(Repr))
      ensures Chain() == [FunctionStage(process)] + old(Chain())
    {
      UseNew(FunctionStage(process), None);
    }

    /** Use(Action): the action wrapped in a callback that always answers true. */
    method UseAction(process: Callback)
      requires Valid()
      modifies this
      ensures Valid() && fresh(Repr - old(Repr))
      ensures Chain() == [FunctionStage(Some(AlwaysTrue(process)))] + old(Chain())
    {
      UseFunction(Some(AlwaysTrue(process)));
    }
  }

  /** The stage a new T is once its initializer has run. */
  function Initialized(kind: StageKind, initializer: Option<StageKind -> StageKind>): StageKind
  {
    if initializer.Some? then initializer.value(kind) else kind
  }

  /** `snapshot => { process(snapshot); return true; }`. */
  function AlwaysTrue(process: Callback): (r: Callback)
    ensures forall c :: r(c).result && r(c).actual == process(c).actual && r(c).setExpected == process(c).setExpected
  {
    c => process(c).(result := true)
  }
}
