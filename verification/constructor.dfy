/**
 * NonPublicConstructorCheck (src/src/Checks.java): a public class that is
 * neither abstract nor an interface, declares at least one `<init>`, and
 * has no `<init>` that is public or protected is reported once, when the
 * class ends.  The flags are collected while the class streams by.
 *
 * The constructor flags are only ever raised by the callbacks; clearing
 * them is the job of `RunOnClass`.  The legacy variant in src/Checks.java
 * runs the same callbacks without that reset (see LegacyChecks).
 */
module NonPublicConstructor {
  import opened Bytecode
  import opened Reporting

  const CHECK_NAME: string := "NonPublicConstructor"

  datatype CtorState = CtorState(
    simpleClassName: Option<string>,
    isPublicClass: bool,
    isAbstractOrInterface: bool,
    hasAnyCtor: bool,
    hasPublicOrProtectedCtor: bool,
    diags: seq<Diagnostic>)

  /** The state `runOnClass` starts a class from. */
  const Reset: CtorState := CtorState(None, false, false, false, false, [])

  predicate IsVisibleAccess(access: bv32) {
    HasFlag(access, ACC_PUBLIC) || HasFlag(access, ACC_PROTECTED)
  }

  /** The condition tested at class end. */
  predicate Warns(s: CtorState) {
    s.isPublicClass && !s.isAbstractOrInterface && s.hasAnyCtor && !s.hasPublicOrProtectedCtor
  }

  /** One callback.  `tag` is the check name the reports carry. */
  function Step(tag: string, s: CtorState, e: Event): CtorState {
    match e
    case Class(access, name) =>
      s.(simpleClassName := Some(SimpleName(name)),
         isPublicClass := HasFlag(access, ACC_PUBLIC),
         isAbstractOrInterface := HasFlag(access, ACC_INTERFACE) || HasFlag(access, ACC_ABSTRACT))
    case MethodStart(access, name) =>
      if name == INIT
      then s.(hasAnyCtor := true,
              hasPublicOrProtectedCtor := s.hasPublicOrProtectedCtor || IsVisibleAccess(access))
      else s
    case ClassEnd =>
      if Warns(s) then s.(diags := s.diags + [Diagnostic(tag, s.simpleClassName, NoVisibleConstructor)]) else s
    case _ => s
  }

  function CtorStep(s: CtorState, e: Event): CtorState {
    Step(CHECK_NAME, s, e)
  }

  ghost predicate StepsAs(step: (CtorState, Event) -> CtorState, tag: string) {
    forall s, e :: step(s, e) == Step(tag, s, e)
  }

  // ---------------------------------------------------------------------
  // Reference definition.

  predicate DeclaresCtor(ms: seq<MethodInfo>) {
    exists m :: m in ms && m.name == INIT
  }

  predicate DeclaresVisibleCtor(ms: seq<MethodInfo>) {
    exists m :: m in ms && m.name == INIT && IsVisibleAccess(m.access)
  }

  /** The four-way condition on a whole class. */
  predicate ClassWarns(c: ClassFile) {
    && HasFlag(c.access, ACC_PUBLIC)
    && !(HasFlag(c.access, ACC_INTERFACE) || HasFlag(c.access, ACC_ABSTRACT))
    && DeclaresCtor(c.methods)
    && !DeclaresVisibleCtor(c.methods)
  }

  /** What the check reports for a class it starts from a reset state. */
  function CtorDiagnostics(tag: string, c: ClassFile): (r: seq<Diagnostic>)
    ensures |r| <= 1
  {
    if ClassWarns(c) then [Diagnostic(tag, Some(SimpleName(c.name)), NoVisibleConstructor)] else []
  }

  // ---------------------------------------------------------------------
  // The event-by-event machine computes the reference.

  lemma DeclaresLast(ms: seq<MethodInfo>)
    requires ms != []
    ensures DeclaresCtor(ms) == (DeclaresCtor(ms[..|ms| - 1]) || ms[|ms| - 1].name == INIT)
    ensures DeclaresVisibleCtor(ms)
         == (DeclaresVisibleCtor(ms[..|ms| - 1]) || (ms[|ms| - 1].name == INIT && IsVisibleAccess(ms[|ms| - 1].access)))
  {
    var init, m := ms[..|ms| - 1], ms[|ms| - 1];
    assert ms == init + [m];
    assert m in ms;
    forall x | x in init ensures x in ms { }
  }

  /** Each method's start raises the constructor flags; nothing else in it matters. */
  lemma {:induction false} MethodsFold(step: (CtorState, Event) -> CtorState, tag: string,
                                       s: CtorState, ms: seq<MethodInfo>)
    requires StepsAs(step, tag)
    ensures Fold(step, s, MethodsEvents(ms))
         == s.(hasAnyCtor := s.hasAnyCtor || DeclaresCtor(ms),
               hasPublicOrProtectedCtor := s.hasPublicOrProtectedCtor || DeclaresVisibleCtor(ms))
    decreases |ms|
  {
    if ms == [] {
    } else {
      var m := ms[|ms| - 1];
      var init := ms[..|ms| - 1];
      MethodsFold(step, tag, s, init);
      var s2 := step(Fold(step, s, MethodsEvents(init)), MethodStart(m.access, m.name));
      assert Fold(step, s, MethodsEvents(ms)) == s2 by {
        MethodsEventsFold(step, s, ms);
        forall i ensures step(s2, Instr(i)) == s2 { }
        InstructionsSkipped(step, s2, m.code);
      }
      DeclaresLast(ms);
    }
  }

  /** The state after a whole class, from any starting state. */
  function AfterClass(tag: string, s: CtorState, c: ClassFile): CtorState {
    var s' := s.(simpleClassName := Some(SimpleName(c.name)),
                 isPublicClass := HasFlag(c.access, ACC_PUBLIC),
                 isAbstractOrInterface := HasFlag(c.access, ACC_INTERFACE) || HasFlag(c.access, ACC_ABSTRACT),
                 hasAnyCtor := s.hasAnyCtor || DeclaresCtor(c.methods),
                 hasPublicOrProtectedCtor := s.hasPublicOrProtectedCtor || DeclaresVisibleCtor(c.methods));
    if Warns(s') then s'.(diags := s'.diags + [Diagnostic(tag, s'.simpleClassName, NoVisibleConstructor)]) else s'
  }

  lemma {:induction false} StreamFold(step: (CtorState, Event) -> CtorState, tag: string, s: CtorState, c: ClassFile)
    requires StepsAs(step, tag)
    ensures Fold(step, s, Events(c)) == AfterClass(tag, s, c)
  {
    var s1 := step(s, Class(c.access, c.name));
    assert Fold(step, s1, FieldsEvents(c.fields)) == s1 by {
      forall access, name ensures step(s1, Field(access, name)) == s1 { }
      FieldsSkipped(step, s1, c.fields);
    }
    var s3 := Fold(step, s1, MethodsEvents(c.methods));
    assert Fold(step, s, Events(c)) == step(s3, ClassEnd) by {
      EventsFold(step, s, c);
    }
    MethodsFold(step, tag, s1, c.methods);
  }

  /** From a reset state, a class yields exactly `CtorDiagnostics`. */
  lemma StreamMatchesReference(step: (CtorState, Event) -> CtorState, tag: string, c: ClassFile)
    requires StepsAs(step, tag)
    ensures Fold(step, Reset, Events(c)).diags == CtorDiagnostics(tag, c)
  {
    StreamFold(step, tag, Reset, c);
  }

  // ---------------------------------------------------------------------
  // Properties.

  /** Nothing is reported before the class ends. */
  lemma {:induction false} SilentUntilClassEnd(step: (CtorState, Event) -> CtorState, tag: string,
                                               s: CtorState, es: seq<Event>)
    requires StepsAs(step, tag)
    requires ClassEnd !in es
    ensures Fold(step, s, es).diags == s.diags
    decreases |es|
  {
    if es != [] {
      assert es == es[..|es| - 1] + [es[|es| - 1]];
      SilentUntilClassEnd(step, tag, s, es[..|es| - 1]);
    }
  }

  /**
   * The constructor flags are raised only by an `<init>` start and are
   * never lowered by any callback: over any event sequence they end up
   * true exactly when they started true or an `<init>` (a visible one, for
   * the second flag) was declared on the way.
   */
  lemma {:induction false} FlagsOnlyRise(step: (CtorState, Event) -> CtorState, tag: string,
                                         s: CtorState, es: seq<Event>)
    requires StepsAs(step, tag)
    ensures Fold(step, s, es).hasAnyCtor
        == (s.hasAnyCtor || exists e :: e in es && e.MethodStart? && e.name == INIT)
    ensures Fold(step, s, es).hasPublicOrProtectedCtor
        == (s.hasPublicOrProtectedCtor
            || exists e :: e in es && e.MethodStart? && e.name == INIT && IsVisibleAccess(e.access))
    decreases |es|
  {
    if es != [] {
      assert es == es[..|es| - 1] + [es[|es| - 1]];
      FlagsOnlyRise(step, tag, s, es[..|es| - 1]);
    }
  }

  /** Adding one public `<init>` to a class removes the report. */
  lemma AddingPublicCtorSilences(tag: string, c: ClassFile, access: bv32, code: seq<Instruction>)
    requires HasFlag(access, ACC_PUBLIC)
    ensures CtorDiagnostics(tag, c.(methods := c.methods + [MethodInfo(access, INIT, code)])) == []
  {
    var m := MethodInfo(access, INIT, code);
    assert m in c.methods + [m];
  }

  /** A public concrete class whose only constructor is private is reported once. */
  lemma PrivateOnlyCtorReported(tag: string, name: string, code: seq<Instruction>)
    ensures var c := ClassFile(ACC_PUBLIC, name, [], [MethodInfo(ACC_PRIVATE, INIT, code)]);
      CtorDiagnostics(tag, c) == [Diagnostic(tag, Some(SimpleName(name)), NoVisibleConstructor)]
  {
    var m := MethodInfo(ACC_PRIVATE, INIT, code);
    assert m in [m];
    assert !IsVisibleAccess(ACC_PRIVATE);
  }

  // ---------------------------------------------------------------------

  class NonPublicConstructorCheck {
    var simpleClassName: Option<string>
    var isPublicClass: bool
    var isAbstractOrInterface: bool
    var hasAnyCtor: bool
    var hasPublicOrProtectedCtor: bool
    var diags: seq<Diagnostic>

    function Model(): CtorState
      reads this
    {
      CtorState(simpleClassName, isPublicClass, isAbstractOrInterface, hasAnyCtor, hasPublicOrProtectedCtor, diags)
    }

    constructor ()
      ensures Model() == Reset
    {
      simpleClassName, isPublicClass, isAbstractOrInterface := None, false, false;
      hasAnyCtor, hasPublicOrProtectedCtor := false, false;
      diags := [];
    }

    method Visit(access: bv32, name: string)
      modifies this
      ensures Model() == CtorStep(old(Model()), Class(access, name))
    {
      simpleClassName := Some(SimpleName(name));
      isPublicClass := HasFlag(access, ACC_PUBLIC);
      var isInterface := HasFlag(access, ACC_INTERFACE);
      var isAbstract := HasFlag(access, ACC_ABSTRACT);
      isAbstractOrInterface := isInterface || isAbstract;
    }

    method VisitMethod(access: bv32, name: string)
      modifies this
      ensures Model() == CtorStep(old(Model()), MethodStart(access, name))
    {
      if name == INIT {
        hasAnyCtor := true;
        var isPublic := HasFlag(access, ACC_PUBLIC);
        var isProtected := HasFlag(access, ACC_PROTECTED);
        if isPublic || isProtected {
          hasPublicOrProtectedCtor := true;
        }
      }
    }

    method VisitEnd()
      modifies this
      ensures Model() == CtorStep(old(Model()), ClassEnd)
    {
      if isPublicClass && !isAbstractOrInterface && hasAnyCtor && !hasPublicOrProtectedCtor {
        diags := diags + [Diagnostic(CHECK_NAME, simpleClassName, NoVisibleConstructor)];
      }
    }

    method Dispatch(e: Event)
      modifies this
      ensures Model() == CtorStep(old(Model()), e)
    {
      match e
      case Class(access, name) => Visit(access, name);
      case MethodStart(access, name) => VisitMethod(access, name);
      case ClassEnd => VisitEnd();
      case _ =>
    }

    method Accept(es: seq<Event>)
      modifies this
      ensures Model() == Fold(CtorStep, old(Model()), es)
    {
      for i := 0 to |es|
        invariant Model() == Fold(CtorStep, old(Model()), es[..i])
      {
        assert es[..i + 1][..i] == es[..i];
        Dispatch(es[i]);
      }
      assert es[..|es|] == es;
    }

    /** Clears every per-class flag, then analyses class `c` with a fresh report sink. */
    method RunOnClass(c: ClassFile)
      modifies this
      ensures diags == CtorDiagnostics(CHECK_NAME, c)
    {
      simpleClassName := None;
      isPublicClass := false;
      isAbstractOrInterface := false;
      hasAnyCtor := false;
      hasPublicOrProtectedCtor := false;
      diags := [];
      Accept(Events(c));
      StreamMatchesReference(CtorStep, CHECK_NAME, c);
    }
  }
}
