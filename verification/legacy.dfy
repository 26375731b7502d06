/**
 * The earlier versions of three checks (src/Checks.java).  They are plain
 * class visitors: one instance is handed class after class by the decoder,
 * nothing resets it in between, and they print their findings to standard
 * output, tagged "[Naming]", "[Constructor]" and "[LongMethod]".  The
 * printed lines are modelled as the sequence `printed`, in the same
 * structured form as the reporter's diagnostics, with the tag as check name.
 *
 * Each callback is the same function as in the current check, instantiated
 * with the legacy tag (and, for the long-method check, without LDC
 * counting), so what is proved about the current checks' reference
 * definitions carries over; the lemmas here state where the legacy
 * versions part from the current ones.
 */
module LegacyChecks {
  import opened Bytecode
  import opened Reporting
  import NamingConvention
  import NonPublicConstructor
  import LongMethod

  const NAMING_TAG: string := "Naming"
  const CONSTRUCTOR_TAG: string := "Constructor"
  const LONG_METHOD_TAG: string := "LongMethod"

  // ---------------------------------------------------------------------
  // Naming: the same verdicts as the current check, class after class.

  function LegacyNamingStep(s: NamingConvention.NamingState, e: Event): NamingConvention.NamingState {
    NamingConvention.Step(NAMING_TAG, s, e)
  }

  /** `ds` with every check name replaced by `tag`. */
  function Retag(ds: seq<Diagnostic>, tag: string): (r: seq<Diagnostic>)
    ensures |r| == |ds| && forall k :: 0 <= k < |ds| ==> r[k] == ds[k].(check := tag)
  {
    seq(|ds|, k requires 0 <= k < |ds| => ds[k].(check := tag))
  }

  lemma RetagAppend(a: seq<Diagnostic>, b: seq<Diagnostic>, tag: string)
    ensures Retag(a + b, tag) == Retag(a, tag) + Retag(b, tag)
  {
  }

  lemma {:induction false} FieldReportsRetag(t1: string, t2: string, cls: Option<string>, fs: seq<FieldInfo>)
    ensures NamingConvention.FieldReports(t2, cls, fs) == Retag(NamingConvention.FieldReports(t1, cls, fs), t2)
    decreases |fs|
  {
    if fs != [] {
      var f := fs[|fs| - 1];
      FieldReportsRetag(t1, t2, cls, fs[..|fs| - 1]);
      RetagAppend(NamingConvention.FieldReports(t1, cls, fs[..|fs| - 1]),
                  if NamingConvention.BadMemberName(f.name) then [Diagnostic(t1, cls, FieldNameCase(f.name))] else [], t2);
    }
  }

  lemma {:induction false} MethodReportsRetag(t1: string, t2: string, cls: Option<string>, ms: seq<MethodInfo>)
    ensures NamingConvention.MethodReports(t2, cls, ms) == Retag(NamingConvention.MethodReports(t1, cls, ms), t2)
    decreases |ms|
  {
    if ms != [] {
      var m := ms[|ms| - 1];
      MethodReportsRetag(t1, t2, cls, ms[..|ms| - 1]);
      RetagAppend(NamingConvention.MethodReports(t1, cls, ms[..|ms| - 1]),
                  if !IsInitializer(m.name) && NamingConvention.BadMemberName(m.name)
                  then [Diagnostic(t1, cls, MethodNameCase(m.name))] else [], t2);
    }
  }

  /** The naming verdicts do not depend on the tag: renaming the check renames every report and changes nothing else. */
  lemma NamingRetag(t1: string, t2: string, c: ClassFile)
    ensures NamingConvention.NamingDiagnostics(t2, c) == Retag(NamingConvention.NamingDiagnostics(t1, c), t2)
  {
    var cls := Some(SimpleName(c.name));
    var a, f, m := NamingConvention.ClassReport(t1, c), NamingConvention.FieldReports(t1, cls, c.fields),
                   NamingConvention.MethodReports(t1, cls, c.methods);
    assert NamingConvention.ClassReport(t2, c) == Retag(a, t2);
    FieldReportsRetag(t1, t2, cls, c.fields);
    MethodReportsRetag(t1, t2, cls, c.methods);
    RetagAppend(a, f, t2);
    RetagAppend(a + f, m, t2);
  }

  lemma LegacyNamingStepsAs()
    ensures NamingConvention.StepsAs(LegacyNamingStep, NAMING_TAG)
  {
  }

  /**
   * Whatever it has seen before, the legacy naming check prints, for each
   * class, exactly the current check's reports, in the same order, under
   * its own tag: the two flag the same classes, fields and methods.
   */
  lemma LegacyNamingAgrees(s: NamingConvention.NamingState, c: ClassFile)
    ensures Fold(LegacyNamingStep, s, Events(c)).diags
         == s.diags + Retag(NamingConvention.NamingDiagnostics(NamingConvention.CHECK_NAME, c), NAMING_TAG)
  {
    LegacyNamingStepsAs();
    NamingConvention.StreamMatchesReference(LegacyNamingStep, NAMING_TAG, s, c);
    NamingRetag(NamingConvention.CHECK_NAME, NAMING_TAG, c);
  }

  class LegacyNamingConventionCheck {
    var simpleName: Option<string>
    var printed: seq<Diagnostic>

    function Model(): NamingConvention.NamingState
      reads this
    {
      NamingConvention.NamingState(simpleName, printed)
    }

    constructor ()
      ensures Model() == NamingConvention.Initial
    {
      simpleName, printed := None, [];
    }

    method Visit(access: bv32, name: string)
      modifies this
      ensures Model() == LegacyNamingStep(old(Model()), Class(access, name))
    {
      var simple := SimpleName(name);
      simpleName := Some(simple);
      if simple != [] && !IsUpperCase(simple[0]) {
        printed := printed + [Diagnostic(NAMING_TAG, Some(simple), ClassNameCase)];
      }
    }

    method VisitMethod(access: bv32, name: string)
      modifies this
      ensures Model() == LegacyNamingStep(old(Model()), MethodStart(access, name))
    {
      if name != INIT && name != CLINIT {
        if name != [] && !IsLowerCase(name[0]) {
          printed := printed + [Diagnostic(NAMING_TAG, simpleName, MethodNameCase(name))];
        }
      }
    }

    method VisitField(access: bv32, name: string)
      modifies this
      ensures Model() == LegacyNamingStep(old(Model()), Field(access, name))
    {
      if name != [] && !IsLowerCase(name[0]) {
        printed := printed + [Diagnostic(NAMING_TAG, simpleName, FieldNameCase(name))];
      }
    }

    method Dispatch(e: Event)
      modifies this
      ensures Model() == LegacyNamingStep(old(Model()), e)
    {
      match e
      case Class(access, name) => Visit(access, name);
      case Field(access, name) => VisitField(access, name);
      case MethodStart(access, name) => VisitMethod(access, name);
      case _ =>
    }

    method Accept(es: seq<Event>)
      modifies this
      ensures Model() == Fold(LegacyNamingStep, old(Model()), es)
    {
      for i := 0 to |es|
        invariant Model() == Fold(LegacyNamingStep, old(Model()), es[..i])
      {
        assert es[..i + 1][..i] == es[..i];
        Dispatch(es[i]);
      }
      assert es[..|es|] == es;
    }

    /** `reader.accept(check, 0)` for one more class: its lines are appended to what was printed before. */
    method AcceptClass(c: ClassFile)
      modifies this
      ensures printed == old(printed) + Retag(NamingConvention.NamingDiagnostics(NamingConvention.CHECK_NAME, c), NAMING_TAG)
      ensures simpleName == Some(SimpleName(c.name))
    {
      Accept(Events(c));
      LegacyNamingAgrees(old(Model()), c);
      LegacyNamingStepsAs();
      NamingConvention.StreamMatchesReference(LegacyNamingStep, NAMING_TAG, old(Model()), c);
    }
  }

  // ---------------------------------------------------------------------
  // Constructors: the flags are set once, by field initialisers, and never
  // cleared, so they carry over from one class to the next.

  function LegacyCtorStep(s: NonPublicConstructor.CtorState, e: Event): NonPublicConstructor.CtorState {
    NonPublicConstructor.Step(CONSTRUCTOR_TAG, s, e)
  }

  /** The state after the classes of `cs`, one after the other, from `s`. */
  function AfterClasses(s: NonPublicConstructor.CtorState, cs: seq<ClassFile>): NonPublicConstructor.CtorState {
    if cs == [] then s
    else NonPublicConstructor.AfterClass(CONSTRUCTOR_TAG, AfterClasses(s, cs[..|cs| - 1]), cs[|cs| - 1])
  }

  lemma {:induction false} AfterClassesAppend(s: NonPublicConstructor.CtorState, a: seq<ClassFile>, b: seq<ClassFile>)
    ensures AfterClasses(s, a + b) == AfterClasses(AfterClasses(s, a), b)
    decreases |b|
  {
    if b == [] {
      assert a + b == a;
    } else {
      assert (a + b)[..|a + b| - 1] == a + b[..|b| - 1];
      AfterClassesAppend(s, a, b[..|b| - 1]);
    }
  }

  /** Once the flag for a visible constructor is up, no class is ever reported again. */
  lemma {:induction false} SilentOnceVisibleCtorSeen(s: NonPublicConstructor.CtorState, cs: seq<ClassFile>)
    requires s.hasPublicOrProtectedCtor
    ensures AfterClasses(s, cs).hasPublicOrProtectedCtor
    ensures AfterClasses(s, cs).diags == s.diags
    decreases |cs|
  {
    if cs != [] {
      SilentOnceVisibleCtorSeen(s, cs[..|cs| - 1]);
    }
  }

  /**
   * After a class that declares a public or protected constructor, the
   * legacy check prints nothing more for any later class, whatever its
   * constructors.
   */
  lemma LaterClassesNeverReported(s: NonPublicConstructor.CtorState, cs: seq<ClassFile>, k: nat)
    requires k < |cs| && NonPublicConstructor.DeclaresVisibleCtor(cs[k].methods)
    ensures AfterClasses(s, cs).diags == AfterClasses(s, cs[..k + 1]).diags
  {
    assert cs == cs[..k + 1] + cs[k + 1..];
    AfterClassesAppend(s, cs[..k + 1], cs[k + 1..]);
    assert cs[..k + 1][..k] == cs[..k];
    SilentOnceVisibleCtorSeen(AfterClasses(s, cs[..k + 1]), cs[k + 1..]);
  }

  /**
   * Two classes through one legacy instance: the first has a public
   * constructor, the second is public, concrete and has only a private one.
   * The legacy check prints nothing, while the check run on the second
   * class alone reports it.
   */
  lemma LegacyCtorFlagsLeak(first: string, second: string)
    ensures var c1 := ClassFile(ACC_PUBLIC, first, [], [MethodInfo(ACC_PUBLIC, INIT, [])]);
            var c2 := ClassFile(ACC_PUBLIC, second, [], [MethodInfo(ACC_PRIVATE, INIT, [])]);
            && AfterClasses(NonPublicConstructor.Reset, [c1, c2]).diags == []
            && NonPublicConstructor.CtorDiagnostics(CONSTRUCTOR_TAG, c2)
               == [Diagnostic(CONSTRUCTOR_TAG, Some(SimpleName(second)), NoVisibleConstructor)]
  {
    var m1 := MethodInfo(ACC_PUBLIC, INIT, []);
    var c1 := ClassFile(ACC_PUBLIC, first, [], [m1]);
    var c2 := ClassFile(ACC_PUBLIC, second, [], [MethodInfo(ACC_PRIVATE, INIT, [])]);
    assert m1 in c1.methods;
    assert NonPublicConstructor.IsVisibleAccess(ACC_PUBLIC);
    assert NonPublicConstructor.DeclaresVisibleCtor(c1.methods);
    assert [c1, c2][..1] == [c1];
    assert [c1][..0] == [];
    var s1 := AfterClasses(NonPublicConstructor.Reset, [c1]);
    assert AfterClasses(NonPublicConstructor.Reset, []) == NonPublicConstructor.Reset;
    assert s1 == NonPublicConstructor.AfterClass(CONSTRUCTOR_TAG, AfterClasses(NonPublicConstructor.Reset, []), c1);
    assert s1.hasPublicOrProtectedCtor && s1.diags == [];
    assert AfterClasses(NonPublicConstructor.Reset, [c1, c2]) == NonPublicConstructor.AfterClass(CONSTRUCTOR_TAG, s1, c2);
    NonPublicConstructor.PrivateOnlyCtorReported(CONSTRUCTOR_TAG, second, []);
  }

  class LegacyNonPublicConstructorCheck {
    var simpleName: Option<string>
    var isPublicClass: bool
    var isAbstractOrInterface: bool
    var hasAnyCtor: bool
    var hasPublicOrProtectedCtor: bool
    var printed: seq<Diagnostic>

    function Model(): NonPublicConstructor.CtorState
      reads this
    {
      NonPublicConstructor.CtorState(simpleName, isPublicClass, isAbstractOrInterface,
                                     hasAnyCtor, hasPublicOrProtectedCtor, printed)
    }

    constructor ()
      ensures Model() == NonPublicConstructor.Reset
    {
      simpleName, isPublicClass, isAbstractOrInterface := None, false, false;
      hasAnyCtor, hasPublicOrProtectedCtor := false, false;
      printed := [];
    }

    method Visit(access: bv32, name: string)
      modifies this
      ensures Model() == LegacyCtorStep(old(Model()), Class(access, name))
    {
      simpleName := Some(SimpleName(name));
      isPublicClass := HasFlag(access, ACC_PUBLIC);
      var isInterface := HasFlag(access, ACC_INTERFACE);
      var isAbstract := HasFlag(access, ACC_ABSTRACT);
      isAbstractOrInterface := isInterface || isAbstract;
    }

    method VisitMethod(access: bv32, name: string)
      modifies this
      ensures Model() == LegacyCtorStep(old(Model()), MethodStart(access, name))
    {
      if name == INIT {
        hasAnyCtor := true;
        var isPublic := HasFlag(access, ACC_PUBLIC);
        var isProtected := HasFlag(access, ACC_PROTECTED);
        if isPublic || isProtected {
          hasPublicOrProtectedCtor := true;
        }
      }
    }

    method VisitEnd()
      modifies this
      ensures Model() == LegacyCtorStep(old(Model()), ClassEnd)
    {
      if isPublicClass && !isAbstractOrInterface && hasAnyCtor && !hasPublicOrProtectedCtor {
        printed := printed + [Diagnostic(CONSTRUCTOR_TAG, simpleName, NoVisibleConstructor)];
      }
    }

    method Dispatch(e: Event)
      modifies this
      ensures Model() == LegacyCtorStep(old(Model()), e)
    {
      match e
      case Class(access, name) => Visit(access, name);
      case MethodStart(access, name) => VisitMethod(access, name);
      case ClassEnd => VisitEnd();
      case _ =>
    }

    method Accept(es: seq<Event>)
      modifies this
      ensures Model() == Fold(LegacyCtorStep, old(Model()), es)
    {
      for i := 0 to |es|
        invariant Model() == Fold(LegacyCtorStep, old(Model()), es[..i])
      {
        assert es[..i + 1][..i] == es[..i];
        Dispatch(es[i]);
      }
      assert es[..|es|] == es;
    }

    /** One more class through the same instance, flags as the earlier classes left them. */
    method AcceptClass(c: ClassFile)
      modifies this
      ensures Model() == NonPublicConstructor.AfterClass(CONSTRUCTOR_TAG, old(Model()), c)
    {
      Accept(Events(c));
      NonPublicConstructor.StreamFold(LegacyCtorStep, CONSTRUCTOR_TAG, old(Model()), c);
    }

    /** The classes of `cs`, one after the other, through this instance. */
    method AcceptAll(cs: seq<ClassFile>)
      modifies this
      ensures Model() == AfterClasses(old(Model()), cs)
    {
      for i := 0 to |cs|
        invariant Model() == AfterClasses(old(Model()), cs[..i])
      {
        assert cs[..i + 1][..i] == cs[..i];
        AcceptClass(cs[i]);
      }
      assert cs[..|cs|] == cs;
    }
  }

  // ---------------------------------------------------------------------
  // Long methods: no LDC callback, so constant loads are not counted.

  function LegacyLongStep(s: LongMethod.LongState, e: Event): LongMethod.LongState {
    LongMethod.Step(LONG_METHOD_TAG, false, s, e)
  }

  /** A method the legacy check reports is reported by the current one as well, with a count no smaller. */
  lemma LegacyReportImpliesCurrent(limit: int, cls: Option<string>, m: MethodInfo)
    requires LongMethod.MethodReport(LONG_METHOD_TAG, false, limit, cls, m) != []
    ensures LongMethod.MethodReport(LongMethod.CHECK_NAME, true, limit, cls, m) != []
    ensures LongMethod.CountOf(true, m.code) >= LongMethod.CountOf(false, m.code)
  {
    LongMethod.LdcCountDifference(m.code);
  }

  /** A method of 51 constant loads, limit 50: the current check reports it, the legacy one does not. */
  lemma LdcOnlyMethodMissed(cls: Option<string>, name: string)
    requires !IsInitializer(name)
    ensures var m := MethodInfo(ACC_PUBLIC, name, seq(51, _ => LdcInsn(NonNumeric("s"))));
      && LongMethod.MethodReport(LONG_METHOD_TAG, false, 50, cls, m) == []
      && LongMethod.MethodReport(LongMethod.CHECK_NAME, true, 50, cls, m)
         == [Diagnostic(LongMethod.CHECK_NAME, cls, TooManyInstructions(name, 51, 50))]
  {
    var code := seq(51, _ => LdcInsn(NonNumeric("s")));
    LongMethod.CountAllCounted(true, code);
    LongMethod.UncountedKindsIgnored(false, code);
  }

  class LegacyLongMethodCheck {
    var simpleClassName: Option<string>
    const maxInstructions: int
    // The per-method visitor.
    var inMethod: bool
    var methodName: string
    var instructionCount: int
    var printed: seq<Diagnostic>

    function Model(): LongMethod.LongState
      reads this
    {
      LongMethod.LongState(simpleClassName, maxInstructions, inMethod, methodName, instructionCount, printed)
    }

    constructor (maxInstructions: int)
      ensures Model() == LongMethod.Fresh(maxInstructions)
    {
      this.maxInstructions := maxInstructions;
      simpleClassName := None;
      inMethod, methodName, instructionCount := false, "", 0;
      printed := [];
    }

    method Visit(access: bv32, name: string)
      modifies this
      ensures Model() == LegacyLongStep(old(Model()), Class(access, name))
    {
      simpleClassName := Some(SimpleName(name));
    }

    method VisitMethod(access: bv32, name: string)
      modifies this
      ensures Model() == LegacyLongStep(old(Model()), MethodStart(access, name))
    {
      if name == INIT || name == CLINIT {
        inMethod := false;
        return;
      }
      inMethod := true;
      methodName := name;
      instructionCount := 0;
    }

    /** Each of the seven overridden instruction callbacks adds one. */
    method CountInstruction(i: Instruction)
      requires LongMethod.Counted(false, i)
      modifies this
      ensures Model() == LegacyLongStep(old(Model()), Instr(i))
    {
      if inMethod {
        instructionCount := instructionCount + 1;
      }
    }

    method VisitMethodEnd()
      modifies this
      ensures Model() == LegacyLongStep(old(Model()), MethodEnd)
    {
      if inMethod {
        if instructionCount > maxInstructions {
          printed := printed + [Diagnostic(LONG_METHOD_TAG, simpleClassName,
                                           TooManyInstructions(methodName, instructionCount, maxInstructions))];
        }
        inMethod := false;
      }
    }

    method Dispatch(e: Event)
      modifies this
      ensures Model() == LegacyLongStep(old(Model()), e)
    {
      match e
      case Class(access, name) => Visit(access, name);
      case MethodStart(access, name) => VisitMethod(access, name);
      case Instr(i) =>
        if LongMethod.Counted(false, i) {
          CountInstruction(i);
        }
      case MethodEnd => VisitMethodEnd();
      case _ =>
    }

    method Accept(es: seq<Event>)
      modifies this
      ensures Model() == Fold(LegacyLongStep, old(Model()), es)
    {
      for i := 0 to |es|
        invariant Model() == Fold(LegacyLongStep, old(Model()), es[..i])
      {
        assert es[..i + 1][..i] == es[..i];
        Dispatch(es[i]);
      }
      assert es[..|es|] == es;
    }

    /** One more class: what it prints is the reference with LDC left uncounted. */
    method AcceptClass(c: ClassFile)
      modifies this
      ensures printed == old(printed) + LongMethod.LongDiagnostics(LONG_METHOD_TAG, false, maxInstructions, c)
      ensures simpleClassName == Some(SimpleName(c.name))
    {
      Accept(Events(c));
      LongMethod.StreamMatchesReference(LegacyLongStep, LONG_METHOD_TAG, false, old(Model()), c);
    }
  }
}
