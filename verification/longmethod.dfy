/**
 * LongMethodCheck (src/src/Checks.java): every method other than `<init>`
 * and `<clinit>` gets a counter, raised by one for each instruction
 * delivered through one of the counting callbacks; at the method's end a
 * count above `maxInstructions` is reported.  IINC, switches,
 * MULTIANEWARRAY and INVOKEDYNAMIC arrive through callbacks the check does
 * not override and are not counted.  The legacy variant in src/Checks.java
 * has no LDC callback either (`countsLdc == false`).
 */
module LongMethod {
  import opened Bytecode
  import opened Reporting

  const CHECK_NAME: string := "LongMethod"

  /** Whether instruction `i` reaches one of the counting callbacks. */
  predicate Counted(countsLdc: bool, i: Instruction) {
    || i.Insn? || i.IntInsn? || i.VarInsn? || i.TypeInsn?
    || i.FieldInsn? || i.MethodInsn? || i.JumpInsn?
    || (countsLdc && i.LdcInsn?)
  }

  /**
   * The check's fields: the class name for reports, the limit, and the
   * state of the per-method visitor (`inMethod` is false where the check
   * has no visitor: between methods and inside an initialiser).
   */
  datatype LongState = LongState(
    simpleClassName: Option<string>,
    maxInstructions: int,
    inMethod: bool,
    methodName: string,
    instructionCount: int,
    diags: seq<Diagnostic>)

  function Fresh(maxInstructions: int): LongState {
    LongState(None, maxInstructions, false, "", 0, [])
  }

  function Step(tag: string, countsLdc: bool, s: LongState, e: Event): LongState {
    match e
    case Class(_, name) => s.(simpleClassName := Some(SimpleName(name)))
    case MethodStart(_, name) =>
      if IsInitializer(name) then s.(inMethod := false)
      else s.(inMethod := true, methodName := name, instructionCount := 0)
    case Instr(i) =>
      if s.inMethod && Counted(countsLdc, i) then s.(instructionCount := s.instructionCount + 1) else s
    case MethodEnd =>
      if !s.inMethod then s
      else if s.instructionCount > s.maxInstructions
      then s.(inMethod := false,
              diags := s.diags + [Diagnostic(tag, s.simpleClassName,
                                             TooManyInstructions(s.methodName, s.instructionCount, s.maxInstructions))])
      else s.(inMethod := false)
    case _ => s
  }

  function LongStep(s: LongState, e: Event): LongState {
    Step(CHECK_NAME, true, s, e)
  }

  ghost predicate StepsAs(step: (LongState, Event) -> LongState, tag: string, countsLdc: bool) {
    forall s, e :: step(s, e) == Step(tag, countsLdc, s, e)
  }

  // ---------------------------------------------------------------------
  // Reference definition.

  /** The number of instructions of `code` that reach a counting callback. */
  function CountOf(countsLdc: bool, code: seq<Instruction>): (n: nat)
    ensures n <= |code|
  {
    if code == [] then 0
    else CountOf(countsLdc, code[..|code| - 1]) + (if Counted(countsLdc, code[|code| - 1]) then 1 else 0)
  }

  function MethodReport(tag: string, countsLdc: bool, limit: int, cls: Option<string>, m: MethodInfo): seq<Diagnostic> {
    if !IsInitializer(m.name) && CountOf(countsLdc, m.code) > limit
    then [Diagnostic(tag, cls, TooManyInstructions(m.name, CountOf(countsLdc, m.code), limit))]
    else []
  }

  function MethodReports(tag: string, countsLdc: bool, limit: int, cls: Option<string>, ms: seq<MethodInfo>): seq<Diagnostic> {
    if ms == [] then []
    else MethodReports(tag, countsLdc, limit, cls, ms[..|ms| - 1]) + MethodReport(tag, countsLdc, limit, cls, ms[|ms| - 1])
  }

  /** Everything the check reports for class `c`, method by method in declaration order. */
  function LongDiagnostics(tag: string, countsLdc: bool, limit: int, c: ClassFile): seq<Diagnostic> {
    MethodReports(tag, countsLdc, limit, Some(SimpleName(c.name)), c.methods)
  }

  // ---------------------------------------------------------------------
  // The event-by-event machine computes the reference.

  lemma {:induction false} CodeFold(step: (LongState, Event) -> LongState, tag: string, countsLdc: bool,
                                    s: LongState, code: seq<Instruction>)
    requires StepsAs(step, tag, countsLdc)
    ensures Fold(step, s, InstrEvents(code))
         == if s.inMethod then s.(instructionCount := s.instructionCount + CountOf(countsLdc, code)) else s
    decreases |code|
  {
    if code != [] {
      assert InstrEvents(code)[..|code| - 1] == InstrEvents(code[..|code| - 1]);
      CodeFold(step, tag, countsLdc, s, code[..|code| - 1]);
    }
  }

  lemma MethodFold(step: (LongState, Event) -> LongState, tag: string, countsLdc: bool,
                   s: LongState, m: MethodInfo)
    requires StepsAs(step, tag, countsLdc)
    ensures var s' := Fold(step, s, MethodEvents(m));
      && s'.simpleClassName == s.simpleClassName
      && s'.maxInstructions == s.maxInstructions
      && s'.diags == s.diags + MethodReport(tag, countsLdc, s.maxInstructions, s.simpleClassName, m)
  {
    var start := [MethodStart(m.access, m.name)];
    var s1 := step(s, MethodStart(m.access, m.name));
    var s2 := Fold(step, s1, InstrEvents(m.code));
    assert Fold(step, s, start + InstrEvents(m.code)) == s2 by {
      FoldAppend(step, s, start, InstrEvents(m.code));
      assert start[..0] == [];
    }
    assert Fold(step, s, MethodEvents(m)) == step(s2, MethodEnd) by {
      FoldAppend(step, s, start + InstrEvents(m.code), [MethodEnd]);
      assert [MethodEnd][..0] == [];
    }
    CodeFold(step, tag, countsLdc, s1, m.code);
    var n := CountOf(countsLdc, m.code);
    if IsInitializer(m.name) {
      assert s2 == s.(inMethod := false);
    } else {
      assert s2 == s.(inMethod := true, methodName := m.name, instructionCount := n);
    }
  }

  lemma {:induction false} MethodsFold(step: (LongState, Event) -> LongState, tag: string, countsLdc: bool,
                                       s: LongState, ms: seq<MethodInfo>)
    requires StepsAs(step, tag, countsLdc)
    ensures var s' := Fold(step, s, MethodsEvents(ms));
      && s'.simpleClassName == s.simpleClassName
      && s'.maxInstructions == s.maxInstructions
      && s'.diags == s.diags + MethodReports(tag, countsLdc, s.maxInstructions, s.simpleClassName, ms)
    decreases |ms|
  {
    if ms == [] {
      assert s.diags + [] == s.diags;
    } else {
      var m := ms[|ms| - 1];
      var before := MethodsEvents(ms[..|ms| - 1]);
      MethodsFold(step, tag, countsLdc, s, ms[..|ms| - 1]);
      var s1 := Fold(step, s, before);
      FoldAppend(step, s, before, MethodEvents(m));
      MethodFold(step, tag, countsLdc, s1, m);
    }
  }

  /** From any state, the callbacks of class `c` append exactly `LongDiagnostics`. */
  lemma {:induction false} StreamMatchesReference(step: (LongState, Event) -> LongState, tag: string, countsLdc: bool,
                                                  s: LongState, c: ClassFile)
    requires StepsAs(step, tag, countsLdc)
    ensures Fold(step, s, Events(c)).diags == s.diags + LongDiagnostics(tag, countsLdc, s.maxInstructions, c)
    ensures Fold(step, s, Events(c)).maxInstructions == s.maxInstructions
    ensures Fold(step, s, Events(c)).simpleClassName == Some(SimpleName(c.name))
  {
    var s1 := step(s, Class(c.access, c.name));
    assert s1 == s.(simpleClassName := Some(SimpleName(c.name)));
    assert Fold(step, s1, FieldsEvents(c.fields)) == s1 by {
      forall access, name ensures step(s1, Field(access, name)) == s1 { }
      FieldsSkipped(step, s1, c.fields);
    }
    var s3 := Fold(step, s1, MethodsEvents(c.methods));
    assert Fold(step, s, Events(c)) == s3 by {
      EventsFold(step, s, c);
      assert step(s3, ClassEnd) == s3;
    }
    MethodsFold(step, tag, countsLdc, s1, c.methods);
  }

  // ---------------------------------------------------------------------
  // Properties.

  /** Counting is additive over concatenated code. */
  lemma {:induction false} CountAppend(countsLdc: bool, a: seq<Instruction>, b: seq<Instruction>)
    ensures CountOf(countsLdc, a + b) == CountOf(countsLdc, a) + CountOf(countsLdc, b)
    decreases |b|
  {
    if b == [] {
      assert a + b == a;
    } else {
      assert (a + b)[..|a + b| - 1] == a + b[..|b| - 1];
      CountAppend(countsLdc, a, b[..|b| - 1]);
    }
  }

  /** Code made only of counted instructions counts its full length. */
  lemma {:induction false} CountAllCounted(countsLdc: bool, code: seq<Instruction>)
    requires forall k :: 0 <= k < |code| ==> Counted(countsLdc, code[k])
    ensures CountOf(countsLdc, code) == |code|
    decreases |code|
  {
    if code != [] {
      CountAllCounted(countsLdc, code[..|code| - 1]);
    }
  }

  /** Instructions of the kinds without a counting callback never change the count. */
  lemma {:induction false} UncountedKindsIgnored(countsLdc: bool, code: seq<Instruction>)
    requires forall k :: 0 <= k < |code| ==> !Counted(countsLdc, code[k])
    ensures CountOf(countsLdc, code) == 0
    decreases |code|
  {
    if code != [] {
      UncountedKindsIgnored(countsLdc, code[..|code| - 1]);
    }
  }

  /** The number of LDC instructions in `code`. */
  function LdcCount(code: seq<Instruction>): nat {
    if code == [] then 0 else LdcCount(code[..|code| - 1]) + (if code[|code| - 1].LdcInsn? then 1 else 0)
  }

  /** Counting with LDC exceeds counting without it by exactly the number of LDC instructions. */
  lemma {:induction false} LdcCountDifference(code: seq<Instruction>)
    ensures CountOf(true, code) == CountOf(false, code) + LdcCount(code)
    decreases |code|
  {
    if code != [] {
      LdcCountDifference(code[..|code| - 1]);
    }
  }

  /**
   * A method is reported iff it is not an initialiser and its count is
   * above the limit, and then once, carrying its count and the limit.
   */
  lemma ReportIffOverLimit(tag: string, countsLdc: bool, limit: int, cls: Option<string>, m: MethodInfo)
    ensures |MethodReport(tag, countsLdc, limit, cls, m)| <= 1
    ensures MethodReport(tag, countsLdc, limit, cls, m) != []
        <==> !IsInitializer(m.name) && CountOf(countsLdc, m.code) > limit
    ensures forall d :: d in MethodReport(tag, countsLdc, limit, cls, m) ==>
      d.message == TooManyInstructions(m.name, CountOf(countsLdc, m.code), limit)
  {
  }

  /** A method with exactly 50 counted instructions and limit 50 is not reported; one with 51 is. */
  lemma AtLimitSilentAboveReported(tag: string, countsLdc: bool, cls: Option<string>, name: string)
    requires !IsInitializer(name)
    ensures MethodReport(tag, countsLdc, 50, cls, MethodInfo(ACC_PUBLIC, name, seq(50, _ => Insn(NOP)))) == []
    ensures MethodReport(tag, countsLdc, 50, cls, MethodInfo(ACC_PUBLIC, name, seq(51, _ => Insn(NOP))))
         == [Diagnostic(tag, cls, TooManyInstructions(name, 51, 50))]
  {
    CountAllCounted(countsLdc, seq(50, _ => Insn(NOP)));
    CountAllCounted(countsLdc, seq(51, _ => Insn(NOP)));
  }

  /** Initialisers are never reported, however long. */
  lemma InitializersNeverReported(tag: string, countsLdc: bool, limit: int, cls: Option<string>, m: MethodInfo)
    requires IsInitializer(m.name)
    ensures MethodReport(tag, countsLdc, limit, cls, m) == []
  {
  }

  // ---------------------------------------------------------------------

  class LongMethodCheck {
    var simpleClassName: Option<string>
    const maxInstructions: int
    // The per-method visitor.
    var inMethod: bool
    var methodName: string
    var instructionCount: int
    var diags: seq<Diagnostic>

    function Model(): LongState
      reads this
    {
      LongState(simpleClassName, maxInstructions, inMethod, methodName, instructionCount, diags)
    }

    constructor (maxInstructions: int)
      ensures Model() == Fresh(maxInstructions)
    {
      this.maxInstructions := maxInstructions;
      simpleClassName := None;
      inMethod, methodName, instructionCount := false, "", 0;
      diags := [];
    }

    method Visit(access: bv32, name: string)
      modifies this
      ensures Model() == LongStep(old(Model()), Class(access, name))
    {
      simpleClassName := Some(SimpleName(name));
    }

    /** No visitor for the initialisers; a fresh counter for every other method. */
    method VisitMethod(access: bv32, name: string)
      modifies this
      ensures Model() == LongStep(old(Model()), MethodStart(access, name))
    {
      if name == INIT || name == CLINIT {
        inMethod := false;
        return;
      }
      inMethod := true;
      methodName := name;
      instructionCount := 0;
    }

    method CountInstruction()
      modifies this
      ensures inMethod ==> Model() == old(Model()).(instructionCount := old(instructionCount) + 1)
      ensures !inMethod ==> Model() == old(Model())
    {
      if inMethod {
        instructionCount := instructionCount + 1;
      }
    }

    method VisitInsn(opcode: int)
      modifies this
      ensures Model() == LongStep(old(Model()), Instr(Insn(opcode)))
    { CountInstruction(); }

    method VisitIntInsn(opcode: int, operand: Int32)
      modifies this
      ensures Model() == LongStep(old(Model()), Instr(IntInsn(opcode, operand)))
    { CountInstruction(); }

    method VisitVarInsn(opcode: int, varIndex: nat)
      modifies this
      ensures Model() == LongStep(old(Model()), Instr(VarInsn(opcode, varIndex)))
    { CountInstruction(); }

    method VisitTypeInsn(opcode: int, typeName: string)
      modifies this
      ensures Model() == LongStep(old(Model()), Instr(TypeInsn(opcode, typeName)))
    { CountInstruction(); }

    method VisitFieldInsn(opcode: int, owner: string, name: string, descriptor: string)
      modifies this
      ensures Model() == LongStep(old(Model()), Instr(FieldInsn(opcode, owner, name, descriptor)))
    { CountInstruction(); }

    method VisitMethodInsn(opcode: int, owner: string, name: string, descriptor: string, isInterface: bool)
      modifies this
      ensures Model() == LongStep(old(Model()), Instr(MethodInsn(opcode, owner, name, descriptor, isInterface)))
    { CountInstruction(); }

    method VisitJumpInsn(opcode: int, target: nat)
      modifies this
      ensures Model() == LongStep(old(Model()), Instr(JumpInsn(opcode, target)))
    { CountInstruction(); }

    method VisitLdcInsn(value: Constant)
      modifies this
      ensures Model() == LongStep(old(Model()), Instr(LdcInsn(value)))
    { CountInstruction(); }

    /** The visitor's `visitEnd`: report an over-long method; the visitor is then done. */
    method VisitMethodEnd()
      modifies this
      ensures Model() == LongStep(old(Model()), MethodEnd)
    {
      if inMethod {
        if instructionCount > maxInstructions {
          diags := diags + [Diagnostic(CHECK_NAME, simpleClassName,
                                       TooManyInstructions(methodName, instructionCount, maxInstructions))];
        }
        inMethod := false;
      }
    }

    method Dispatch(e: Event)
      modifies this
      ensures Model() == LongStep(old(Model()), e)
    {
      match e
      case Class(access, name) => Visit(access, name);
      case MethodStart(access, name) => VisitMethod(access, name);
      case Instr(i) =>
        match i {
        case Insn(op) => VisitInsn(op);
        case IntInsn(op, operand) => VisitIntInsn(op, operand);
        case VarInsn(op, v) => VisitVarInsn(op, v);
        case TypeInsn(op, t) => VisitTypeInsn(op, t);
        case FieldInsn(op, owner, name, desc) => VisitFieldInsn(op, owner, name, desc);
        case MethodInsn(op, owner, name, desc, itf) => VisitMethodInsn(op, owner, name, desc, itf);
        case JumpInsn(op, target) => VisitJumpInsn(op, target);
        case LdcInsn(value) => VisitLdcInsn(value);
        case _ =>
        }
      case MethodEnd => VisitMethodEnd();
      case _ =>
    }

    method Accept(es: seq<Event>)
      modifies this
      ensures Model() == Fold(LongStep, old(Model()), es)
    {
      for i := 0 to |es|
        invariant Model() == Fold(LongStep, old(Model()), es[..i])
      {
        assert es[..i + 1][..i] == es[..i];
        Dispatch(es[i]);
      }
      assert es[..|es|] == es;
    }

    method RunOnClass(c: ClassFile)
      modifies this
      ensures diags == LongDiagnostics(CHECK_NAME, true, maxInstructions, c)
    {
      simpleClassName := None;
      diags := [];
      Accept(Events(c));
      StreamMatchesReference(LongStep, CHECK_NAME, true, old(Model()).(simpleClassName := None, diags := []), c);
    }
  }
}
