/**
 * MagicNumberCheck (src/src/Checks.java): in every method other than
 * `<init>` and `<clinit>`, each integer operand of an IntInsn (whatever its
 * opcode: BIPUSH, SIPUSH and also NEWARRAY) and each numeric LDC constant is
 * reported unless it is whitelisted.
 */
module MagicNumber {
  import opened Bytecode
  import opened Reporting

  const CHECK_NAME: string := "MagicNumber"

  predicate IsIntegral(n: Number) {
    n.IntegerNum? || n.LongNum?
  }

  predicate IsFloating(n: Number) {
    n.FloatNum? || n.DoubleNum?
  }

  /** `n.longValue()` for an Integer or a Long. */
  function LongValue(n: Number): Int64
    requires IsIntegral(n)
  {
    if n.IntegerNum? then n.i else n.l
  }

  /** `n.doubleValue()` for a Float or a Double (widening a float is exact). */
  function DoubleValue(n: Number): FloatValue
    requires IsFloating(n)
  {
    if n.FloatNum? then n.f else n.d
  }

  /** `isWhitelistedNumber`: -1, 0, 1 compared as long; 0.0, 1.0 compared as double; nothing else. */
  predicate IsWhitelisted(n: Number) {
    if IsIntegral(n) then
      var v := LongValue(n);
      v == -1 || v == 0 || v == 1
    else if IsFloating(n) then
      var v := DoubleValue(n);
      v == Finite(0.0) || v == Finite(1.0)
    else false
  }

  /** The literal an instruction puts before the check, if any. */
  function LiteralOf(i: Instruction): Option<Number> {
    match i
    case IntInsn(_, operand) => Some(IntegerNum(operand))
    case LdcInsn(Numeric(n)) => Some(n)
    case _ => None
  }

  datatype MagicState = MagicState(
    simpleClassName: Option<string>,
    inMethod: bool,
    methodName: string,
    diags: seq<Diagnostic>)

  const Fresh: MagicState := MagicState(None, false, "", [])

  function Step(s: MagicState, e: Event): MagicState {
    match e
    case Class(_, name) => s.(simpleClassName := Some(SimpleName(name)))
    case MethodStart(_, name) =>
      if IsInitializer(name) then s.(inMethod := false) else s.(inMethod := true, methodName := name)
    case Instr(i) =>
      if s.inMethod && LiteralOf(i).Some? && !IsWhitelisted(LiteralOf(i).value)
      then s.(diags := s.diags + [Diagnostic(CHECK_NAME, s.simpleClassName, MagicNumber(s.methodName, LiteralOf(i).value))])
      else s
    case MethodEnd => s.(inMethod := false)
    case _ => s
  }

  // ---------------------------------------------------------------------
  // Reference definition.

  /** The reports for the code of a method called `name`, instruction by instruction. */
  function CodeReports(cls: Option<string>, name: string, code: seq<Instruction>): seq<Diagnostic> {
    if code == [] then []
    else
      var lit := LiteralOf(code[|code| - 1]);
      CodeReports(cls, name, code[..|code| - 1])
      + (if lit.Some? && !IsWhitelisted(lit.value) then [Diagnostic(CHECK_NAME, cls, MagicNumber(name, lit.value))] else [])
  }

  /** Initialisers get no method visitor, hence no report. */
  function MethodReport(cls: Option<string>, m: MethodInfo): seq<Diagnostic> {
    if IsInitializer(m.name) then [] else CodeReports(cls, m.name, m.code)
  }

  function MethodReports(cls: Option<string>, ms: seq<MethodInfo>): seq<Diagnostic> {
    if ms == [] then []
    else MethodReports(cls, ms[..|ms| - 1]) + MethodReport(cls, ms[|ms| - 1])
  }

  /** Everything the check reports for class `c`, in instruction order. */
  function MagicDiagnostics(c: ClassFile): seq<Diagnostic> {
    MethodReports(Some(SimpleName(c.name)), c.methods)
  }

  /** How many instructions of `code` carry literal `v`. */
  function Occurrences(code: seq<Instruction>, v: Number): nat {
    if code == [] then 0
    else Occurrences(code[..|code| - 1], v) + (if LiteralOf(code[|code| - 1]) == Some(v) then 1 else 0)
  }

  // ---------------------------------------------------------------------
  // The event-by-event machine computes the reference.  The lemmas take the
  // step function as a parameter that behaves as `Step`, which keeps `Step`'s
  // body out of the reasoning about sequences of events.

  ghost predicate StepsAs(step: (MagicState, Event) -> MagicState) {
    forall s, e :: step(s, e) == Step(s, e)
  }

  lemma {:induction false} CodeFold(step: (MagicState, Event) -> MagicState, s: MagicState, code: seq<Instruction>)
    requires StepsAs(step)
    requires s.inMethod
    ensures Fold(step, s, InstrEvents(code)) == s.(diags := s.diags + CodeReports(s.simpleClassName, s.methodName, code))
    decreases |code|
  {
    if code == [] {
      assert s.diags + [] == s.diags;
    } else {
      assert InstrEvents(code)[..|code| - 1] == InstrEvents(code[..|code| - 1]);
      CodeFold(step, s, code[..|code| - 1]);
    }
  }

  lemma MethodFold(step: (MagicState, Event) -> MagicState, s: MagicState, m: MethodInfo)
    requires StepsAs(step)
    ensures var s' := Fold(step, s, MethodEvents(m));
      && s'.simpleClassName == s.simpleClassName
      && s'.diags == s.diags + MethodReport(s.simpleClassName, m)
  {
    var start := [MethodStart(m.access, m.name)];
    var s1 := step(s, MethodStart(m.access, m.name));
    var s2 := Fold(step, s1, InstrEvents(m.code));
    assert Fold(step, s, start + InstrEvents(m.code)) == s2 by {
      FoldAppend(step, s, start, InstrEvents(m.code));
      assert start[..0] == [];
    }
    assert Fold(step, s, MethodEvents(m)) == step(s2, MethodEnd) by {
      FoldAppend(step, s, start + InstrEvents(m.code), [MethodEnd]);
      assert [MethodEnd][..0] == [];
    }
    if IsInitializer(m.name) {
      forall i ensures step(s1, Instr(i)) == s1 { }
      InstructionsSkipped(step, s1, m.code);
      assert s.diags + [] == s.diags;
    } else {
      CodeFold(step, s1, m.code);
    }
  }

  lemma {:induction false} MethodsFold(step: (MagicState, Event) -> MagicState, s: MagicState, ms: seq<MethodInfo>)
    requires StepsAs(step)
    ensures var s' := Fold(step, s, MethodsEvents(ms));
      && s'.simpleClassName == s.simpleClassName
      && s'.diags == s.diags + MethodReports(s.simpleClassName, ms)
    decreases |ms|
  {
    if ms == [] {
      assert s.diags + [] == s.diags;
    } else {
      var p, m := ms[..|ms| - 1], ms[|ms| - 1];
      var cls := s.simpleClassName;
      var s1 := Fold(step, s, MethodsEvents(p));
      assert s1.simpleClassName == cls && s1.diags == s.diags + MethodReports(cls, p) by {
        MethodsFold(step, s, p);
      }
      assert Fold(step, s, MethodsEvents(ms)) == Fold(step, s1, MethodEvents(m)) by {
        assert MethodsEvents(ms) == MethodsEvents(p) + MethodEvents(m);
        FoldAppend(step, s, MethodsEvents(p), MethodEvents(m));
      }
      var s2 := Fold(step, s1, MethodEvents(m));
      var a, b := MethodReports(cls, p), MethodReport(cls, m);
      assert s2.simpleClassName == cls && s2.diags == s.diags + a + b by {
        MethodFold(step, s1, m);
      }
      assert MethodReports(cls, ms) == a + b;
      AppendAssoc(s.diags, a, b);
    }
  }

  /** From any state, the callbacks of class `c` append exactly `MagicDiagnostics(c)`. */
  lemma {:induction false} StreamMatchesReference(step: (MagicState, Event) -> MagicState, s: MagicState, c: ClassFile)
    requires StepsAs(step)
    ensures Fold(step, s, Events(c)).diags == s.diags + MagicDiagnostics(c)
  {
    var s1 := step(s, Class(c.access, c.name));
    assert s1 == s.(simpleClassName := Some(SimpleName(c.name)));
    assert Fold(step, s1, FieldsEvents(c.fields)) == s1 by {
      forall access, name ensures step(s1, Field(access, name)) == s1 { }
      FieldsSkipped(step, s1, c.fields);
    }
    var s3 := Fold(step, s1, MethodsEvents(c.methods));
    assert Fold(step, s, Events(c)) == s3 by {
      EventsFold(step, s, c);
      assert step(s3, ClassEnd) == s3;
    }
    MethodsFold(step, s1, c.methods);
  }

  // ---------------------------------------------------------------------
  // Properties.

  /** Integral literals are whitelisted exactly at -1, 0 and 1, whatever their kind. */
  lemma IntegralWhitelist(n: Number)
    requires IsIntegral(n)
    ensures IsWhitelisted(n) <==> LongValue(n) in {-1, 0, 1}
  {
  }

  /** An int literal and a long literal of the same value are judged alike. */
  lemma IntAndLongAgree(v: Int32)
    ensures IsWhitelisted(IntegerNum(v)) == IsWhitelisted(LongNum(v))
  {
  }

  /**
   * Floating literals are whitelisted exactly at 0.0 and 1.0 (negative zero
   * included, NaN and the infinities excluded); so a floating -1.0 is a magic
   * number although an integral -1 is not.
   */
  lemma FloatingWhitelist(n: Number)
    requires IsFloating(n)
    ensures IsWhitelisted(n) <==> DoubleValue(n).Finite? && DoubleValue(n).value in {0.0, 1.0}
    ensures !IsWhitelisted(FloatNum(Finite(-1.0))) && !IsWhitelisted(DoubleNum(NaN))
  {
  }

  /**
   * In a method that is not an initialiser, every occurrence of a literal
   * yields exactly one report when it is not whitelisted, and none when it is.
   */
  lemma {:induction false} ReportedOncePerOccurrence(cls: Option<string>, name: string, code: seq<Instruction>, v: Number)
    ensures multiset(CodeReports(cls, name, code))[Diagnostic(CHECK_NAME, cls, MagicNumber(name, v))]
         == if IsWhitelisted(v) then 0 else Occurrences(code, v)
    decreases |code|
  {
    if code != [] {
      ReportedOncePerOccurrence(cls, name, code[..|code| - 1], v);
    }
  }

  /** Each report of a method's code names that method and a literal outside the whitelist. */
  lemma {:induction false} CodeReportsAreMagic(cls: Option<string>, name: string, code: seq<Instruction>)
    ensures forall d :: d in CodeReports(cls, name, code) ==>
      d.message.MagicNumber? && d == Diagnostic(CHECK_NAME, cls, MagicNumber(name, d.message.value))
      && !IsWhitelisted(d.message.value)
    decreases |code|
  {
    if code != [] {
      CodeReportsAreMagic(cls, name, code[..|code| - 1]);
    }
  }

  /** Every report of a class names a method that is not an initialiser and a literal outside the whitelist. */
  lemma {:induction false} ReportsAreMagic(cls: Option<string>, ms: seq<MethodInfo>)
    ensures forall d :: d in MethodReports(cls, ms) ==>
      d.check == CHECK_NAME && d.className == cls && d.message.MagicNumber?
      && (exists m :: m in ms && d.message.methodName == m.name && !IsInitializer(m.name))
      && !IsWhitelisted(d.message.value)
    decreases |ms|
  {
    if ms != [] {
      var m := ms[|ms| - 1];
      ReportsAreMagic(cls, ms[..|ms| - 1]);
      CodeReportsAreMagic(cls, m.name, m.code);
      forall d | d in MethodReports(cls, ms)
        ensures exists m' :: m' in ms && d.message.methodName == m'.name && !IsInitializer(m'.name)
      {
        if d in MethodReports(cls, ms[..|ms| - 1]) {
          var m' :| m' in ms[..|ms| - 1] && d.message.methodName == m'.name && !IsInitializer(m'.name);
          assert m' in ms;
        } else {
          assert m in ms;
        }
      }
    }
  }

  /** A constant load of something that is not a Number never adds a report. */
  lemma NonNumericLdcNeverReported(cls: Option<string>, name: string, code: seq<Instruction>, text: string)
    ensures CodeReports(cls, name, code + [LdcInsn(NonNumeric(text))]) == CodeReports(cls, name, code)
  {
    assert (code + [LdcInsn(NonNumeric(text))])[..|code|] == code;
  }

  /** A class whose methods are all initialisers yields no report, whatever their code. */
  lemma {:induction false} InitializersNeverReported(cls: Option<string>, ms: seq<MethodInfo>)
    requires forall k :: 0 <= k < |ms| ==> IsInitializer(ms[k].name)
    ensures MethodReports(cls, ms) == []
    decreases |ms|
  {
    if ms != [] {
      InitializersNeverReported(cls, ms[..|ms| - 1]);
    }
  }

  /**
   * The operand of every IntInsn is judged, so the NEWARRAY type code of
   * `new int[n]` (10) is reported as a magic number.
   */
  lemma NewArrayTypeCodeReported(cls: Option<string>, name: string)
    ensures CodeReports(cls, name, [IntInsn(NEWARRAY, T_INT)])
         == [Diagnostic(CHECK_NAME, cls, MagicNumber(name, IntegerNum(10)))]
  {
    assert [IntInsn(NEWARRAY, T_INT)][..0] == [];
  }

  // ---------------------------------------------------------------------

  class MagicNumberCheck {
    var simpleClassName: Option<string>
    // The per-method visitor.
    var inMethod: bool
    var methodName: string
    var diags: seq<Diagnostic>

    function Model(): MagicState
      reads this
    {
      MagicState(simpleClassName, inMethod, methodName, diags)
    }

    constructor ()
      ensures Model() == Fresh
    {
      simpleClassName, inMethod, methodName, diags := None, false, "", [];
    }

    method Report(value: Number)
      modifies this
      ensures Model() == old(Model()).(diags := old(diags) + [Diagnostic(CHECK_NAME, simpleClassName, MagicNumber(methodName, value))])
    {
      diags := diags + [Diagnostic(CHECK_NAME, simpleClassName, MagicNumber(methodName, value))];
    }

    method IsWhitelistedNumber(n: Number) returns (r: bool)
      ensures r == IsWhitelisted(n)
    {
      if n.IntegerNum? || n.LongNum? {
        var v := LongValue(n);
        return v == -1 || v == 0 || v == 1;
      }
      if n.FloatNum? || n.DoubleNum? {
        var v := DoubleValue(n);
        return v == Finite(0.0) || v == Finite(1.0);
      }
      return false;
    }

    method Visit(access: bv32, name: string)
      modifies this
      ensures Model() == Step(old(Model()), Class(access, name))
    {
      simpleClassName := Some(SimpleName(name));
    }

    method VisitMethod(access: bv32, name: string)
      modifies this
      ensures Model() == Step(old(Model()), MethodStart(access, name))
    {
      if name == INIT || name == CLINIT {
        inMethod := false;
        return;
      }
      inMethod := true;
      methodName := name;
    }

    method VisitIntInsn(opcode: int, operand: Int32)
      modifies this
      ensures Model() == Step(old(Model()), Instr(IntInsn(opcode, operand)))
    {
      if inMethod {
        var ok := IsWhitelistedNumber(IntegerNum(operand));
        if !ok {
          Report(IntegerNum(operand));
        }
      }
    }

    method VisitLdcInsn(value: Constant)
      modifies this
      ensures Model() == Step(old(Model()), Instr(LdcInsn(value)))
    {
      if inMethod && value.Numeric? {
        var ok := IsWhitelistedNumber(value.n);
        if !ok {
          Report(value.n);
        }
      }
    }

    /** The decoder delivers nothing more to the method's visitor. */
    method VisitMethodEnd()
      modifies this
      ensures Model() == Step(old(Model()), MethodEnd)
    {
      inMethod := false;
    }

    method Dispatch(e: Event)
      modifies this
      ensures Model() == Step(old(Model()), e)
    {
      match e
      case Class(access, name) => Visit(access, name);
      case MethodStart(access, name) => VisitMethod(access, name);
      case Instr(IntInsn(op, operand)) => VisitIntInsn(op, operand);
      case Instr(LdcInsn(value)) => VisitLdcInsn(value);
      case MethodEnd => VisitMethodEnd();
      case _ =>
    }

    method Accept(es: seq<Event>)
      modifies this
      ensures Model() == Fold(Step, old(Model()), es)
    {
      for i := 0 to |es|
        invariant Model() == Fold(Step, old(Model()), es[..i])
      {
        assert es[..i + 1][..i] == es[..i];
        Dispatch(es[i]);
      }
      assert es[..|es|] == es;
    }

    method RunOnClass(c: ClassFile)
      modifies this
      ensures diags == MagicDiagnostics(c)
    {
      simpleClassName := None;
      diags := [];
      Accept(Events(c));
      StreamMatchesReference(Step, old(Model()).(simpleClassName := None, diags := []), c);
    }
  }
}
