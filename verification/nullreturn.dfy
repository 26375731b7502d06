/**
 * NullReturnCheck (src/src/Checks.java): a method other than `<init>` and
 * `<clinit>` is reported once, when its visitor ends, if somewhere in its
 * code an ARETURN follows an ACONST_NULL with no other zero-operand
 * instruction in between.  Only the zero-operand instructions (`visitInsn`)
 * move the window; loads, stores, constants and every other kind of
 * instruction leave it as it is.
 */
module NullReturn {
  import opened Bytecode
  import opened Reporting

  const CHECK_NAME: string := "NullReturn"

  /** The two flags of the per-method visitor. */
  datatype Window = Window(sawNullBeforeReturn: bool, foundNullReturn: bool)

  const Closed: Window := Window(false, false)

  /** `visitInsn(opcode)` on the window. */
  function InsnStep(w: Window, opcode: int): Window {
    if opcode == ACONST_NULL then w.(sawNullBeforeReturn := true)
    else if opcode == ARETURN && w.sawNullBeforeReturn then w.(foundNullReturn := true)
    else w.(sawNullBeforeReturn := false)
  }

  /** The window after the instructions of `code`, from a fresh visitor. */
  function Scan(code: seq<Instruction>): Window {
    if code == [] then Closed
    else
      var i := code[|code| - 1];
      if i.Insn? then InsnStep(Scan(code[..|code| - 1]), i.opcode) else Scan(code[..|code| - 1])
  }

  datatype NullState = NullState(
    simpleClassName: Option<string>,
    inMethod: bool,
    methodName: string,
    window: Window,
    diags: seq<Diagnostic>)

  const Fresh: NullState := NullState(None, false, "", Closed, [])

  function Step(s: NullState, e: Event): NullState {
    match e
    case Class(_, name) => s.(simpleClassName := Some(SimpleName(name)))
    case MethodStart(_, name) =>
      if IsInitializer(name) then s.(inMethod := false)
      else s.(inMethod := true, methodName := name, window := Closed)
    case Instr(Insn(opcode)) =>
      if s.inMethod then s.(window := InsnStep(s.window, opcode)) else s
    case MethodEnd =>
      if !s.inMethod then s
      else if s.window.foundNullReturn
      then s.(inMethod := false, diags := s.diags + [Diagnostic(CHECK_NAME, s.simpleClassName, ReturnsNull(s.methodName))])
      else s.(inMethod := false)
    case _ => s
  }

  // ---------------------------------------------------------------------
  // Reference definition: the heuristic stated over positions in the code.

  /** A zero-operand instruction other than ACONST_NULL and ARETURN closes the window. */
  predicate ClosesWindow(i: Instruction) {
    i.Insn? && i.opcode != ACONST_NULL && i.opcode != ARETURN
  }

  /** Some ACONST_NULL of `code` is followed by no window-closing instruction. */
  predicate NullPending(code: seq<Instruction>) {
    exists j :: 0 <= j < |code| && code[j] == Insn(ACONST_NULL)
      && forall k :: j < k < |code| ==> !ClosesWindow(code[k])
  }

  /** Some ARETURN of `code` is reached while a null is pending. */
  predicate ReturnsNullDirectly(code: seq<Instruction>) {
    exists k :: 0 <= k < |code| && code[k] == Insn(ARETURN) && NullPending(code[..k])
  }

  function MethodReport(cls: Option<string>, m: MethodInfo): seq<Diagnostic> {
    if !IsInitializer(m.name) && ReturnsNullDirectly(m.code)
    then [Diagnostic(CHECK_NAME, cls, ReturnsNull(m.name))]
    else []
  }

  function MethodReports(cls: Option<string>, ms: seq<MethodInfo>): seq<Diagnostic> {
    if ms == [] then []
    else MethodReports(cls, ms[..|ms| - 1]) + MethodReport(cls, ms[|ms| - 1])
  }

  /** Everything the check reports for class `c`, one report at most per method, in declaration order. */
  function NullDiagnostics(c: ClassFile): seq<Diagnostic> {
    MethodReports(Some(SimpleName(c.name)), c.methods)
  }

  // ---------------------------------------------------------------------
  // The window computes the heuristic.

  lemma {:induction false} PendingOneMore(code: seq<Instruction>, i: Instruction)
    ensures NullPending(code + [i]) <==>
      if i == Insn(ACONST_NULL) then true
      else if ClosesWindow(i) then false
      else NullPending(code)
  {
    var c := code + [i];
    if i == Insn(ACONST_NULL) {
      assert c[|code|] == Insn(ACONST_NULL);
    } else if ClosesWindow(i) {
      forall j | 0 <= j < |c| && c[j] == Insn(ACONST_NULL)
        ensures exists k :: j < k < |c| && ClosesWindow(c[k])
      {
        assert j < |code| && ClosesWindow(c[|code|]);
      }
    } else {
      if NullPending(code) {
        var j :| 0 <= j < |code| && code[j] == Insn(ACONST_NULL) && forall k :: j < k < |code| ==> !ClosesWindow(code[k]);
        assert c[j] == Insn(ACONST_NULL);
        assert forall k :: j < k < |c| ==> !ClosesWindow(c[k]) by {
          forall k | j < k < |c| ensures !ClosesWindow(c[k]) {
            if k < |code| { assert c[k] == code[k]; }
          }
        }
      }
      if NullPending(c) {
        var j :| 0 <= j < |c| && c[j] == Insn(ACONST_NULL) && forall k :: j < k < |c| ==> !ClosesWindow(c[k]);
        assert j < |code|;
        assert code[j] == Insn(ACONST_NULL);
        assert forall k :: j < k < |code| ==> !ClosesWindow(code[k]) by {
          forall k | j < k < |code| ensures !ClosesWindow(code[k]) {
            assert c[k] == code[k];
          }
        }
      }
    }
  }

  /** The first flag of the window says exactly whether a null is pending. */
  lemma {:induction false} SawNullIffPending(code: seq<Instruction>)
    ensures Scan(code).sawNullBeforeReturn <==> NullPending(code)
    decreases |code|
  {
    if code != [] {
      var p, i := code[..|code| - 1], code[|code| - 1];
      assert code == p + [i];
      SawNullIffPending(p);
      PendingOneMore(p, i);
    }
  }

  lemma {:induction false} ReturnsOneMore(code: seq<Instruction>, i: Instruction)
    ensures ReturnsNullDirectly(code + [i]) <==> ReturnsNullDirectly(code) || (i == Insn(ARETURN) && NullPending(code))
  {
    var c := code + [i];
    assert c[..|code|] == code;
    if ReturnsNullDirectly(code) {
      var k :| 0 <= k < |code| && code[k] == Insn(ARETURN) && NullPending(code[..k]);
      assert c[k] == code[k] && c[..k] == code[..k];
    }
    if ReturnsNullDirectly(c) {
      var k :| 0 <= k < |c| && c[k] == Insn(ARETURN) && NullPending(c[..k]);
      if k < |code| {
        assert code[k] == c[k] && code[..k] == c[..k];
      }
    }
  }

  /** The second flag says exactly whether an ARETURN met a pending null. */
  lemma {:induction false} FoundIffReturnsNull(code: seq<Instruction>)
    ensures Scan(code).foundNullReturn <==> ReturnsNullDirectly(code)
    decreases |code|
  {
    if code != [] {
      var p, i := code[..|code| - 1], code[|code| - 1];
      assert code == p + [i];
      FoundIffReturnsNull(p);
      SawNullIffPending(p);
      ReturnsOneMore(p, i);
    }
  }

  // ---------------------------------------------------------------------
  // The event-by-event machine computes the reference.  The lemmas take the
  // step function as a parameter that behaves as `Step`.

  ghost predicate StepsAs(step: (NullState, Event) -> NullState) {
    forall s, e :: step(s, e) == Step(s, e)
  }

  lemma {:induction false} CodeFold(step: (NullState, Event) -> NullState, s: NullState, code: seq<Instruction>)
    requires StepsAs(step)
    requires s.inMethod && s.window == Closed
    ensures Fold(step, s, InstrEvents(code)) == s.(window := Scan(code))
    decreases |code|
  {
    if code != [] {
      assert InstrEvents(code)[..|code| - 1] == InstrEvents(code[..|code| - 1]);
      CodeFold(step, s, code[..|code| - 1]);
    }
  }

  lemma MethodFold(step: (NullState, Event) -> NullState, s: NullState, m: MethodInfo)
    requires StepsAs(step)
    ensures var s' := Fold(step, s, MethodEvents(m));
      && s'.simpleClassName == s.simpleClassName
      && s'.diags == s.diags + MethodReport(s.simpleClassName, m)
  {
    var start := [MethodStart(m.access, m.name)];
    var s1 := step(s, MethodStart(m.access, m.name));
    var s2 := Fold(step, s1, InstrEvents(m.code));
    assert Fold(step, s, start + InstrEvents(m.code)) == s2 by {
      FoldAppend(step, s, start, InstrEvents(m.code));
      assert start[..0] == [];
    }
    assert Fold(step, s, MethodEvents(m)) == step(s2, MethodEnd) by {
      FoldAppend(step, s, start + InstrEvents(m.code), [MethodEnd]);
      assert [MethodEnd][..0] == [];
    }
    if !IsInitializer(m.name) {
      CodeFold(step, s1, m.code);
      FoundIffReturnsNull(m.code);
    } else {
      forall i ensures step(s1, Instr(i)) == s1 { }
      InstructionsSkipped(step, s1, m.code);
      assert s.diags + [] == s.diags;
    }
  }

  lemma {:induction false} MethodsFold(step: (NullState, Event) -> NullState, s: NullState, ms: seq<MethodInfo>)
    requires StepsAs(step)
    ensures var s' := Fold(step, s, MethodsEvents(ms));
      && s'.simpleClassName == s.simpleClassName
      && s'.diags == s.diags + MethodReports(s.simpleClassName, ms)
    decreases |ms|
  {
    if ms == [] {
      assert s.diags + [] == s.diags;
    } else {
      var p, m := ms[..|ms| - 1], ms[|ms| - 1];
      var cls := s.simpleClassName;
      var s1 := Fold(step, s, MethodsEvents(p));
      assert s1.simpleClassName == cls && s1.diags == s.diags + MethodReports(cls, p) by {
        MethodsFold(step, s, p);
      }
      assert Fold(step, s, MethodsEvents(ms)) == Fold(step, s1, MethodEvents(m)) by {
        assert MethodsEvents(ms) == MethodsEvents(p) + MethodEvents(m);
        FoldAppend(step, s, MethodsEvents(p), MethodEvents(m));
      }
      var s2 := Fold(step, s1, MethodEvents(m));
      var a, b := MethodReports(cls, p), MethodReport(cls, m);
      assert s2.simpleClassName == cls && s2.diags == s.diags + a + b by {
        MethodFold(step, s1, m);
      }
      assert MethodReports(cls, ms) == a + b;
      AppendAssoc(s.diags, a, b);
    }
  }

  /** From any state, the callbacks of class `c` append exactly `NullDiagnostics(c)`. */
  lemma {:induction false} StreamMatchesReference(step: (NullState, Event) -> NullState, s: NullState, c: ClassFile)
    requires StepsAs(step)
    ensures Fold(step, s, Events(c)).diags == s.diags + NullDiagnostics(c)
  {
    var s1 := step(s, Class(c.access, c.name));
    assert s1 == s.(simpleClassName := Some(SimpleName(c.name)));
    assert Fold(step, s1, FieldsEvents(c.fields)) == s1 by {
      forall access, name ensures step(s1, Field(access, name)) == s1 { }
      FieldsSkipped(step, s1, c.fields);
    }
    var s3 := Fold(step, s1, MethodsEvents(c.methods));
    assert Fold(step, s, Events(c)) == s3 by {
      EventsFold(step, s, c);
      assert step(s3, ClassEnd) == s3;
    }
    MethodsFold(step, s1, c.methods);
  }

  // ---------------------------------------------------------------------
  // Properties.

  /** `return null;` compiles to ACONST_NULL, ARETURN and is reported. */
  lemma DirectNullReturnFlagged()
    ensures ReturnsNullDirectly([Insn(ACONST_NULL), Insn(ARETURN)])
  {
    var code := [Insn(ACONST_NULL), Insn(ARETURN)];
    assert code[..1] == [Insn(ACONST_NULL)];
    assert NullPending(code[..1]) by {
      assert code[..1][0] == Insn(ACONST_NULL);
    }
  }

  /** Any other zero-operand instruction in between cancels the match. */
  lemma InterveningInsnCancels()
    ensures !ReturnsNullDirectly([Insn(ACONST_NULL), Insn(NOP), Insn(ARETURN)])
  {
    var code := [Insn(ACONST_NULL), Insn(NOP), Insn(ARETURN)];
    FoundIffReturnsNull(code);
    assert code[..2][..1] == [Insn(ACONST_NULL)];
    assert code[..2] == [Insn(ACONST_NULL)] + [Insn(NOP)];
    assert code == code[..2] + [Insn(ARETURN)];
  }

  /**
   * Loads and stores do not move the window, so storing the null in a local
   * and loading it back is still reported as a direct null return.
   */
  lemma StoreAndLoadDoNotCancel()
    ensures ReturnsNullDirectly([Insn(ACONST_NULL), VarInsn(ASTORE, 1), VarInsn(ALOAD, 1), Insn(ARETURN)])
  {
    var code := [Insn(ACONST_NULL), VarInsn(ASTORE, 1), VarInsn(ALOAD, 1), Insn(ARETURN)];
    assert code[3] == Insn(ARETURN);
    assert code[..3][0] == Insn(ACONST_NULL);
    assert forall k :: 0 < k < 3 ==> !ClosesWindow(code[..3][k]);
    assert NullPending(code[..3]);
  }

  /** Once a method has returned null directly, no later instruction undoes it. */
  lemma {:induction false} FoundIsPermanent(code: seq<Instruction>, more: seq<Instruction>)
    requires ReturnsNullDirectly(code)
    ensures ReturnsNullDirectly(code + more)
  {
    var k :| 0 <= k < |code| && code[k] == Insn(ARETURN) && NullPending(code[..k]);
    assert (code + more)[k] == code[k];
    assert (code + more)[..k] == code[..k];
  }

  /** Initialisers are never reported, whatever their code. */
  lemma {:induction false} InitializersNeverReported(cls: Option<string>, ms: seq<MethodInfo>)
    requires forall k :: 0 <= k < |ms| ==> IsInitializer(ms[k].name)
    ensures MethodReports(cls, ms) == []
    decreases |ms|
  {
    if ms != [] {
      InitializersNeverReported(cls, ms[..|ms| - 1]);
    }
  }

  /** How many methods of `ms` are named `n` and return null directly (overloads share a name). */
  function NullMethodsNamed(ms: seq<MethodInfo>, n: string): nat {
    if ms == [] then 0
    else
      var m := ms[|ms| - 1];
      NullMethodsNamed(ms[..|ms| - 1], n) + (if m.name == n && ReturnsNullDirectly(m.code) then 1 else 0)
  }

  /**
   * A method name is reported once for every method so named that returns
   * null directly, wherever it is declared, and never for an initialiser.
   */
  lemma {:induction false} ReportCount(cls: Option<string>, ms: seq<MethodInfo>, n: string)
    ensures multiset(MethodReports(cls, ms))[Diagnostic(CHECK_NAME, cls, ReturnsNull(n))]
         == if IsInitializer(n) then 0 else NullMethodsNamed(ms, n)
    decreases |ms|
  {
    if ms != [] {
      ReportCount(cls, ms[..|ms| - 1], n);
    }
  }

  /** With the name of `ms[k]` declared nowhere else, only `ms[k]` counts. */
  lemma {:induction false} UniqueNameCount(ms: seq<MethodInfo>, k: nat)
    requires k < |ms|
    requires forall j :: 0 <= j < |ms| && ms[j].name == ms[k].name ==> j == k
    ensures NullMethodsNamed(ms, ms[k].name) == if ReturnsNullDirectly(ms[k].code) then 1 else 0
    decreases |ms|
  {
    var p := ms[..|ms| - 1];
    if k == |ms| - 1 {
      AbsentNameCount(p, ms[k].name);
    } else {
      assert ms[|ms| - 1].name != ms[k].name;
      UniqueNameCount(p, k);
    }
  }

  lemma {:induction false} AbsentNameCount(ms: seq<MethodInfo>, n: string)
    requires forall j :: 0 <= j < |ms| ==> ms[j].name != n
    ensures NullMethodsNamed(ms, n) == 0
    decreases |ms|
  {
    if ms != [] {
      AbsentNameCount(ms[..|ms| - 1], n);
    }
  }

  /**
   * A method whose name no other method of the class shares, at any
   * position, is reported exactly once if it returns null directly and is
   * not an initialiser, and never otherwise.
   */
  lemma ReportedOnceIff(cls: Option<string>, ms: seq<MethodInfo>, k: nat)
    requires k < |ms|
    requires forall j :: 0 <= j < |ms| && ms[j].name == ms[k].name ==> j == k
    ensures multiset(MethodReports(cls, ms))[Diagnostic(CHECK_NAME, cls, ReturnsNull(ms[k].name))]
         == if !IsInitializer(ms[k].name) && ReturnsNullDirectly(ms[k].code) then 1 else 0
  {
    ReportCount(cls, ms, ms[k].name);
    UniqueNameCount(ms, k);
  }

  lemma {:induction false} NotReportedWhenAbsent(cls: Option<string>, ms: seq<MethodInfo>, name: string)
    requires forall k :: 0 <= k < |ms| ==> ms[k].name != name
    ensures Diagnostic(CHECK_NAME, cls, ReturnsNull(name)) !in MethodReports(cls, ms)
    decreases |ms|
  {
    if ms != [] {
      NotReportedWhenAbsent(cls, ms[..|ms| - 1], name);
    }
  }

  // ---------------------------------------------------------------------

  class NullReturnCheck {
    var simpleClassName: Option<string>
    // The per-method visitor.
    var inMethod: bool
    var methodName: string
    var sawNullBeforeReturn: bool
    var foundNullReturn: bool
    var diags: seq<Diagnostic>

    function Model(): NullState
      reads this
    {
      NullState(simpleClassName, inMethod, methodName, Window(sawNullBeforeReturn, foundNullReturn), diags)
    }

    constructor ()
      ensures Model() == Fresh
    {
      simpleClassName, inMethod, methodName := None, false, "";
      sawNullBeforeReturn, foundNullReturn, diags := false, false, [];
    }

    method Visit(access: bv32, name: string)
      modifies this
      ensures Model() == Step(old(Model()), Class(access, name))
    {
      simpleClassName := Some(SimpleName(name));
    }

    method VisitMethod(access: bv32, name: string)
      modifies this
      ensures Model() == Step(old(Model()), MethodStart(access, name))
    {
      if name == INIT || name == CLINIT {
        inMethod := false;
        return;
      }
      inMethod, methodName := true, name;
      sawNullBeforeReturn, foundNullReturn := false, false;
    }

    method VisitInsn(opcode: int)
      modifies this
      ensures Model() == Step(old(Model()), Instr(Insn(opcode)))
    {
      if !inMethod {
        return;
      }
      if opcode == ACONST_NULL {
        sawNullBeforeReturn := true;
      } else if opcode == ARETURN && sawNullBeforeReturn {
        foundNullReturn := true;
      } else {
        sawNullBeforeReturn := false;
      }
    }

    method VisitMethodEnd()
      modifies this
      ensures Model() == Step(old(Model()), MethodEnd)
    {
      if !inMethod {
        return;
      }
      if foundNullReturn {
        diags := diags + [Diagnostic(CHECK_NAME, simpleClassName, ReturnsNull(methodName))];
      }
      inMethod := false;
    }

    method Dispatch(e: Event)
      modifies this
      ensures Model() == Step(old(Model()), e)
    {
      match e
      case Class(access, name) => Visit(access, name);
      case MethodStart(access, name) => VisitMethod(access, name);
      case Instr(Insn(opcode)) => VisitInsn(opcode);
      case MethodEnd => VisitMethodEnd();
      case _ =>
    }

    method Accept(es: seq<Event>)
      modifies this
      ensures Model() == Fold(Step, old(Model()), es)
    {
      for i := 0 to |es|
        invariant Model() == Fold(Step, old(Model()), es[..i])
      {
        assert es[..i + 1][..i] == es[..i];
        Dispatch(es[i]);
      }
      assert es[..|es|] == es;
    }

    method RunOnClass(c: ClassFile)
      modifies this
      ensures diags == NullDiagnostics(c)
    {
      simpleClassName := None;
      diags := [];
      Accept(Events(c));
      StreamMatchesReference(Step, old(Model()).(simpleClassName := None, diags := []), c);
    }
  }
}
