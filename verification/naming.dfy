/**
 * NamingConventionCheck (src/src/Checks.java): class names should start
 * with an upper-case letter, field and method names with a lower-case one;
 * `<init>` and `<clinit>` are not judged.  The check reacts to each event on
 * its own; its only memory is the simple class name it puts in reports.
 *
 * `Step` is the specification of one callback; `NamingDiagnostics` says,
 * entity by entity, what a whole class yields, and `StreamMatchesReference`
 * proves that the event-by-event machine yields exactly that.
 */
module NamingConvention {
  import opened Bytecode
  import opened Reporting

  const CHECK_NAME: string := "NamingConvention"

  /** A class is flagged when its simple name has a first character and it is not upper case. */
  predicate BadClassName(simple: string) {
    simple != [] && !IsUpperCase(simple[0])
  }

  /** A field or method is flagged when its name has a first character and it is not lower case. */
  predicate BadMemberName(name: string) {
    name != [] && !IsLowerCase(name[0])
  }

  datatype NamingState = NamingState(simpleClassName: Option<string>, diags: seq<Diagnostic>)

  const Initial: NamingState := NamingState(None, [])

  /** One callback.  `tag` is the check name the reports carry. */
  function Step(tag: string, s: NamingState, e: Event): NamingState {
    match e
    case Class(_, name) =>
      var simple := SimpleName(name);
      var s' := s.(simpleClassName := Some(simple));
      if BadClassName(simple) then s'.(diags := s'.diags + [Diagnostic(tag, Some(simple), ClassNameCase)]) else s'
    case Field(_, name) =>
      if BadMemberName(name) then s.(diags := s.diags + [Diagnostic(tag, s.simpleClassName, FieldNameCase(name))]) else s
    case MethodStart(_, name) =>
      if !IsInitializer(name) && BadMemberName(name)
      then s.(diags := s.diags + [Diagnostic(tag, s.simpleClassName, MethodNameCase(name))])
      else s
    case _ => s
  }

  function NamingStep(s: NamingState, e: Event): NamingState {
    Step(CHECK_NAME, s, e)
  }

  // ---------------------------------------------------------------------
  // Reference definition: what one class yields, entity by entity.

  function ClassReport(tag: string, c: ClassFile): (r: seq<Diagnostic>)
    ensures |r| <= 1
  {
    var simple := SimpleName(c.name);
    if BadClassName(simple) then [Diagnostic(tag, Some(simple), ClassNameCase)] else []
  }

  function FieldReport(tag: string, cls: Option<string>, f: FieldInfo): seq<Diagnostic> {
    if BadMemberName(f.name) then [Diagnostic(tag, cls, FieldNameCase(f.name))] else []
  }

  function FieldReports(tag: string, cls: Option<string>, fs: seq<FieldInfo>): seq<Diagnostic> {
    if fs == [] then [] else FieldReports(tag, cls, fs[..|fs| - 1]) + FieldReport(tag, cls, fs[|fs| - 1])
  }

  function MethodReport(tag: string, cls: Option<string>, m: MethodInfo): seq<Diagnostic> {
    if !IsInitializer(m.name) && BadMemberName(m.name) then [Diagnostic(tag, cls, MethodNameCase(m.name))] else []
  }

  function MethodReports(tag: string, cls: Option<string>, ms: seq<MethodInfo>): seq<Diagnostic> {
    if ms == [] then [] else MethodReports(tag, cls, ms[..|ms| - 1]) + MethodReport(tag, cls, ms[|ms| - 1])
  }

  /** Everything the check reports for class `c`, in report order. */
  function NamingDiagnostics(tag: string, c: ClassFile): seq<Diagnostic> {
    var cls := Some(SimpleName(c.name));
    ClassReport(tag, c) + FieldReports(tag, cls, c.fields) + MethodReports(tag, cls, c.methods)
  }

  /** How many of `fs` are declared with name `n`. */
  function FieldsNamed(fs: seq<FieldInfo>, n: string): nat {
    if fs == [] then 0 else FieldsNamed(fs[..|fs| - 1], n) + (if fs[|fs| - 1].name == n then 1 else 0)
  }

  /** How many of `ms` are declared with name `n` (overloads share a name). */
  function MethodsNamed(ms: seq<MethodInfo>, n: string): nat {
    if ms == [] then 0 else MethodsNamed(ms[..|ms| - 1], n) + (if ms[|ms| - 1].name == n then 1 else 0)
  }

  // ---------------------------------------------------------------------
  // The event-by-event machine computes the reference.

  /** `step` is the machine of the check whose reports carry `tag`. */
  ghost predicate StepsAs(step: (NamingState, Event) -> NamingState, tag: string) {
    forall s, e :: step(s, e) == Step(tag, s, e)
  }

  lemma FieldStep(step: (NamingState, Event) -> NamingState, tag: string, s: NamingState, f: FieldInfo)
    requires StepsAs(step, tag)
    ensures step(s, Field(f.access, f.name)) == s.(diags := s.diags + FieldReport(tag, s.simpleClassName, f))
  {
    if !BadMemberName(f.name) {
      assert s.diags + [] == s.diags;
    }
  }

  lemma {:induction false} FieldsFold(step: (NamingState, Event) -> NamingState, tag: string,
                                      s: NamingState, fs: seq<FieldInfo>)
    requires StepsAs(step, tag)
    ensures Fold(step, s, FieldsEvents(fs)) == s.(diags := s.diags + FieldReports(tag, s.simpleClassName, fs))
    decreases |fs|
  {
    if fs == [] {
      assert s.diags + [] == s.diags;
    } else {
      var p, f := fs[..|fs| - 1], fs[|fs| - 1];
      var a, b := FieldReports(tag, s.simpleClassName, p), FieldReport(tag, s.simpleClassName, f);
      FieldsFold(step, tag, s, p);
      FieldsEventsFold(step, s, fs);
      FieldStep(step, tag, s.(diags := s.diags + a), f);
      AppendAssoc(s.diags, a, b);
    }
  }

  lemma MethodHeaderStep(step: (NamingState, Event) -> NamingState, tag: string, s: NamingState, m: MethodInfo)
    requires StepsAs(step, tag)
    ensures step(s, MethodStart(m.access, m.name)) == s.(diags := s.diags + MethodReport(tag, s.simpleClassName, m))
  {
    if !(!IsInitializer(m.name) && BadMemberName(m.name)) {
      assert s.diags + [] == s.diags;
    }
  }

  lemma {:induction false} MethodsFold(step: (NamingState, Event) -> NamingState, tag: string,
                                       s: NamingState, ms: seq<MethodInfo>)
    requires StepsAs(step, tag)
    ensures Fold(step, s, MethodsEvents(ms)) == s.(diags := s.diags + MethodReports(tag, s.simpleClassName, ms))
    decreases |ms|
  {
    if ms == [] {
      assert s.diags + [] == s.diags;
    } else {
      var p, m := ms[..|ms| - 1], ms[|ms| - 1];
      var a, b := MethodReports(tag, s.simpleClassName, p), MethodReport(tag, s.simpleClassName, m);
      MethodsFold(step, tag, s, p);
      MethodsEventsFold(step, s, ms);
      var s1 := s.(diags := s.diags + a);
      MethodHeaderStep(step, tag, s1, m);
      var s2 := s1.(diags := s1.diags + b);
      forall i ensures step(s2, Instr(i)) == s2 { }
      InstructionsSkipped(step, s2, m.code);
      assert step(s2, MethodEnd) == s2;
      AppendAssoc(s.diags, a, b);
    }
  }

  lemma ClassHeaderStep(step: (NamingState, Event) -> NamingState, tag: string, s: NamingState, c: ClassFile)
    requires StepsAs(step, tag)
    ensures step(s, Class(c.access, c.name))
         == s.(simpleClassName := Some(SimpleName(c.name)), diags := s.diags + ClassReport(tag, c))
  {
    if !BadClassName(SimpleName(c.name)) {
      assert s.diags + [] == s.diags;
    }
  }

  /** From any state, the callbacks of class `c` append exactly `NamingDiagnostics(tag, c)`. */
  lemma {:induction false} StreamMatchesReference(step: (NamingState, Event) -> NamingState, tag: string,
                                                  s: NamingState, c: ClassFile)
    requires StepsAs(step, tag)
    ensures Fold(step, s, Events(c)).diags == s.diags + NamingDiagnostics(tag, c)
    ensures Fold(step, s, Events(c)).simpleClassName == Some(SimpleName(c.name))
  {
    var cls := Some(SimpleName(c.name));
    var cr, fr, mr := ClassReport(tag, c), FieldReports(tag, cls, c.fields), MethodReports(tag, cls, c.methods);
    var s1 := s.(simpleClassName := cls, diags := s.diags + cr);
    var s2 := s1.(diags := s1.diags + fr);
    var s3 := s2.(diags := s2.diags + mr);
    assert step(s, Class(c.access, c.name)) == s1 by {
      ClassHeaderStep(step, tag, s, c);
    }
    assert Fold(step, s1, FieldsEvents(c.fields)) == s2 by {
      FieldsFold(step, tag, s1, c.fields);
    }
    assert Fold(step, s2, MethodsEvents(c.methods)) == s3 by {
      MethodsFold(step, tag, s2, c.methods);
    }
    assert Fold(step, s, Events(c)) == s3 by {
      EventsFold(step, s, c);
      assert step(s3, ClassEnd) == s3;
    }
    AppendAssoc4(s.diags, cr, fr, mr);
  }

  // ---------------------------------------------------------------------
  // Properties of the reference.

  /** Every field report names a field whose name breaks the convention. */
  lemma {:induction false} FieldReportsAreBad(tag: string, cls: Option<string>, fs: seq<FieldInfo>)
    ensures forall d :: d in FieldReports(tag, cls, fs) ==>
      d.check == tag && d.className == cls && d.message.FieldNameCase? && BadMemberName(d.message.fieldName)
      && exists f :: f in fs && f.name == d.message.fieldName
    decreases |fs|
  {
    if fs != [] {
      var p, f := fs[..|fs| - 1], fs[|fs| - 1];
      FieldReportsAreBad(tag, cls, p);
      forall d | d in FieldReports(tag, cls, fs)
        ensures exists f' :: f' in fs && f'.name == d.message.fieldName
      {
        if d in FieldReports(tag, cls, p) {
          var f' :| f' in p && f'.name == d.message.fieldName;
          assert f' in fs;
        } else {
          assert f in fs;
        }
      }
    }
  }

  /** Every method report names a method, not an initialiser, whose name breaks the convention. */
  lemma {:induction false} MethodReportsAreBad(tag: string, cls: Option<string>, ms: seq<MethodInfo>)
    ensures forall d :: d in MethodReports(tag, cls, ms) ==>
      d.check == tag && d.className == cls && d.message.MethodNameCase?
      && !IsInitializer(d.message.methodName) && BadMemberName(d.message.methodName)
      && exists m :: m in ms && m.name == d.message.methodName
    decreases |ms|
  {
    if ms != [] {
      var p, m := ms[..|ms| - 1], ms[|ms| - 1];
      MethodReportsAreBad(tag, cls, p);
      forall d | d in MethodReports(tag, cls, ms)
        ensures exists m' :: m' in ms && m'.name == d.message.methodName
      {
        if d in MethodReports(tag, cls, p) {
          var m' :| m' in p && m'.name == d.message.methodName;
          assert m' in ms;
        } else {
          assert m in ms;
        }
      }
    }
  }

  /** The class is reported exactly once if its simple name is non-empty and not upper-case initial, else never. */
  lemma ClassReportedOnceIff(tag: string, c: ClassFile)
    ensures var d := Diagnostic(tag, Some(SimpleName(c.name)), ClassNameCase);
      multiset(NamingDiagnostics(tag, c))[d] == if BadClassName(SimpleName(c.name)) then 1 else 0
  {
    var d := Diagnostic(tag, Some(SimpleName(c.name)), ClassNameCase);
    var cls := Some(SimpleName(c.name));
    FieldReportsAreBad(tag, cls, c.fields);
    MethodReportsAreBad(tag, cls, c.methods);
    assert d !in FieldReports(tag, cls, c.fields);
    assert d !in MethodReports(tag, cls, c.methods);
  }

  lemma {:induction false} FieldReportCount(tag: string, cls: Option<string>, fs: seq<FieldInfo>, n: string)
    ensures multiset(FieldReports(tag, cls, fs))[Diagnostic(tag, cls, FieldNameCase(n))]
         == if BadMemberName(n) then FieldsNamed(fs, n) else 0
    decreases |fs|
  {
    if fs != [] {
      FieldReportCount(tag, cls, fs[..|fs| - 1], n);
    }
  }

  lemma {:induction false} MethodReportCount(tag: string, cls: Option<string>, ms: seq<MethodInfo>, n: string)
    ensures multiset(MethodReports(tag, cls, ms))[Diagnostic(tag, cls, MethodNameCase(n))]
         == if !IsInitializer(n) && BadMemberName(n) then MethodsNamed(ms, n) else 0
    decreases |ms|
  {
    if ms != [] {
      MethodReportCount(tag, cls, ms[..|ms| - 1], n);
    }
  }

  /**
   * Every field named `n` is reported once if `n` is non-empty and not
   * lower-case initial, and never otherwise.
   */
  lemma FieldReportedOnceIff(tag: string, c: ClassFile, n: string)
    ensures var d := Diagnostic(tag, Some(SimpleName(c.name)), FieldNameCase(n));
      multiset(NamingDiagnostics(tag, c))[d] == if BadMemberName(n) then FieldsNamed(c.fields, n) else 0
  {
    var cls := Some(SimpleName(c.name));
    var d := Diagnostic(tag, cls, FieldNameCase(n));
    FieldReportCount(tag, cls, c.fields, n);
    MethodReportsAreBad(tag, cls, c.methods);
    assert d !in MethodReports(tag, cls, c.methods);
  }

  /**
   * Every method named `n` is reported once if `n` is neither `<init>` nor
   * `<clinit>` and is non-empty and not lower-case initial; never otherwise.
   */
  lemma MethodReportedOnceIff(tag: string, c: ClassFile, n: string)
    ensures var d := Diagnostic(tag, Some(SimpleName(c.name)), MethodNameCase(n));
      multiset(NamingDiagnostics(tag, c))[d]
        == if !IsInitializer(n) && BadMemberName(n) then MethodsNamed(c.methods, n) else 0
  {
    var cls := Some(SimpleName(c.name));
    var d := Diagnostic(tag, cls, MethodNameCase(n));
    MethodReportCount(tag, cls, c.methods, n);
    FieldReportsAreBad(tag, cls, c.fields);
    assert d !in FieldReports(tag, cls, c.fields);
  }

  // ---------------------------------------------------------------------

  class NamingConventionCheck {
    var simpleClassName: Option<string>
    var diags: seq<Diagnostic>

    function Model(): NamingState
      reads this
    {
      NamingState(simpleClassName, diags)
    }

    constructor ()
      ensures Model() == Initial
    {
      simpleClassName := None;
      diags := [];
    }

    method Report(m: Message)
      modifies this
      ensures simpleClassName == old(simpleClassName)
      ensures diags == old(diags) + [Diagnostic(CHECK_NAME, simpleClassName, m)]
    {
      diags := diags + [Diagnostic(CHECK_NAME, simpleClassName, m)];
    }

    method Visit(access: bv32, name: string)
      modifies this
      ensures Model() == NamingStep(old(Model()), Class(access, name))
    {
      var simple := SimpleName(name);
      simpleClassName := Some(simple);
      if simple != [] && !IsUpperCase(simple[0]) {
        Report(ClassNameCase);
      }
    }

    method VisitMethod(access: bv32, name: string)
      modifies this
      ensures Model() == NamingStep(old(Model()), MethodStart(access, name))
    {
      if name != INIT && name != CLINIT {
        if name != [] && !IsLowerCase(name[0]) {
          Report(MethodNameCase(name));
        }
      }
    }

    method VisitField(access: bv32, name: string)
      modifies this
      ensures Model() == NamingStep(old(Model()), Field(access, name))
    {
      if name != [] && !IsLowerCase(name[0]) {
        Report(FieldNameCase(name));
      }
    }

    /** One callback from the decoder; the callbacks this check does not override do nothing. */
    method Dispatch(e: Event)
      modifies this
      ensures Model() == NamingStep(old(Model()), e)
    {
      match e
      case Class(access, name) => Visit(access, name);
      case Field(access, name) => VisitField(access, name);
      case MethodStart(access, name) => VisitMethod(access, name);
      case _ =>
    }

    /** The decoder's traversal: every event, in order. */
    method Accept(es: seq<Event>)
      modifies this
      ensures Model() == Fold(NamingStep, old(Model()), es)
    {
      for i := 0 to |es|
        invariant Model() == Fold(NamingStep, old(Model()), es[..i])
      {
        assert es[..i + 1][..i] == es[..i];
        Dispatch(es[i]);
      }
      assert es[..|es|] == es;
    }

    /** Analyses one class with a fresh report sink. */
    method RunOnClass(c: ClassFile)
      modifies this
      ensures diags == NamingDiagnostics(CHECK_NAME, c)
    {
      simpleClassName := None;
      diags := [];
      Accept(Events(c));
      StreamMatchesReference(NamingStep, CHECK_NAME, Initial, c);
    }
  }
}
