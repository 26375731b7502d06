/**
 * UnusedFieldCheck (src/src/Checks.java): a private field of a class is
 * reported when no field instruction in a method of that class other than
 * `<init>` and `<clinit>` names it with the class itself as owner.  The
 * reports come out at the end of the class, one per unused field, in the
 * iteration order of a hash set, which the model leaves open.
 */
module UnusedField {
  import opened Bytecode
  import opened Reporting

  const CHECK_NAME: string := "UnusedField"

  /** What the check remembers while a class streams past (the reporter aside). */
  datatype UnusedState = UnusedState(
    simpleClassName: Option<string>,
    classInternalName: Option<string>,
    privateFields: set<string>,
    usedFields: set<string>,
    inMethod: bool)

  const Fresh: UnusedState := UnusedState(None, None, {}, {}, false)

  /**
   * One callback on the remembered state.  The end of the class changes
   * nothing here; what it reports is stated by `ReportsEachOnce`.
   */
  function Step(s: UnusedState, e: Event): UnusedState {
    match e
    case Class(_, name) => s.(classInternalName := Some(name), simpleClassName := Some(SimpleName(name)))
    case Field(access, name) =>
      if HasFlag(access, ACC_PRIVATE) then s.(privateFields := s.privateFields + {name}) else s
    case MethodStart(_, name) => s.(inMethod := !IsInitializer(name))
    case Instr(FieldInsn(_, owner, name, _)) =>
      if s.inMethod && Some(owner) == s.classInternalName then s.(usedFields := s.usedFields + {name}) else s
    case MethodEnd => s.(inMethod := false)
    case _ => s
  }

  function Report(cls: Option<string>, name: string): Diagnostic {
    Diagnostic(CHECK_NAME, cls, UnusedPrivateField(name))
  }

  /** `ds` holds one report for each name in `names` and nothing else. */
  ghost predicate ReportsEachOnce(ds: seq<Diagnostic>, cls: Option<string>, names: set<string>) {
    && (forall k, l :: 0 <= k < l < |ds| ==> ds[k] != ds[l])
    && (forall k :: 0 <= k < |ds| ==> ds[k].message.UnusedPrivateField? && ds[k] == Report(cls, ds[k].message.fieldName)
                                      && ds[k].message.fieldName in names)
    && (forall n :: n in names ==> Report(cls, n) in ds)
  }

  // ---------------------------------------------------------------------
  // Reference definition.

  /** The names of the private fields among `fs`. */
  function PrivateFields(fs: seq<FieldInfo>): set<string> {
    set f | f in fs && HasFlag(f.access, ACC_PRIVATE) :: f.name
  }

  /** The field names that `code` reads or writes with `owner` as their owner. */
  function CodeUses(owner: Option<string>, code: seq<Instruction>): set<string> {
    set i | i in code && i.FieldInsn? && Some(i.owner) == owner :: i.name
  }

  /** The field names used with `owner` as owner by the methods of `ms` that are not initialisers. */
  function MethodsUses(owner: Option<string>, ms: seq<MethodInfo>): set<string> {
    set m, i | m in ms && !IsInitializer(m.name) && i in m.code && i.FieldInsn? && Some(i.owner) == owner :: i.name
  }

  /** The private fields of `c` that its methods (initialisers aside) never name. */
  function UnusedFields(c: ClassFile): set<string> {
    PrivateFields(c.fields) - MethodsUses(Some(c.name), c.methods)
  }

  // ---------------------------------------------------------------------
  // The event-by-event machine collects the reference sets.

  ghost predicate StepsAs(step: (UnusedState, Event) -> UnusedState) {
    forall s, e :: step(s, e) == Step(s, e)
  }

  lemma CodeUsesLast(owner: Option<string>, c: seq<Instruction>)
    requires c != []
    ensures var i := c[|c| - 1];
            CodeUses(owner, c) == CodeUses(owner, c[..|c| - 1])
                                  + (if i.FieldInsn? && Some(i.owner) == owner then {i.name} else {})
  {
    var code, i := c[..|c| - 1], c[|c| - 1];
    assert c == code + [i];
    forall n | n in CodeUses(owner, c)
      ensures n in CodeUses(owner, code) + (if i.FieldInsn? && Some(i.owner) == owner then {i.name} else {})
    {
      var x :| x in c && x.FieldInsn? && Some(x.owner) == owner && x.name == n;
      if x != i {
        assert x in code;
      }
    }
    forall n | n in CodeUses(owner, code) ensures n in CodeUses(owner, c) {
      var x :| x in code && x.FieldInsn? && Some(x.owner) == owner && x.name == n;
      assert x in c;
    }
    if i.FieldInsn? && Some(i.owner) == owner {
      assert i in c;
    }
  }

  lemma {:induction false} CodeFold(step: (UnusedState, Event) -> UnusedState, s: UnusedState, code: seq<Instruction>)
    requires StepsAs(step)
    requires s.inMethod
    ensures Fold(step, s, InstrEvents(code)) == s.(usedFields := s.usedFields + CodeUses(s.classInternalName, code))
    decreases |code|
  {
    if code == [] {
      assert CodeUses(s.classInternalName, code) == {};
      assert s.usedFields + {} == s.usedFields;
    } else {
      var p, i := code[..|code| - 1], code[|code| - 1];
      assert InstrEvents(code)[..|code| - 1] == InstrEvents(p);
      CodeFold(step, s, p);
      CodeUsesLast(s.classInternalName, code);
      UnionAssoc(s.usedFields, CodeUses(s.classInternalName, p),
                 if i.FieldInsn? && Some(i.owner) == s.classInternalName then {i.name} else {});
    }
  }

  lemma PrivateFieldsLast(c: seq<FieldInfo>)
    requires c != []
    ensures var f := c[|c| - 1];
            PrivateFields(c) == PrivateFields(c[..|c| - 1]) + (if HasFlag(f.access, ACC_PRIVATE) then {f.name} else {})
  {
    var fs, f := c[..|c| - 1], c[|c| - 1];
    assert c == fs + [f];
    forall n | n in PrivateFields(c)
      ensures n in PrivateFields(fs) + (if HasFlag(f.access, ACC_PRIVATE) then {f.name} else {})
    {
      var x :| x in c && HasFlag(x.access, ACC_PRIVATE) && x.name == n;
      if x != f {
        assert x in fs;
      }
    }
    forall n | n in PrivateFields(fs) ensures n in PrivateFields(c) {
      var x :| x in fs && HasFlag(x.access, ACC_PRIVATE) && x.name == n;
      assert x in c;
    }
    if HasFlag(f.access, ACC_PRIVATE) {
      assert f in c;
    }
  }

  lemma {:induction false} FieldsFold(step: (UnusedState, Event) -> UnusedState, s: UnusedState, fs: seq<FieldInfo>)
    requires StepsAs(step)
    ensures Fold(step, s, FieldsEvents(fs)) == s.(privateFields := s.privateFields + PrivateFields(fs))
    decreases |fs|
  {
    if fs == [] {
      assert PrivateFields(fs) == {};
      assert s.privateFields + {} == s.privateFields;
    } else {
      var p, f := fs[..|fs| - 1], fs[|fs| - 1];
      FieldsFold(step, s, p);
      FieldsEventsFold(step, s, fs);
      PrivateFieldsLast(fs);
      UnionAssoc(s.privateFields, PrivateFields(p), if HasFlag(f.access, ACC_PRIVATE) then {f.name} else {});
    }
  }

  lemma MethodsUsesLast(owner: Option<string>, c: seq<MethodInfo>)
    requires c != []
    ensures var m := c[|c| - 1];
            MethodsUses(owner, c) == MethodsUses(owner, c[..|c| - 1])
                                     + (if IsInitializer(m.name) then {} else CodeUses(owner, m.code))
  {
    var ms, m := c[..|c| - 1], c[|c| - 1];
    assert c == ms + [m];
    var extra := if IsInitializer(m.name) then {} else CodeUses(owner, m.code);
    forall n | n in MethodsUses(owner, c) ensures n in MethodsUses(owner, ms) + extra {
      var x, i :| x in c && !IsInitializer(x.name) && i in x.code && i.FieldInsn? && Some(i.owner) == owner && i.name == n;
      if x in ms {
        assert n in MethodsUses(owner, ms);
      } else {
        assert x == m;
        assert n in CodeUses(owner, m.code);
      }
    }
    forall n | n in MethodsUses(owner, ms) ensures n in MethodsUses(owner, c) {
      var x, i :| x in ms && !IsInitializer(x.name) && i in x.code && i.FieldInsn? && Some(i.owner) == owner && i.name == n;
      assert x in c;
    }
    forall n | n in extra ensures n in MethodsUses(owner, c) {
      var i :| i in m.code && i.FieldInsn? && Some(i.owner) == owner && i.name == n;
      assert m in c;
    }
  }

  lemma MethodFold(step: (UnusedState, Event) -> UnusedState, s: UnusedState, m: MethodInfo)
    requires StepsAs(step)
    ensures Fold(step, s, MethodEvents(m))
         == s.(inMethod := false, usedFields := s.usedFields + (if IsInitializer(m.name) then {} else CodeUses(s.classInternalName, m.code)))
  {
    var start := [MethodStart(m.access, m.name)];
    var s1 := step(s, MethodStart(m.access, m.name));
    var s2 := Fold(step, s1, InstrEvents(m.code));
    assert Fold(step, s, start + InstrEvents(m.code)) == s2 by {
      FoldAppend(step, s, start, InstrEvents(m.code));
      assert start[..0] == [];
    }
    assert Fold(step, s, MethodEvents(m)) == step(s2, MethodEnd) by {
      FoldAppend(step, s, start + InstrEvents(m.code), [MethodEnd]);
      assert [MethodEnd][..0] == [];
    }
    if IsInitializer(m.name) {
      forall i ensures step(s1, Instr(i)) == s1 { }
      InstructionsSkipped(step, s1, m.code);
      assert s.usedFields + {} == s.usedFields;
    } else {
      CodeFold(step, s1, m.code);
    }
  }

  lemma {:induction false} MethodsFold(step: (UnusedState, Event) -> UnusedState, s: UnusedState, ms: seq<MethodInfo>)
    requires StepsAs(step)
    ensures var s' := Fold(step, s, MethodsEvents(ms));
      && s'.simpleClassName == s.simpleClassName
      && s'.classInternalName == s.classInternalName
      && s'.privateFields == s.privateFields
      && s'.usedFields == s.usedFields + MethodsUses(s.classInternalName, ms)
    decreases |ms|
  {
    if ms == [] {
      assert MethodsUses(s.classInternalName, ms) == {};
      assert s.usedFields + {} == s.usedFields;
    } else {
      var p, m := ms[..|ms| - 1], ms[|ms| - 1];
      MethodsFold(step, s, p);
      var s1 := Fold(step, s, MethodsEvents(p));
      FoldAppend(step, s, MethodsEvents(p), MethodEvents(m));
      MethodFold(step, s1, m);
      MethodsUsesLast(s.classInternalName, ms);
      UnionAssoc(s.usedFields, MethodsUses(s.classInternalName, p),
                 if IsInitializer(m.name) then {} else CodeUses(s.classInternalName, m.code));
    }
  }

  /** The callbacks of class `c` up to, not including, the end of the class. */
  function Body(c: ClassFile): seq<Event> {
    [Class(c.access, c.name)] + FieldsEvents(c.fields) + MethodsEvents(c.methods)
  }

  /**
   * From a state with no fields remembered, the callbacks before the end of
   * class `c` leave exactly its private fields and its used fields behind.
   */
  lemma {:induction false} BodyCollectsReference(step: (UnusedState, Event) -> UnusedState, s: UnusedState, c: ClassFile)
    requires StepsAs(step)
    requires s.privateFields == {} && s.usedFields == {}
    ensures var s' := Fold(step, s, Body(c));
      && s'.simpleClassName == Some(SimpleName(c.name))
      && s'.privateFields - s'.usedFields == UnusedFields(c)
  {
    var head := [Class(c.access, c.name)];
    var fields := FieldsEvents(c.fields);
    var s1 := step(s, Class(c.access, c.name));
    var s2 := s1.(privateFields := PrivateFields(c.fields));
    assert Fold(step, s, head + fields) == s2 by {
      FoldAppend(step, s, head, fields);
      assert head[..0] == [];
      FieldsFold(step, s1, c.fields);
      assert {} + PrivateFields(c.fields) == PrivateFields(c.fields);
    }
    assert Fold(step, s, Body(c)) == Fold(step, s2, MethodsEvents(c.methods)) by {
      FoldAppend(step, s, head + fields, MethodsEvents(c.methods));
    }
    MethodsFold(step, s2, c.methods);
    assert {} + MethodsUses(Some(c.name), c.methods) == MethodsUses(Some(c.name), c.methods);
  }

  lemma {:induction false} FieldsEventsAreFields(fs: seq<FieldInfo>)
    ensures ClassEnd !in FieldsEvents(fs)
    decreases |fs|
  {
    if fs != [] {
      FieldsEventsAreFields(fs[..|fs| - 1]);
    }
  }

  lemma {:induction false} MethodsEventsHaveNoClassEnd(ms: seq<MethodInfo>)
    ensures ClassEnd !in MethodsEvents(ms)
    decreases |ms|
  {
    if ms != [] {
      var m := ms[|ms| - 1];
      MethodsEventsHaveNoClassEnd(ms[..|ms| - 1]);
      assert ClassEnd !in InstrEvents(m.code);
    }
  }

  lemma BodyHasNoClassEnd(c: ClassFile)
    ensures ClassEnd !in Body(c)
    ensures Events(c) == Body(c) + [ClassEnd]
  {
    FieldsEventsAreFields(c.fields);
    MethodsEventsHaveNoClassEnd(c.methods);
  }

  // ---------------------------------------------------------------------
  // Properties.

  /** Only private fields are ever reported. */
  lemma OnlyPrivateFieldsReported(c: ClassFile, n: string)
    requires n in UnusedFields(c)
    ensures exists f :: f in c.fields && f.name == n && HasFlag(f.access, ACC_PRIVATE)
  {
  }

  /** A private field that some ordinary method of the class reads or writes is not reported. */
  lemma UsedFieldNotReported(c: ClassFile, m: MethodInfo, i: Instruction)
    requires m in c.methods && !IsInitializer(m.name)
    requires i in m.code && i.FieldInsn? && i.owner == c.name
    ensures i.name !in UnusedFields(c)
  {
    assert i.name in MethodsUses(Some(c.name), c.methods);
  }

  /**
   * Uses inside a constructor do not count: a private field that only the
   * constructor assigns is reported.
   */
  lemma ConstructorUseDoesNotCount()
    ensures var c := ClassFile(ACC_PUBLIC, "p/A", [FieldInfo(ACC_PRIVATE, "x")],
                               [MethodInfo(ACC_PUBLIC, INIT, [FieldInsn(PUTFIELD, "p/A", "x", "I")])]);
            UnusedFields(c) == {"x"}
  {
    var f := FieldInfo(ACC_PRIVATE, "x");
    var c := ClassFile(ACC_PUBLIC, "p/A", [f], [MethodInfo(ACC_PUBLIC, INIT, [FieldInsn(PUTFIELD, "p/A", "x", "I")])]);
    assert f in c.fields;
    assert HasFlag(f.access, ACC_PRIVATE);
    assert MethodsUses(Some(c.name), c.methods) == {};
  }

  /** A use through another owner (a subclass, another class) does not count either. */
  lemma OtherOwnerDoesNotCount()
    ensures var c := ClassFile(ACC_PUBLIC, "p/A", [FieldInfo(ACC_PRIVATE, "x")],
                               [MethodInfo(ACC_PUBLIC, "get", [FieldInsn(GETFIELD, "p/B", "x", "I")])]);
            UnusedFields(c) == {"x"}
  {
    var f := FieldInfo(ACC_PRIVATE, "x");
    var c := ClassFile(ACC_PUBLIC, "p/A", [f], [MethodInfo(ACC_PUBLIC, "get", [FieldInsn(GETFIELD, "p/B", "x", "I")])]);
    assert f in c.fields;
    assert HasFlag(f.access, ACC_PRIVATE);
    assert MethodsUses(Some(c.name), c.methods) == {};
  }

  /** Reporting each name once means as many reports as names. */
  lemma {:induction false} ReportsEachOnceCount(ds: seq<Diagnostic>, cls: Option<string>, names: set<string>)
    requires ReportsEachOnce(ds, cls, names)
    ensures |ds| == |names|
    decreases |ds|
  {
    if ds != [] {
      var p, d := ds[..|ds| - 1], ds[|ds| - 1];
      var n := d.message.fieldName;
      assert ds == p + [d];
      forall k | 0 <= k < |p| ensures p[k].message.fieldName != n {
        assert p[k] == ds[k] && ds[k] != d;
      }
      forall m | m in names - {n} ensures Report(cls, m) in p {
        assert Report(cls, m) in ds && Report(cls, m) != d;
      }
      ReportsEachOnceCount(p, cls, names - {n});
    }
  }

  // ---------------------------------------------------------------------

  class UnusedFieldCheck {
    var simpleClassName: Option<string>
    var classInternalName: Option<string>
    var privateFields: set<string>
    var usedFields: set<string>
    // The per-method visitor (absent for initialisers).
    var inMethod: bool
    var diags: seq<Diagnostic>

    function Model(): UnusedState
      reads this
    {
      UnusedState(simpleClassName, classInternalName, privateFields, usedFields, inMethod)
    }

    constructor ()
      ensures Model() == Fresh && diags == []
    {
      simpleClassName, classInternalName := None, None;
      privateFields, usedFields, inMethod, diags := {}, {}, false, [];
    }

    method Visit(access: bv32, name: string)
      modifies this
      ensures Model() == Step(old(Model()), Class(access, name)) && diags == old(diags)
    {
      var simple := SimpleName(name);
      classInternalName := Some(name);
      simpleClassName := Some(simple);
    }

    method VisitField(access: bv32, name: string)
      modifies this
      ensures Model() == Step(old(Model()), Field(access, name)) && diags == old(diags)
    {
      if HasFlag(access, ACC_PRIVATE) {
        privateFields := privateFields + {name};
      }
    }

    method VisitMethod(access: bv32, name: string)
      modifies this
      ensures Model() == Step(old(Model()), MethodStart(access, name)) && diags == old(diags)
    {
      inMethod := !(name == INIT || name == CLINIT);
    }

    method VisitFieldInsn(opcode: int, owner: string, fieldName: string, fieldDesc: string)
      modifies this
      ensures Model() == Step(old(Model()), Instr(FieldInsn(opcode, owner, fieldName, fieldDesc))) && diags == old(diags)
    {
      if inMethod && Some(owner) == classInternalName {
        usedFields := usedFields + {fieldName};
      }
    }

    /** The decoder delivers nothing more to the method's visitor. */
    method VisitMethodEnd()
      modifies this
      ensures Model() == Step(old(Model()), MethodEnd) && diags == old(diags)
    {
      inMethod := false;
    }

    /** Reports every private field not among the used ones, in no particular order. */
    method VisitEnd()
      modifies this
      ensures Model() == old(Model())
      ensures |diags| >= |old(diags)| && diags[..|old(diags)|] == old(diags)
      ensures ReportsEachOnce(diags[|old(diags)|..], simpleClassName, privateFields - usedFields)
    {
      var start := |diags|;
      var remaining := privateFields;
      while remaining != {}
        invariant remaining <= privateFields
        invariant Model() == old(Model())
        invariant |diags| >= start && diags[..start] == old(diags)
        invariant ReportsEachOnce(diags[start..], simpleClassName, (privateFields - remaining) - usedFields)
        decreases remaining
      {
        var field :| field in remaining;
        ghost var before := diags[start..];
        if field !in usedFields {
          diags := diags + [Report(simpleClassName, field)];
          assert diags[start..] == before + [Report(simpleClassName, field)];
        }
        remaining := remaining - {field};
      }
    }

    method Dispatch(e: Event)
      requires e != ClassEnd
      modifies this
      ensures Model() == Step(old(Model()), e) && diags == old(diags)
    {
      match e
      case Class(access, name) => Visit(access, name);
      case Field(access, name) => VisitField(access, name);
      case MethodStart(access, name) => VisitMethod(access, name);
      case Instr(FieldInsn(op, owner, name, desc)) => VisitFieldInsn(op, owner, name, desc);
      case MethodEnd => VisitMethodEnd();
      case _ =>
    }

    /** The callbacks before the end of a class. */
    method Accept(es: seq<Event>)
      requires ClassEnd !in es
      modifies this
      ensures Model() == Fold(Step, old(Model()), es) && diags == old(diags)
    {
      for i := 0 to |es|
        invariant Model() == Fold(Step, old(Model()), es[..i]) && diags == old(diags)
      {
        assert es[..i + 1][..i] == es[..i];
        Dispatch(es[i]);
      }
      assert es[..|es|] == es;
    }

    method RunOnClass(c: ClassFile)
      modifies this
      ensures ReportsEachOnce(diags, Some(SimpleName(c.name)), UnusedFields(c))
    {
      simpleClassName, classInternalName := None, None;
      privateFields, usedFields := {}, {};
      diags := [];
      ghost var s0 := Model();
      BodyHasNoClassEnd(c);
      Accept(Body(c));
      assert Model() == Fold(Step, s0, Body(c));
      BodyCollectsReference(Step, s0, c);
      ghost var unused := privateFields - usedFields;
      assert simpleClassName == Some(SimpleName(c.name)) && unused == UnusedFields(c);
      VisitEnd();
      assert diags[0..] == diags;
    }
  }
}
