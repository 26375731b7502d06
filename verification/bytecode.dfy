/**
 * The structural event model of one decoded class file.
 *
 * A decoded class (`ClassFile`) stands for what the bytecode decoder hands
 * to a check; `Events` flattens it into the callback sequence the decoder
 * drives a visitor with: the class header, the field declarations, then for
 * every method its start, its instructions and its end, and last the class
 * end.  Access flags and opcodes are those of the Java Virtual Machine
 * Specification (sections 4.1, 4.5, 4.6 for the flags, section 6.5 for the
 * opcodes); `<init>` and `<clinit>` are the special method names of its
 * section 2.9.
 */
module Bytecode {

  datatype Option<+T> = None | Some(value: T)

  /** Java `int` and `long`. */
  type Int32 = x: int | -0x8000_0000 <= x < 0x8000_0000
  type Int64 = x: int | -0x8000_0000_0000_0000 <= x < 0x8000_0000_0000_0000

  // Access flags (JVM Specification, tables 4.1-B, 4.5-A and 4.6-A).
  const ACC_PUBLIC: bv32 := 0x0001
  const ACC_PRIVATE: bv32 := 0x0002
  const ACC_PROTECTED: bv32 := 0x0004
  const ACC_INTERFACE: bv32 := 0x0200
  const ACC_ABSTRACT: bv32 := 0x0400

  /** `(access & flag) != 0` */
  predicate HasFlag(access: bv32, flag: bv32) {
    access & flag != 0
  }

  // Opcodes (JVM Specification, section 6.5).
  const NOP: int := 0
  const ACONST_NULL: int := 1
  const BIPUSH: int := 16
  const SIPUSH: int := 17
  const ALOAD: int := 25
  const ASTORE: int := 58
  const IRETURN: int := 172
  const ARETURN: int := 176
  const RETURN: int := 177
  const GETFIELD: int := 180
  const PUTFIELD: int := 181
  const NEWARRAY: int := 188
  /** The NEWARRAY type code of `int[]`. */
  const T_INT: Int32 := 10

  // Special method names (JVM Specification, section 2.9).
  const INIT: string := "<init>"
  const CLINIT: string := "<clinit>"

  predicate IsInitializer(name: string) {
    name == INIT || name == CLINIT
  }

  /** `Character.isUpperCase` / `Character.isLowerCase`, restricted to ASCII letters. */
  predicate IsUpperCase(c: char) {
    'A' <= c <= 'Z'
  }

  predicate IsLowerCase(c: char) {
    'a' <= c <= 'z'
  }

  /**
   * A float or double literal: an exact finite value or an IEEE 754 special
   * value.  Negative zero is `Finite(0.0)`, since Java's `==` on doubles
   * does not tell it from positive zero.
   */
  datatype FloatValue = Finite(value: real) | NaN | Infinity(negative: bool)

  /** The boxed `java.lang.Number` a literal arrives as. */
  datatype Number =
    | IntegerNum(i: Int32)
    | LongNum(l: Int64)
    | FloatNum(f: FloatValue)
    | DoubleNum(d: FloatValue)
      /** Any other `Number` subclass (never produced by the decoder for a constant load). */
    | OtherNum

  /** The operand of a constant load: a `Number` or anything else (string, type, handle, ...). */
  datatype Constant = Numeric(n: Number) | NonNumeric(text: string)

  /**
   * One instruction, tagged by the visitor callback that delivers it.
   * Labels, line numbers, frames and the like carry no instruction and are
   * not part of the model.
   */
  datatype Instruction =
    | Insn(opcode: int)
    | IntInsn(opcode: int, operand: Int32)
    | VarInsn(opcode: int, varIndex: nat)
    | TypeInsn(opcode: int, typeName: string)
    | FieldInsn(opcode: int, owner: string, name: string, descriptor: string)
    | MethodInsn(opcode: int, owner: string, name: string, descriptor: string, isInterface: bool)
    | JumpInsn(opcode: int, target: nat)
    | LdcInsn(value: Constant)
    | IincInsn(varIndex: nat, increment: int)
    | TableSwitchInsn(low: int, high: int)
    | LookupSwitchInsn(keys: seq<int>)
    | MultiANewArrayInsn(descriptor: string, dimensions: nat)
    | InvokeDynamicInsn(name: string, descriptor: string)

  /** One callback of the decoder's traversal. */
  datatype Event =
    | Class(access: bv32, name: string)
    | Field(access: bv32, name: string)
    | MethodStart(access: bv32, name: string)
    | Instr(insn: Instruction)
    | MethodEnd
    | ClassEnd

  datatype FieldInfo = FieldInfo(access: bv32, name: string)
  datatype MethodInfo = MethodInfo(access: bv32, name: string, code: seq<Instruction>)
  /** A decoded class: internal name (segments separated by `/`), flags, members. */
  datatype ClassFile = ClassFile(access: bv32, name: string, fields: seq<FieldInfo>, methods: seq<MethodInfo>)

  function InstrEvents(code: seq<Instruction>): (es: seq<Event>)
    ensures |es| == |code|
    ensures forall k :: 0 <= k < |code| ==> es[k] == Instr(code[k])
  {
    if code == [] then [] else InstrEvents(code[..|code| - 1]) + [Instr(code[|code| - 1])]
  }

  function MethodEvents(m: MethodInfo): seq<Event> {
    [MethodStart(m.access, m.name)] + InstrEvents(m.code) + [MethodEnd]
  }

  function FieldsEvents(fs: seq<FieldInfo>): seq<Event> {
    if fs == [] then []
    else FieldsEvents(fs[..|fs| - 1]) + [Field(fs[|fs| - 1].access, fs[|fs| - 1].name)]
  }

  function MethodsEvents(ms: seq<MethodInfo>): seq<Event> {
    if ms == [] then [] else MethodsEvents(ms[..|ms| - 1]) + MethodEvents(ms[|ms| - 1])
  }

  /** The order in which the decoder calls a visitor back for class `c`. */
  function Events(c: ClassFile): seq<Event> {
    [Class(c.access, c.name)] + FieldsEvents(c.fields) + MethodsEvents(c.methods) + [ClassEnd]
  }

  /** Feeding events one by one to a state machine, the earliest event first. */
  function Fold<S>(step: (S, Event) -> S, s: S, es: seq<Event>): S
    decreases |es|
  {
    if es == [] then s else step(Fold(step, s, es[..|es| - 1]), es[|es| - 1])
  }

  lemma {:induction false} FoldAppend<S>(step: (S, Event) -> S, s: S, a: seq<Event>, b: seq<Event>)
    ensures Fold(step, s, a + b) == Fold(step, Fold(step, s, a), b)
    decreases |b|
  {
    if b == [] {
      assert a + b == a;
    } else {
      var b' := b[..|b| - 1];
      assert (a + b)[..|a + b| - 1] == a + b';
      FoldAppend(step, s, a, b');
    }
  }

  /** Regrouping appended report lists, kept out of the larger proofs. */
  lemma AppendAssoc<T>(a: seq<T>, b: seq<T>, c: seq<T>)
    ensures a + b + c == a + (b + c)
  {
  }

  lemma AppendAssoc4<T>(a: seq<T>, b: seq<T>, c: seq<T>, d: seq<T>)
    ensures a + b + c + d == a + (b + c + d)
  {
  }

  lemma UnionAssoc<T>(a: set<T>, b: set<T>, c: set<T>)
    ensures a + b + c == a + (b + c)
  {
  }

  /** The callbacks of a class, taken as header, fields, methods and end. */
  lemma EventsFold<S>(step: (S, Event) -> S, s: S, c: ClassFile)
    ensures Fold(step, s, Events(c))
         == step(Fold(step, Fold(step, step(s, Class(c.access, c.name)), FieldsEvents(c.fields)), MethodsEvents(c.methods)), ClassEnd)
  {
    var head := [Class(c.access, c.name)];
    var fields := FieldsEvents(c.fields);
    var methods := MethodsEvents(c.methods);
    assert Fold(step, s, head) == step(s, Class(c.access, c.name)) by {
      assert head[..0] == [];
    }
    FoldAppend(step, s, head, fields);
    FoldAppend(step, s, head + fields, methods);
    assert Events(c) == head + fields + methods + [ClassEnd];
    assert (head + fields + methods + [ClassEnd])[..|Events(c)| - 1] == head + fields + methods;
  }

  /** The callbacks of the last method follow those of the methods before it. */
  lemma MethodsEventsFold<S>(step: (S, Event) -> S, s: S, ms: seq<MethodInfo>)
    requires ms != []
    ensures Fold(step, s, MethodsEvents(ms))
         == step(Fold(step, step(Fold(step, s, MethodsEvents(ms[..|ms| - 1])),
                                 MethodStart(ms[|ms| - 1].access, ms[|ms| - 1].name)),
                      InstrEvents(ms[|ms| - 1].code)),
                 MethodEnd)
  {
    var p, m := ms[..|ms| - 1], ms[|ms| - 1];
    var start := [MethodStart(m.access, m.name)];
    var s1 := Fold(step, s, MethodsEvents(p));
    assert Fold(step, s1, start) == step(s1, MethodStart(m.access, m.name)) by {
      assert start[..0] == [];
    }
    FoldAppend(step, s1, start, InstrEvents(m.code));
    assert Fold(step, s1, MethodEvents(m)) == step(Fold(step, s1, start + InstrEvents(m.code)), MethodEnd) by {
      assert MethodEvents(m)[..|MethodEvents(m)| - 1] == start + InstrEvents(m.code);
    }
    FoldAppend(step, s, MethodsEvents(p), MethodEvents(m));
  }

  /** The callback of the last field follows those of the fields before it. */
  lemma FieldsEventsFold<S>(step: (S, Event) -> S, s: S, fs: seq<FieldInfo>)
    requires fs != []
    ensures Fold(step, s, FieldsEvents(fs))
         == step(Fold(step, s, FieldsEvents(fs[..|fs| - 1])), Field(fs[|fs| - 1].access, fs[|fs| - 1].name))
  {
    var f := fs[|fs| - 1];
    assert FieldsEvents(fs)[..|FieldsEvents(fs)| - 1] == FieldsEvents(fs[..|fs| - 1]);
  }

  /** A state that no instruction callback changes survives a whole code array. */
  lemma {:induction false} InstructionsSkipped<S>(step: (S, Event) -> S, s: S, code: seq<Instruction>)
    requires forall i :: step(s, Instr(i)) == s
    ensures Fold(step, s, InstrEvents(code)) == s
    decreases |code|
  {
    if code != [] {
      assert InstrEvents(code)[..|code| - 1] == InstrEvents(code[..|code| - 1]);
      InstructionsSkipped(step, s, code[..|code| - 1]);
    }
  }

  /** A state that no field callback changes survives a whole field list. */
  lemma {:induction false} FieldsSkipped<S>(step: (S, Event) -> S, s: S, fs: seq<FieldInfo>)
    requires forall access, name :: step(s, Field(access, name)) == s
    ensures Fold(step, s, FieldsEvents(fs)) == s
    decreases |fs|
  {
    if fs != [] {
      var f := fs[|fs| - 1];
      FieldsSkipped(step, s, fs[..|fs| - 1]);
      FoldAppend(step, s, FieldsEvents(fs[..|fs| - 1]), [Field(f.access, f.name)]);
      assert [Field(f.access, f.name)][..0] == [];
    }
  }

  /** `s.lastIndexOf(c)`: the position of the last `c` in `s`, or -1. */
  function LastIndexOf(s: string, c: char): (r: int)
    ensures -1 <= r < |s|
    ensures 0 <= r ==> s[r] == c
    ensures forall k :: r < k < |s| ==> s[k] != c
  {
    if s == [] then -1
    else if s[|s| - 1] == c then |s| - 1
    else LastIndexOf(s[..|s| - 1], c)
  }

  /**
   * The simple class name: the part of the internal name after its last
   * `/`, or the whole name when it has none.  It is the longest suffix of
   * the name that holds no `/`.
   */
  function SimpleName(name: string): (r: string)
    ensures |r| <= |name| && r == name[|name| - |r|..]
    ensures '/' !in r
    ensures |r| < |name| ==> name[|name| - |r| - 1] == '/'
    ensures '/' !in name ==> r == name
  {
    var idx := LastIndexOf(name, '/');
    if idx < 0 then name
    else
      var r := name[idx + 1..];
      assert forall j :: 0 <= j < |r| ==> r[j] == name[idx + 1 + j];
      r
  }
}
