# Bytecode lint checks

A model of the rule engine of a Java bytecode linter. Each check is a
visitor that the bytecode decoder drives with callbacks for one class at a time:
- the class header;
- each field declaration;
- for every method: its start, its instructions and its end;
- the end of the class.

The checks report what they find to a reporter as (check name, simple class
name, message).

The model covers the six current checks of `src/src/Checks.java`:
- **NamingConvention**: classes must start upper-case, fields and methods lower-case.
- **NonPublicConstructor**: a public, concrete class that has constructors but no public or protected one.
- **LongMethod**: more instructions than a limit.
- **MagicNumber**: non-whitelisted numeric literals.
- **UnusedField**: private fields that no method other than `<init>`/`<clinit>` reads or writes with the class as owner.
- **NullReturn**: `ACONST_NULL` directly followed by `ARETURN`.

It also covers the three legacy checks of `src/Checks.java`. These print to
standard output and are never reset between classes.

Structure:

- `bytecode.dfy` (module `Bytecode`): the decoded class and the callback stream.
  - A decoded class is a `ClassFile` value. `Events(c)` is the order in which the decoder calls a visitor back.
  - `Fold` feeds a sequence of events to a state machine.
  - Access flags and opcodes are those of the Java Virtual Machine Specification (tables 4.1-B, 4.5-A, 4.6-A; section 6.5).
  - `<init>` and `<clinit>` are the special method names of its section 2.9.
  - `SimpleName` models the `lastIndexOf('/')` / `substring` idiom every check uses.
- `reporting.dfy` (module `Reporting`): what a report carries. The English message text is replaced by a structured `Message`.
- One module per check. Each holds:
  - a state datatype and a `Step` function: the specification of one callback;
  - a closed-form reference definition of everything the check reports for a class (for example `NamingDiagnostics(c)`);
  - lemmas proving that folding `Step` over `Events(c)` yields exactly the reference;
  - lemmas stating the check's promises about the reference;
  - a `class` with the Java fields, one method per overridden callback, and `Accept` (the decoder's traversal, a loop over the events).
  - Each callback method is proved against `Step`, and `RunOnClass` against the reference. A reporter is the `diags` field, which `RunOnClass` starts afresh.
  - A per-method visitor's fields become fields of the check, next to an `inMethod` flag. The flag is false where the Java check returns no visitor (for initialisers) and after the visitor's `visitEnd`.
- `legacy.dfy` (module `LegacyChecks`): the legacy checks.
  - They reuse the current checks' `Step` functions, with their own tags ("Naming", "Constructor", "LongMethod") and, for the long-method check, no counting of LDC.
  - Their printed lines are the sequence `printed`, which is never cleared.

## Model

| member | source | states |
|---|---|---|
| Bytecode.LastIndexOf | src/src/Checks.java:61 | the result is -1 or an index holding the character, and no later index holds it |
| Bytecode.SimpleName | src/src/Checks.java:61-62 | the simple name is the longest suffix of the internal name without '/': a suffix, free of '/', preceded by '/' when shorter, the whole name when it has no '/' |
| Bytecode.InstrEvents | src/src/Checks.java:258-265 | one instruction callback per instruction, in code order |
| Bytecode.InstructionsSkipped | src/src/Checks.java:544-546 | a check state that no instruction callback changes (no method visitor, or a check without instruction handling) is unchanged by a whole code array |
| Bytecode.FieldsSkipped | src/src/Checks.java:499-577 | a check state that no field callback changes (the check declares no visitField) is unchanged by a whole field list |
| NamingConvention.ClassReport | src/src/Checks.java:64-66 | at most one class report |
| NamingConvention.StreamMatchesReference | src/src/Checks.java:55-95 | from any state, the callbacks of a class append exactly `NamingDiagnostics`: the class report, then field reports in declaration order, then method reports |
| NamingConvention.FieldsFold | src/src/Checks.java:86-95 | the field declarations append exactly the field reports |
| NamingConvention.MethodsFold | src/src/Checks.java:71-83 | the methods append exactly the method reports |
| NamingConvention.ClassHeaderStep | src/src/Checks.java:55-69 | the class header sets the simple name and appends the class report |
| NamingConvention.FieldReportsAreBad | src/src/Checks.java:91-93 | every field report names a declared field whose name is non-empty and not lower-case initial |
| NamingConvention.MethodReportsAreBad | src/src/Checks.java:77-80 | every method report names a declared method that is not an initialiser and whose name is non-empty and not lower-case initial |
| NamingConvention.ClassReportedOnceIff | src/src/Checks.java:64-66 | the class is reported exactly once when its simple name is non-empty and not upper-case initial, never otherwise |
| NamingConvention.FieldReportCount | src/src/Checks.java:91-93 | a field name is reported once per field so named when it breaks the rule, never otherwise |
| NamingConvention.MethodReportCount | src/src/Checks.java:77-80 | a method name is reported once per method so named when it is not an initialiser and breaks the rule, never otherwise |
| NamingConvention.FieldReportedOnceIff | src/src/Checks.java:86-95 | over a whole class, the count of a field report is the number of fields so named when the name breaks the rule, else 0 |
| NamingConvention.MethodReportedOnceIff | src/src/Checks.java:72-83 | over a whole class, the count of a method report is the number of methods so named when the name is not an initialiser and breaks the rule, else 0; constructors are never reported |
| NamingConvention.NamingConventionCheck.constructor | src/src/Checks.java:34-36 | a new check holds no class name and no reports |
| NamingConvention.NamingConventionCheck.Report | src/src/Checks.java:50-52 | appends one report with the current simple class name |
| NamingConvention.NamingConventionCheck.Visit | src/src/Checks.java:55-69 | the new state is `Step` on the class header |
| NamingConvention.NamingConventionCheck.VisitMethod | src/src/Checks.java:72-83 | the new state is `Step` on the method start |
| NamingConvention.NamingConventionCheck.VisitField | src/src/Checks.java:86-95 | the new state is `Step` on the field declaration |
| NamingConvention.NamingConventionCheck.Dispatch | src/src/Checks.java:29-96 | any callback moves the state as `Step`; the callbacks not overridden change nothing |
| NamingConvention.NamingConventionCheck.Accept | src/src/Checks.java:47 | the traversal leaves the state `Fold(Step, before, events)` |
| NamingConvention.NamingConventionCheck.RunOnClass | src/src/Checks.java:44-48 | the reports equal `NamingDiagnostics(c)` whatever the check held before, so running a class twice gives the same reports |
| NonPublicConstructor.CtorDiagnostics | src/src/Checks.java:184-189 | at most one report per class |
| NonPublicConstructor.MethodsFold | src/src/Checks.java:170-177 | after the methods, `hasAnyCtor` adds "some `<init>`" and `hasPublicOrProtectedCtor` adds "some public or protected `<init>`" to what they held |
| NonPublicConstructor.StreamFold | src/src/Checks.java:147-189 | from any state, a class leaves the state `AfterClass`: header flags set, constructor flags raised, one report iff the four conditions hold |
| NonPublicConstructor.StreamMatchesReference | src/src/Checks.java:132-189 | from the reset state, a class yields exactly `CtorDiagnostics`: one report iff public, neither abstract nor interface, with an `<init>` and none public or protected |
| NonPublicConstructor.SilentUntilClassEnd | src/src/Checks.java:184-189 | nothing is reported before the class ends |
| NonPublicConstructor.FlagsOnlyRise | src/src/Checks.java:170-177 | over any events, each constructor flag ends true iff it started true or a matching `<init>` went by; no callback lowers it |
| NonPublicConstructor.AddingPublicCtorSilences | src/src/Checks.java:175-177 | adding a public `<init>` to any class removes its report |
| NonPublicConstructor.PrivateOnlyCtorReported | src/src/Checks.java:107-112 | a public concrete class whose only constructor is private is reported exactly once |
| NonPublicConstructor.NonPublicConstructorCheck.constructor | src/src/Checks.java:122-124 | a new check starts in the reset state |
| NonPublicConstructor.NonPublicConstructorCheck.Visit | src/src/Checks.java:147-162 | the new state is `Step` on the class header |
| NonPublicConstructor.NonPublicConstructorCheck.VisitMethod | src/src/Checks.java:165-181 | the new state is `Step` on the method start |
| NonPublicConstructor.NonPublicConstructorCheck.VisitEnd | src/src/Checks.java:184-189 | the new state is `Step` on the class end |
| NonPublicConstructor.NonPublicConstructorCheck.Dispatch | src/src/Checks.java:113-190 | any callback moves the state as `Step` |
| NonPublicConstructor.NonPublicConstructorCheck.Accept | src/src/Checks.java:139 | the traversal leaves the state `Fold(Step, before, events)` |
| NonPublicConstructor.NonPublicConstructorCheck.RunOnClass | src/src/Checks.java:132-140 | after clearing the flags, the reports equal `CtorDiagnostics(c)` whatever earlier classes left behind |
| LongMethod.CountOf | src/src/Checks.java:256-265 | the count never exceeds the number of instructions |
| LongMethod.CodeFold | src/src/Checks.java:256-265 | inside a visitor, the code raises the counter by `CountOf(code)`; outside one it changes nothing |
| LongMethod.MethodFold | src/src/Checks.java:244-275 | one method appends exactly its `MethodReport` |
| LongMethod.MethodsFold | src/src/Checks.java:244-275 | the methods append their reports in declaration order and keep the limit |
| LongMethod.StreamMatchesReference | src/src/Checks.java:232-275 | from any state, a class appends exactly `LongDiagnostics` and keeps the limit |
| LongMethod.CountAppend | src/src/Checks.java:256-265 | counting is additive over concatenated code |
| LongMethod.CountAllCounted | src/src/Checks.java:258-265 | code made only of counted kinds counts its full length |
| LongMethod.UncountedKindsIgnored | src/src/Checks.java:255-274 | instruction kinds without a counting callback (IINC, switches, MULTIANEWARRAY, INVOKEDYNAMIC) count 0 |
| LongMethod.LdcCountDifference | src/src/Checks.java:265 | counting LDC adds exactly the number of LDC instructions |
| LongMethod.ReportIffOverLimit | src/src/Checks.java:268-273 | a method is reported iff it is not an initialiser and its count exceeds the limit, at most once, carrying count and limit |
| LongMethod.AtLimitSilentAboveReported | src/src/Checks.java:269 | limit 50: 50 instructions give no report, 51 give one carrying 51 and 50 |
| LongMethod.InitializersNeverReported | src/src/Checks.java:249-251 | initialisers are never reported |
| LongMethod.LongMethodCheck.constructor | src/src/Checks.java:208-211 | a new check has the given limit and no reports |
| LongMethod.LongMethodCheck.Visit | src/src/Checks.java:232-241 | the new state is `Step` on the class header |
| LongMethod.LongMethodCheck.VisitMethod | src/src/Checks.java:244-256 | the new state is `Step` on the method start: no visitor for initialisers, a zero counter otherwise |
| LongMethod.LongMethodCheck.CountInstruction | src/src/Checks.java:258-265 | inside a visitor the counter goes up by one; otherwise nothing changes |
| LongMethod.LongMethodCheck.VisitInsn | src/src/Checks.java:258 | the new state is `Step` on the instruction |
| LongMethod.LongMethodCheck.VisitIntInsn | src/src/Checks.java:259 | the new state is `Step` on the instruction |
| LongMethod.LongMethodCheck.VisitVarInsn | src/src/Checks.java:260 | the new state is `Step` on the instruction |
| LongMethod.LongMethodCheck.VisitTypeInsn | src/src/Checks.java:261 | the new state is `Step` on the instruction |
| LongMethod.LongMethodCheck.VisitFieldInsn | src/src/Checks.java:262 | the new state is `Step` on the instruction |
| LongMethod.LongMethodCheck.VisitMethodInsn | src/src/Checks.java:263 | the new state is `Step` on the instruction |
| LongMethod.LongMethodCheck.VisitJumpInsn | src/src/Checks.java:264 | the new state is `Step` on the instruction |
| LongMethod.LongMethodCheck.VisitLdcInsn | src/src/Checks.java:265 | the new state is `Step` on the instruction |
| LongMethod.LongMethodCheck.VisitMethodEnd | src/src/Checks.java:268-273 | the new state is `Step` on the method end |
| LongMethod.LongMethodCheck.Dispatch | src/src/Checks.java:202-276 | any callback moves the state as `Step` |
| LongMethod.LongMethodCheck.Accept | src/src/Checks.java:222 | the traversal leaves the state `Fold(Step, before, events)` |
| LongMethod.LongMethodCheck.RunOnClass | src/src/Checks.java:219-223 | the reports equal `LongDiagnostics(c)` for the check's limit |
| MagicNumber.CodeFold | src/src/Checks.java:356-375 | inside a visitor, the code appends exactly `CodeReports` |
| MagicNumber.MethodFold | src/src/Checks.java:344-376 | one method appends exactly its `MethodReport` |
| MagicNumber.MethodsFold | src/src/Checks.java:344-376 | the methods append their reports in declaration order |
| MagicNumber.StreamMatchesReference | src/src/Checks.java:332-376 | from any state, a class appends exactly `MagicDiagnostics` |
| MagicNumber.IntegralWhitelist | src/src/Checks.java:320-323 | an Integer or Long is whitelisted iff its value is -1, 0 or 1 |
| MagicNumber.IntAndLongAgree | src/src/Checks.java:320-323 | an int and a long of equal value are judged alike |
| MagicNumber.FloatingWhitelist | src/src/Checks.java:324-327 | a Float or Double is whitelisted iff it equals 0.0 or 1.0 (either zero), so -1.0 and NaN are magic |
| MagicNumber.ReportedOncePerOccurrence | src/src/Checks.java:358-374 | in a method's code, a literal gets one report per occurrence when not whitelisted and none when whitelisted |
| MagicNumber.CodeReportsAreMagic | src/src/Checks.java:358-374 | every report of a method's code names that method and a literal outside the whitelist |
| MagicNumber.ReportsAreMagic | src/src/Checks.java:344-376 | every report names a declared method that is not an initialiser, and a literal outside the whitelist |
| MagicNumber.NonNumericLdcNeverReported | src/src/Checks.java:367 | a constant load of a non-`Number` adds no report |
| MagicNumber.InitializersNeverReported | src/src/Checks.java:350-352 | methods that are all initialisers yield no report, whatever their code |
| MagicNumber.NewArrayTypeCodeReported | src/src/Checks.java:358-363 | the NEWARRAY operand of `new int[n]` (type code 10) is reported as a magic number |
| MagicNumber.MagicNumberCheck.constructor | src/src/Checks.java:297-299 | a new check holds no class name and no reports |
| MagicNumber.MagicNumberCheck.Report | src/src/Checks.java:313-317 | appends one report with the current class and method names |
| MagicNumber.MagicNumberCheck.IsWhitelistedNumber | src/src/Checks.java:319-329 | the answer is `IsWhitelisted(n)`, whose meaning `IntegralWhitelist` and `FloatingWhitelist` state |
| MagicNumber.MagicNumberCheck.Visit | src/src/Checks.java:332-341 | the new state is `Step` on the class header |
| MagicNumber.MagicNumberCheck.VisitMethod | src/src/Checks.java:344-356 | the new state is `Step` on the method start |
| MagicNumber.MagicNumberCheck.VisitIntInsn | src/src/Checks.java:358-363 | the new state is `Step` on the instruction |
| MagicNumber.MagicNumberCheck.VisitLdcInsn | src/src/Checks.java:366-374 | the new state is `Step` on the instruction |
| MagicNumber.MagicNumberCheck.VisitMethodEnd | src/src/Checks.java:356-375 | the new state is `Step` on the method end |
| MagicNumber.MagicNumberCheck.Dispatch | src/src/Checks.java:292-377 | any callback moves the state as `Step` |
| MagicNumber.MagicNumberCheck.Accept | src/src/Checks.java:310 | the traversal leaves the state `Fold(Step, before, events)` |
| MagicNumber.MagicNumberCheck.RunOnClass | src/src/Checks.java:307-311 | the reports equal `MagicDiagnostics(c)` |
| NullReturn.PendingOneMore | src/src/Checks.java:555-564 | one more instruction leaves a null pending iff it is ACONST_NULL, or a null was pending and it does not close the window |
| NullReturn.SawNullIffPending | src/src/Checks.java:551-564 | `sawNullBeforeReturn` after the code is true iff some ACONST_NULL is followed by no other zero-operand instruction |
| NullReturn.ReturnsOneMore | src/src/Checks.java:558-559 | one more instruction completes a direct null return iff one was complete before, or it is ARETURN with a null pending |
| NullReturn.FoundIffReturnsNull | src/src/Checks.java:551-564 | `foundNullReturn` after the code is true iff some ARETURN is reached with a null pending |
| NullReturn.CodeFold | src/src/Checks.java:555-566 | inside a visitor started closed, the code leaves the window `Scan(code)` |
| NullReturn.MethodFold | src/src/Checks.java:538-576 | one method appends exactly its `MethodReport` |
| NullReturn.MethodsFold | src/src/Checks.java:538-576 | the methods append their reports in declaration order |
| NullReturn.StreamMatchesReference | src/src/Checks.java:526-576 | from any state, a class appends exactly `NullDiagnostics` |
| NullReturn.DirectNullReturnFlagged | src/src/Checks.java:496 | ACONST_NULL, ARETURN is a direct null return |
| NullReturn.InterveningInsnCancels | src/src/Checks.java:560-564 | any other zero-operand instruction between them cancels the match |
| NullReturn.StoreAndLoadDoNotCancel | src/src/Checks.java:555 | a store and a load between them do not cancel it, since only zero-operand instructions move the window |
| NullReturn.FoundIsPermanent | src/src/Checks.java:558-559 | once found, no later instruction undoes a direct null return |
| NullReturn.InitializersNeverReported | src/src/Checks.java:544-546 | methods that are all initialisers yield no report |
| NullReturn.ReportCount | src/src/Checks.java:569-574 | over a whole class, the count of a null-return report for a name is the number of methods so named that return null directly, and 0 for an initialiser name |
| NullReturn.UniqueNameCount | src/src/Checks.java:569-574 | when a method's name is declared once, the methods so named that return null directly are that method alone, or none |
| NullReturn.AbsentNameCount | src/src/Checks.java:569-574 | no method counts towards a name the class does not declare |
| NullReturn.ReportedOnceIff | src/src/Checks.java:569-574 | a method at any position whose name no other method shares is reported exactly once if it returns null directly and is not an initialiser, never otherwise |
| NullReturn.NotReportedWhenAbsent | src/src/Checks.java:569-574 | no report names a method the class does not declare |
| NullReturn.NullReturnCheck.constructor | src/src/Checks.java:504-506 | a new check holds no class name, a closed window and no reports |
| NullReturn.NullReturnCheck.Visit | src/src/Checks.java:526-535 | the new state is `Step` on the class header |
| NullReturn.NullReturnCheck.VisitMethod | src/src/Checks.java:538-552 | the new state is `Step` on the method start: no visitor for initialisers, both flags false otherwise |
| NullReturn.NullReturnCheck.VisitInsn | src/src/Checks.java:555-566 | the new state is `Step` on the zero-operand instruction |
| NullReturn.NullReturnCheck.VisitMethodEnd | src/src/Checks.java:569-574 | the new state is `Step` on the method end |
| NullReturn.NullReturnCheck.Dispatch | src/src/Checks.java:499-577 | any callback moves the state as `Step` |
| NullReturn.NullReturnCheck.Accept | src/src/Checks.java:517 | the traversal leaves the state `Fold(Step, before, events)` |
| NullReturn.NullReturnCheck.RunOnClass | src/src/Checks.java:514-518 | the reports equal `NullDiagnostics(c)` |
| UnusedField.CodeFold | src/src/Checks.java:466-474 | inside a visitor, the code adds exactly the names it uses with the class as owner |
| UnusedField.FieldsFold | src/src/Checks.java:441-450 | the field declarations add exactly the private field names |
| UnusedField.MethodFold | src/src/Checks.java:453-476 | one method adds its uses unless it is an initialiser |
| UnusedField.MethodsFold | src/src/Checks.java:453-476 | the methods add exactly `MethodsUses` |
| UnusedField.BodyCollectsReference | src/src/Checks.java:428-476 | after everything but the class end, the private names minus the used names are `UnusedFields(c)` |
| UnusedField.BodyHasNoClassEnd | src/src/Checks.java:479-486 | the class end is the last callback and only there |
| UnusedField.OnlyPrivateFieldsReported | src/src/Checks.java:446-448 | every unused name is a declared private field |
| UnusedField.UsedFieldNotReported | src/src/Checks.java:470-472 | a field that an ordinary method names with the class as owner is not unused |
| UnusedField.ConstructorUseDoesNotCount | src/src/Checks.java:458-460 | a private field that only `<init>` assigns is unused |
| UnusedField.OtherOwnerDoesNotCount | src/src/Checks.java:470 | a use through another owner does not count |
| UnusedField.ReportsEachOnceCount | src/src/Checks.java:480-484 | reporting each unused name once gives as many reports as unused names |
| UnusedField.UnusedFieldCheck.constructor | src/src/Checks.java:399-404 | a new check holds empty sets and no reports |
| UnusedField.UnusedFieldCheck.Visit | src/src/Checks.java:428-438 | the new state is `Step` on the class header; no report |
| UnusedField.UnusedFieldCheck.VisitField | src/src/Checks.java:441-450 | the new state is `Step` on the field declaration; no report |
| UnusedField.UnusedFieldCheck.VisitMethod | src/src/Checks.java:453-464 | the new state is `Step` on the method start; no report |
| UnusedField.UnusedFieldCheck.VisitFieldInsn | src/src/Checks.java:466-474 | the new state is `Step` on the field instruction; no report |
| UnusedField.UnusedFieldCheck.VisitMethodEnd | src/src/Checks.java:464-475 | the visitor is done; no report |
| UnusedField.UnusedFieldCheck.VisitEnd | src/src/Checks.java:479-486 | keeps the sets and the earlier reports, and appends exactly one report per private name not used, in any order |
| UnusedField.UnusedFieldCheck.Dispatch | src/src/Checks.java:393-487 | any callback other than the class end moves the state as `Step` without reporting |
| UnusedField.UnusedFieldCheck.Accept | src/src/Checks.java:420 | the traversal up to the class end leaves the state `Fold(Step, before, events)` |
| UnusedField.UnusedFieldCheck.RunOnClass | src/src/Checks.java:412-421 | after clearing the sets, the reports are one per name of `UnusedFields(c)`, each once, nothing else |
| LegacyChecks.FieldReportsRetag | src/Checks.java:64-66 | the field verdicts do not depend on the tag |
| LegacyChecks.MethodReportsRetag | src/Checks.java:48-52 | the method verdicts do not depend on the tag |
| LegacyChecks.NamingRetag | src/Checks.java:14-71 | renaming the check renames every report and changes nothing else |
| LegacyChecks.LegacyNamingStepsAs | src/Checks.java:14-71 | the legacy naming callbacks are the current ones under the tag "Naming" |
| LegacyChecks.LegacyNamingAgrees | src/Checks.java:14-71 | whatever was printed before, a class prints the current check's reports, in the same order, under the tag "Naming" |
| LegacyChecks.LegacyNamingConventionCheck.constructor | src/Checks.java:18-20 | a new check has printed nothing |
| LegacyChecks.LegacyNamingConventionCheck.Visit | src/Checks.java:23-39 | the new state is the naming `Step` on the class header |
| LegacyChecks.LegacyNamingConventionCheck.VisitMethod | src/Checks.java:42-55 | the new state is the naming `Step` on the method start |
| LegacyChecks.LegacyNamingConventionCheck.VisitField | src/Checks.java:58-70 | the new state is the naming `Step` on the field declaration |
| LegacyChecks.LegacyNamingConventionCheck.Dispatch | src/Checks.java:14-71 | any callback moves the state as the naming `Step` |
| LegacyChecks.LegacyNamingConventionCheck.Accept | src/Checks.java:14-71 | the traversal leaves the state `Fold(Step, before, events)` |
| LegacyChecks.LegacyNamingConventionCheck.AcceptClass | src/Checks.java:14-71 | one more class appends its retagged `NamingDiagnostics` to what was printed and leaves that class's simple name as the current name |
| LegacyChecks.AfterClassesAppend | src/Checks.java:92-153 | running classes in two batches is running them in one |
| LegacyChecks.SilentOnceVisibleCtorSeen | src/Checks.java:97-98 | once the visible-constructor flag is up, it stays up and nothing more is printed |
| LegacyChecks.LaterClassesNeverReported | src/Checks.java:137-139 | after a class with a public or protected constructor, no later class is reported |
| LegacyChecks.LegacyCtorFlagsLeak | src/Checks.java:96-98 | a class with a public constructor followed by a public concrete class with only a private one prints nothing, though the second alone is reported |
| LegacyChecks.LegacyNonPublicConstructorCheck.constructor | src/Checks.java:97-102 | a new check starts with both constructor flags false |
| LegacyChecks.LegacyNonPublicConstructorCheck.Visit | src/Checks.java:105-122 | the new state is the constructor `Step` on the class header; the constructor flags are untouched |
| LegacyChecks.LegacyNonPublicConstructorCheck.VisitMethod | src/Checks.java:125-143 | the new state is the constructor `Step` on the method start |
| LegacyChecks.LegacyNonPublicConstructorCheck.VisitEnd | src/Checks.java:146-152 | the new state is the constructor `Step` on the class end |
| LegacyChecks.LegacyNonPublicConstructorCheck.Dispatch | src/Checks.java:92-153 | any callback moves the state as the constructor `Step` |
| LegacyChecks.LegacyNonPublicConstructorCheck.Accept | src/Checks.java:92-153 | the traversal leaves the state `Fold(Step, before, events)` |
| LegacyChecks.LegacyNonPublicConstructorCheck.AcceptClass | src/Checks.java:92-153 | one more class leaves `AfterClass` of the state the earlier classes left |
| LegacyChecks.LegacyNonPublicConstructorCheck.AcceptAll | src/Checks.java:92-153 | classes one after another leave `AfterClasses` of the starting state |
| LegacyChecks.LegacyReportImpliesCurrent | src/Checks.java:206-215 | a method the legacy check reports is reported by the current one too, with a count no smaller |
| LegacyChecks.LdcOnlyMethodMissed | src/Checks.java:206-215 | limit 50: 51 constant loads are reported by the current check, not by the legacy one |
| LegacyChecks.LegacyLongMethodCheck.constructor | src/Checks.java:174-177 | a new check has the given limit and has printed nothing |
| LegacyChecks.LegacyLongMethodCheck.Visit | src/Checks.java:180-191 | the new state is the long-method `Step` (without LDC) on the class header |
| LegacyChecks.LegacyLongMethodCheck.VisitMethod | src/Checks.java:194-207 | the new state is that `Step` on the method start |
| LegacyChecks.LegacyLongMethodCheck.CountInstruction | src/Checks.java:209-215 | each of the seven counting callbacks moves the state as that `Step` |
| LegacyChecks.LegacyLongMethodCheck.VisitMethodEnd | src/Checks.java:217-223 | the new state is that `Step` on the method end |
| LegacyChecks.LegacyLongMethodCheck.Dispatch | src/Checks.java:169-227 | any callback moves the state as that `Step`; LDC changes nothing |
| LegacyChecks.LegacyLongMethodCheck.Accept | src/Checks.java:169-227 | the traversal leaves the state `Fold(Step, before, events)` |
| LegacyChecks.LegacyLongMethodCheck.AcceptClass | src/Checks.java:169-227 | one more class appends `LongDiagnostics` with LDC uncounted to what was printed and leaves that class's simple name as the current name |

## Left out

- Decoding of class files is not modelled. The decoder (`ClassReader.accept`) is the fixed function `Events` over a decoded `ClassFile`. Attributes, labels, line numbers, frames, annotations and descriptors other than in field instructions are not modelled.
- The `super.visit...` calls are not modelled. They forward to a null delegate and have no effect.
- Report text is not modelled: messages are structured values instead of English strings.
  - Number formatting in MagicNumber messages is not modelled.
  - The `printf` format of the legacy checks is not modelled. The legacy class name, which is printed inside the message, is carried in the report's class name.
- The Reporter interface, `ConsoleReporter`, its `startFile`/`endFile`, and standard output are not modelled. A check's `diags` (legacy: `printed`) is the sequence of reports it sends.
- `LinterRunner`, `FileUtils`, `Main` and the `LintCheck` interface are not part of this model. They cover file discovery, I/O and the check registry. `Main` calls a no-argument `LinterRunner` constructor, but the only constructor `LinterRunner` declares (`src/LinterRunner.java:22`) takes the check list and a reporter, so no code in the repository builds the check list. The runner's loop (`src/LinterRunner.java:34-43`, with the per-check loop at 38-42) calls each check's `runOnClass` in turn, and each `RunOnClass` here states its check's part.
- `Character.isUpperCase` / `isLowerCase` are restricted to ASCII letters. Other Unicode letters are treated as neither.
- Floating-point literals are exact reals or NaN or an infinity (`FloatValue`). Float rounding is not modelled. Widening a `float` to `double` is exact, so `doubleValue()` comparisons are faithful.
- LongMethod.Step: `instructionCount` is an unbounded integer. The 32-bit wrap-around of Java's `int` after 2^31 instructions is not modelled; no method can be that long (JVM Specification, section 4.7.3 limits code to 65535 bytes).
- UnusedField.UnusedFieldCheck.VisitEnd: the iteration order of the `HashSet` is not modelled. The contract leaves the order of the reports free and states that each unused name is reported exactly once.
- Instruction callbacks that a check does not override are delivered to the model's `Dispatch` and change nothing, as in the source.
- Where the checks' descriptions and the code differ, the model follows the code:
  - MagicNumber judges the operand of every IntInsn, including NEWARRAY's type code. Its comment mentions only BIPUSH/SIPUSH (`src/src/Checks.java:288-290`).
  - The current NonPublicConstructorCheck clears its flags in `runOnClass`, not in `visit`.
  - UnusedField and NullReturn install no method visitor for `<init>` and `<clinit>`. So uses inside initialisers do not count, and initialisers are never scanned for null returns.
  - In NullReturn, only zero-operand instructions move the window. A match leaves `sawNullBeforeReturn` set.
  - LongMethod counts only the eight overridden callbacks (seven in the legacy check).

## Findings

| source | as written | input that shows it | evidently intended | confidence | as-written member | corrected member |
|---|---|---|---|---|---|---|
| src/Checks.java:96-98 | `hasAnyCtor` and `hasPublicOrProtectedCtor` are set only by their initialisers and by `visitMethod`; nothing clears them between classes | one instance given a public class with a public `<init>`, then a public concrete class whose only `<init>` is private: the second class is not reported | each class is judged on its own constructors (the flags are cleared before every class, as `src/src/Checks.java:132-139` does) | not executed | LegacyChecks.LegacyCtorFlagsLeak | NonPublicConstructor.NonPublicConstructorCheck.RunOnClass |
