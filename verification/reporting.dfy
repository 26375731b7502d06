/**
 * What a check hands to the reporter: the check's name, the simple name of
 * the class under analysis (absent before the class header has been seen)
 * and a message.  Messages are kept structured: each carries the values the
 * printed text interpolates.
 */
module Reporting {
  import opened Bytecode

  datatype Message =
    | ClassNameCase                                        // class name should start upper case
    | MethodNameCase(methodName: string)                       // method name should start lower case
    | FieldNameCase(fieldName: string)                         // field name should start lower case
    | NoVisibleConstructor                                 // public class, no public/protected constructor
    | TooManyInstructions(methodName: string, count: int, limit: int)
    | MagicNumber(methodName: string, value: Number)
    | UnusedPrivateField(fieldName: string)
    | ReturnsNull(methodName: string)

  datatype Diagnostic = Diagnostic(check: string, className: Option<string>, message: Message)
}
