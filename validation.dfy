/** The parts of FluentValidation that the back end's validators use. */
module Validation {

  /** .NET `char.IsWhiteSpace`: the Unicode space separators, line and paragraph separators,
      U+0009 to U+000D, U+0085 and U+00A0. */
  predicate IsWhiteSpace(c: char)
    ensures c as int < 0x100 ==> (IsWhiteSpace(c) <==> c == ' ' || '\t' <= c <= '\r' || c == '\U{85}' || c == '\U{A0}')
    ensures IsWhiteSpace(c) ==> !('0' <= c <= '9') && !('a' <= c <= 'z') && !('A' <= c <= 'Z')
  {
    var n := c as int;
    (0x09 <= n <= 0x0D) || n == 0x20 || n == 0x85 || n == 0xA0 || n == 0x1680
    || (0x2000 <= n <= 0x200A) || n == 0x2028 || n == 0x2029 || n == 0x202F
    || n == 0x205F || n == 0x3000
  }

  /** `string.IsNullOrWhiteSpace` on a non-null string. */
  predicate IsWhiteSpaceOnly(s: string)
  {
    forall i :: 0 <= i < |s| ==> IsWhiteSpace(s[i])
  }

  /** The `NotEmpty()` rule on a string: it rejects the empty and the whitespace-only string. */
  predicate NotEmptyString(s: string)
    ensures NotEmptyString(s) <==> exists i :: 0 <= i < |s| && !IsWhiteSpace(s[i])
    ensures NotEmptyString(s) ==> s != []
  {
    !IsWhiteSpaceOnly(s)
  }

  /** One failed rule: the property it is attached to and, when the rule sets one with
      `WithMessage`, its custom message. */
  datatype RuleFailure = RuleFailure(property: string, customMessage: string)

  /** A failure of a rule that keeps FluentValidation's built-in message. */
  function Builtin(property: string): RuleFailure
  {
    RuleFailure(property, "")
  }

  /** The text a failure contributes to `ValidationResult.ToString()`. */
  function FailureText(f: RuleFailure): string
  {
    if f.customMessage != "" then f.customMessage else f.property
  }

  /** `ValidationResult.ToString()`: the failure texts joined by `Environment.NewLine`, taken here
      as the Unix "\n" (on Windows it is "\r\n"). */
  function Details(failures: seq<RuleFailure>): (s: string)
    ensures failures == [] ==> s == []
    ensures |failures| == 1 ==> s == FailureText(failures[0])
  {
    if failures == [] then ""
    else if |failures| == 1 then FailureText(failures[0])
    else FailureText(failures[0]) + "\n" + Details(failures[1..])
  }
}
