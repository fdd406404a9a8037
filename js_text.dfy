/** `String.prototype.trim` of ECMAScript, which the pages apply to what the user typed. */
module JsText {

  /** The WhiteSpace and LineTerminator code points of ECMAScript: TAB, VT, FF, SPACE, NBSP,
      ZWNBSP (U+FEFF), the other space separators, LF, CR, LS and PS. Unlike .NET, U+0085 is not
      among them, and U+FEFF is. */
  predicate IsJsWhiteSpace(c: char)
  {
    var n := c as int;
    n == 0x09 || n == 0x0A || n == 0x0B || n == 0x0C || n == 0x0D || n == 0x20 || n == 0xA0
    || n == 0x1680 || (0x2000 <= n <= 0x200A) || n == 0x2028 || n == 0x2029 || n == 0x202F
    || n == 0x205F || n == 0x3000 || n == 0xFEFF
  }

  /** The length of the run of white space that starts `s`. */
  function Leading(s: string): (n: nat)
    ensures n <= |s|
    ensures forall i :: 0 <= i < n ==> IsJsWhiteSpace(s[i])
    ensures n < |s| ==> !IsJsWhiteSpace(s[n])
  {
    if s == [] || !IsJsWhiteSpace(s[0]) then 0 else 1 + Leading(s[1..])
  }

  /** The length of the run of white space that ends `s`. */
  function Trailing(s: string): (n: nat)
    ensures n <= |s|
    ensures forall i :: |s| - n <= i < |s| ==> IsJsWhiteSpace(s[i])
    ensures n < |s| ==> !IsJsWhiteSpace(s[|s| - 1 - n])
  {
    if s == [] || !IsJsWhiteSpace(s[|s| - 1]) then 0 else 1 + Trailing(s[..|s| - 1])
  }

  /** `s.trim()`: `s` without the white space at either end. What goes is white space, and what
      stays is a slice of `s` that neither starts nor ends with white space. */
  function Trim(s: string): (r: string)
    ensures r == [] <==> forall i :: 0 <= i < |s| ==> IsJsWhiteSpace(s[i])
    ensures r != [] ==> !IsJsWhiteSpace(r[0]) && !IsJsWhiteSpace(r[|r| - 1])
    ensures Leading(s) + |r| <= |s| && r == s[Leading(s)..Leading(s) + |r|]
    ensures forall i :: 0 <= i < |s| && !(Leading(s) <= i < Leading(s) + |r|) ==> IsJsWhiteSpace(s[i])
  {
    if Leading(s) == |s| then [] else s[Leading(s)..|s| - Trailing(s)]
  }

  /** Trimming twice trims nothing more. */
  lemma TrimIdempotent(s: string)
    ensures Trim(Trim(s)) == Trim(s)
  {
    var r := Trim(s);
    if r != [] {
      assert Leading(r) == 0;
      assert Trailing(r) == 0;
    }
  }
}
