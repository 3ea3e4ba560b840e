/**
 * What a form field holds, as the forms' checks see it, and the whitespace trimming the
 * description check uses.
 */
module FormInput {
  import opened Wrappers

  /**
   * A numeric field. `Blank` is any falsy value (the empty string, a missing value, or the number
   * 0 loaded from storage); `NotANumber` is text for which `isNaN` holds; `Numeral(v)` is anything
   * else, `v` being what `parseFloat` reads from it.
   */
  datatype Input = Blank | NotANumber | Numeral(value: real)

  /** The field a stored number fills: 0 is falsy, every other number is itself. */
  function FromNumber(v: real): (i: Input)
    ensures i.Numeral? <==> v != 0.0
  {
    if v == 0.0 then Blank else Numeral(v)
  }

  /** `value ? parseFloat(value) : 0` on a field that is a number or blank. */
  function NumberOr0(i: Input): real
    requires !i.NotANumber?
  {
    match i
    case Blank => 0.0
    case Numeral(v) => v
  }

  /** Reading back the field of a stored number gives that number. */
  lemma FromNumberRoundTrip(v: real)
    ensures NumberOr0(FromNumber(v)) == v
  {
  }

  /** The characters `String.prototype.trim` removes: white space and line terminators. */
  predicate IsSpace(c: char) {
    || c == '\t' || c == '\n' || c == '\U{000B}' || c == '\U{000C}' || c == '\r' || c == ' '
    || c == '\U{00A0}' || c == '\U{1680}' || ('\U{2000}' <= c <= '\U{200A}')
    || c == '\U{2028}' || c == '\U{2029}' || c == '\U{202F}' || c == '\U{205F}'
    || c == '\U{3000}' || c == '\U{FEFF}'
  }

  function TrimStart(s: string): (r: string)
    ensures |r| <= |s| && r == s[|s| - |r|..]
    ensures |r| > 0 ==> !IsSpace(r[0])
    ensures forall i :: 0 <= i < |s| - |r| ==> IsSpace(s[i])
  {
    if |s| > 0 && IsSpace(s[0]) then TrimStart(s[1..]) else s
  }

  function TrimEnd(s: string): (r: string)
    ensures |r| <= |s| && r == s[..|r|]
    ensures |r| > 0 ==> !IsSpace(r[|r| - 1])
    ensures forall i :: |r| <= i < |s| ==> IsSpace(s[i])
  {
    if |s| > 0 && IsSpace(s[|s| - 1]) then TrimEnd(s[..|s| - 1]) else s
  }

  /** `s.trim()`. */
  function Trim(s: string): string {
    TrimEnd(TrimStart(s))
  }

  predicate AllSpace(s: string) {
    forall i :: 0 <= i < |s| ==> IsSpace(s[i])
  }

  /** `!s.trim()`: trimming leaves nothing exactly when the text is all white space. */
  lemma TrimEmpty(s: string)
    ensures Trim(s) == "" <==> AllSpace(s)
  {
  }
}
