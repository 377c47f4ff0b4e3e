/** Small shared vocabulary: results, text as code points, and stripping. */
module Common {

  datatype Option<+T> = None | Some(value: T)

  datatype Result<+T, +E> = Ok(value: T) | Err(error: E)

  /** A Python character: any code point, lone surrogates included. */
  type CodePoint = c: int | 0 <= c < 0x11_0000

  type Text = seq<CodePoint>

  const NEWLINE: CodePoint := 10

  function Encode(s: string): (t: Text)
    ensures |t| == |s|
  {
    seq(|s|, i requires 0 <= i < |s| => s[i] as int)
  }

  /** json_utils.validate_json_unicode accepts a string iff it holds no surrogate. */
  predicate ValidUnicode(t: Text) {
    forall i | 0 <= i < |t| :: !(0xD800 <= t[i] <= 0xDFFF)
  }

  /** Characters removed by str.strip() and matched by \s. */
  predicate IsSpace(c: CodePoint) {
    9 <= c <= 13 || 28 <= c <= 32 || c == 0x85 || c == 0xA0 || c == 0x1680 || 0x2000 <= c <= 0x200A ||
    c == 0x2028 || c == 0x2029 || c == 0x202F || c == 0x205F || c == 0x3000
  }
}
