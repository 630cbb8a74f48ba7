/** `System.Guid`: a 128-bit identifier. New identifiers come from `Guid.NewGuid()`,
    which the model does not reproduce: callers pass fresh values in. */
module Guids {
  import opened Text

  const GuidBound: nat := 0x1_0000_0000_0000_0000_0000_0000_0000_0000

  type Guid = g: nat | g < GuidBound

  /** `Guid.Empty`, the all-zero identifier. */
  const EmptyGuid: Guid := 0

  predicate IsHexDigit(c: char) {
    '0' <= c <= '9' || 'a' <= c <= 'f'
  }

  /** The lowest `width` hexadecimal digits of `n`, most significant first, in lower case. */
  function Hex(n: nat, width: nat): (s: string)
    ensures |s| == width
    ensures forall i :: 0 <= i < width ==> IsHexDigit(s[i])
  {
    if width == 0 then []
    else Hex(n / 16, width - 1) + ["0123456789abcdef"[n % 16]]
  }

  /** `Guid.ToString()`, the "D" format: 32 hexadecimal digits in groups of
      8, 4, 4, 4 and 12, separated by hyphens. */
  function ToText(g: Guid): (s: string)
    ensures |s| == 36
    ensures s[8] == '-' && s[13] == '-' && s[18] == '-' && s[23] == '-'
    ensures forall i :: 0 <= i < 36 ==> IsHexDigit(s[i]) || s[i] == '-'
  {
    Hex(g / 0x1_0000_0000_0000_0000_0000_0000, 8) + "-"
    + Hex(g / 0x1_0000_0000_0000_0000_0000, 4) + "-"
    + Hex(g / 0x1_0000_0000_0000_0000, 4) + "-"
    + Hex(g / 0x1_0000_0000_0000, 4) + "-"
    + Hex(g, 12)
  }

  predicate IsUpperHexDigit(c: char) {
    '0' <= c <= '9' || 'A' <= c <= 'F'
  }

  /** SQL Server's text for a `uniqueidentifier`, `CONVERT(varchar(36), id)`,
      which is what `Guid.ToString()` becomes inside a database query: the
      "D" layout with upper-case digits. */
  function ToSqlText(g: Guid): (s: string)
    ensures |s| == 36
    ensures s[8] == '-' && s[13] == '-' && s[18] == '-' && s[23] == '-'
    ensures forall i :: 0 <= i < 36 ==> IsUpperHexDigit(s[i]) || s[i] == '-'
    ensures forall i :: 0 <= i < 36 ==> FoldCase(s[i]) == FoldCase(ToText(g)[i])
  {
    var t := ToText(g);
    seq(36, i requires 0 <= i < 36 => FoldCase(t[i]))
  }
}
