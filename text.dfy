/** The parts of .NET's string handling that the controllers and validators rely on:
    `char.IsWhiteSpace`, `string.IsNullOrEmpty`, `string.IsNullOrWhiteSpace`,
    ordinal `string.Contains`, `string.Replace` of one character, and an ordinal
    case-insensitive comparison. Strings are sequences of characters. */
module Text {
  import opened Wrappers

  /** `char.IsWhiteSpace`: the Unicode space separators, the line and paragraph
      separators, and the control characters U+0009 to U+000D and U+0085. */
  predicate IsWhiteSpace(c: char) {
    || '\U{9}' <= c <= '\U{D}'
    || c == '\U{20}' || c == '\U{85}' || c == '\U{A0}' || c == '\U{1680}'
    || '\U{2000}' <= c <= '\U{200A}'
    || c == '\U{2028}' || c == '\U{2029}' || c == '\U{202F}' || c == '\U{205F}' || c == '\U{3000}'
  }

  /** `string.IsNullOrEmpty`. */
  predicate IsNullOrEmpty(s: Option<string>) {
    s.None? || s.value == []
  }

  /** `string.IsNullOrWhiteSpace`: null, empty, or nothing but white space. */
  predicate IsNullOrWhiteSpace(s: Option<string>) {
    s.None? || forall i :: 0 <= i < |s.value| ==> IsWhiteSpace(s.value[i])
  }

  /** Ordinal `s.Contains(part)`: `part` occurs in `s` at some position. */
  predicate Contains(s: string, part: string) {
    exists i :: 0 <= i <= |s| - |part| && OccursAt(s, part, i)
  }

  /** `part` occurs in `s` starting at index `i`. */
  predicate OccursAt(s: string, part: string, i: int) {
    0 <= i <= |s| - |part| && s[i..i + |part|] == part
  }

  /** `s.Replace(from, to)` for single characters: every `from` becomes `to`. */
  function ReplaceChar(s: string, from: char, to: char): (r: string)
    ensures |r| == |s|
    ensures forall i :: 0 <= i < |s| ==> r[i] == (if s[i] == from then to else s[i])
    ensures from != to ==> from !in r
  {
    if s == [] then []
    else [if s[0] == from then to else s[0]] + ReplaceChar(s[1..], from, to)
  }

  lemma ReplaceCharAppend(a: string, b: string, from: char, to: char)
    ensures ReplaceChar(a + b, from, to) == ReplaceChar(a, from, to) + ReplaceChar(b, from, to)
  {
  }

  /** Replacing a character that does not occur changes nothing. */
  lemma ReplaceAbsentChar(s: string, from: char, to: char)
    requires from !in s
    ensures ReplaceChar(s, from, to) == s
  {
  }

  /** Replacing `from` by `to` in a join of a clean head, one separator that
      is `from` or `to`, a clean middle and a tail rewrites only the separator
      and the tail. */
  lemma ReplaceInJoin(head: string, sep: char, mid: string, tail: string, from: char, to: char)
    requires from !in head && from !in mid
    requires sep == from || sep == to
    ensures ReplaceChar(head + [sep] + mid + tail, from, to) == head + [to] + mid + ReplaceChar(tail, from, to)
  {
    var s := head + [sep] + mid + tail;
    var r, e := ReplaceChar(s, from, to), head + [to] + mid + ReplaceChar(tail, from, to);
    assert |r| == |e|;
    forall i | 0 <= i < |r| ensures r[i] == e[i] {
      if i < |head| {
        assert s[i] == head[i] && e[i] == head[i];
      } else if i == |head| {
        assert s[i] == sep && e[i] == to;
      } else if i < |head| + 1 + |mid| {
        assert s[i] == mid[i - |head| - 1] && e[i] == mid[i - |head| - 1];
      } else {
        var k := i - |head| - 1 - |mid|;
        assert s[i] == tail[k] && e[i] == ReplaceChar(tail, from, to)[k];
      }
    }
  }

  /** Upper-case mapping of ASCII letters; other characters map to themselves. */
  function FoldCase(c: char): (u: char)
    ensures 'a' <= c <= 'z' ==> u as int == c as int - 32
    ensures !('a' <= c <= 'z') ==> u == c
  {
    if 'a' <= c <= 'z' then (c as int - 32) as char else c
  }

  /** `string.Equals(a, b, StringComparison.OrdinalIgnoreCase)`: a null never
      equals a non-null string. */
  predicate EqualsIgnoreCase(a: Option<string>, b: string) {
    && a.Some?
    && |a.value| == |b|
    && forall i :: 0 <= i < |b| ==> FoldCase(a.value[i]) == FoldCase(b[i])
  }
}
