/**
 * Building blocks for the hand-written regular expressions of the client:
 * the characters JavaScript treats as line terminators (where `.` stops and
 * where `^`/`$` match in multiline mode) and as white space (`\s`), line
 * boundaries, literal prefixes, first occurrences, `String.prototype.split`
 * on one character, ASCII lower-casing and decimal text.
 */
module JsText {

  datatype Option<T> = None | Some(value: T)

  /** The four line terminators of ECMAScript: LF, CR, LINE SEPARATOR, PARAGRAPH SEPARATOR. */
  predicate IsLineTerminator(c: char) {
    c == '\n' || c == '\r' || c == '\U{2028}' || c == '\U{2029}'
  }

  /** The class `\s`: the line terminators, the ECMAScript white space and the Zs space separators. */
  predicate IsSpace(c: char) {
    IsLineTerminator(c) || c == '\t' || c == '\U{000B}' || c == '\U{000C}' || c == ' '
    || c == '\U{00A0}' || c == '\U{1680}' || ('\U{2000}' <= c <= '\U{200A}')
    || c == '\U{202F}' || c == '\U{205F}' || c == '\U{3000}' || c == '\U{FEFF}'
  }

  /** The class `\d` outside Unicode mode. */
  predicate IsDigit(c: char) {
    '0' <= c <= '9'
  }

  predicate NoLineTerminator(s: string) {
    forall k :: 0 <= k < |s| ==> !IsLineTerminator(s[k])
  }

  predicate AllDigits(s: string) {
    forall k :: 0 <= k < |s| ==> IsDigit(s[k])
  }

  /** The positions where `^` matches in multiline mode. */
  predicate IsLineStart(s: string, i: int) {
    0 <= i <= |s| && (i == 0 || IsLineTerminator(s[i - 1]))
  }

  /** `p` occurs in `s` at position `i`. */
  predicate StartsAt(s: string, i: int, p: string) {
    0 <= i && i + |p| <= |s| && s[i..i + |p|] == p
  }

  /** The first position at or after `i` where `$` matches in multiline mode: how far `.*` reaches. */
  function LineEnd(s: string, i: nat): (e: nat)
    requires i <= |s|
    ensures i <= e <= |s|
    ensures e == |s| || IsLineTerminator(s[e])
    ensures NoLineTerminator(s[i..e])
    decreases |s| - i
  {
    if i == |s| || IsLineTerminator(s[i]) then i else LineEnd(s, i + 1)
  }

  /** The end of the longest run of `\s` starting at `i`: how far a greedy `\s+` reaches. */
  function SpaceEnd(s: string, i: nat): (e: nat)
    requires i <= |s|
    ensures i <= e <= |s|
    ensures e == |s| || !IsSpace(s[e])
    ensures forall k :: i <= k < e ==> IsSpace(s[k])
    decreases |s| - i
  {
    if i == |s| || !IsSpace(s[i]) then i else SpaceEnd(s, i + 1)
  }

  /** A line end is determined by the text: any position that closes a terminator-free stretch is it. */
  lemma LineEndIs(s: string, i: nat, e: nat)
    requires i <= e <= |s|
    requires NoLineTerminator(s[i..e])
    requires e == |s| || IsLineTerminator(s[e])
    ensures LineEnd(s, i) == e
  {
  }

  lemma NoLineTerminatorSlice(s: string, a: nat, b: nat)
    requires a <= b <= |s| && NoLineTerminator(s)
    ensures NoLineTerminator(s[a..b])
  {
    forall k | 0 <= k < b - a ensures !IsLineTerminator(s[a..b][k]) {
      assert s[a..b][k] == s[a + k];
    }
  }

  /** A slice of a stretch is the same slice of the text. */
  lemma SliceOfSlice(t: string, a: nat, b: nat, c: nat, d: nat)
    requires a <= b <= |t| && c <= d <= b - a
    ensures t[a..b][c..d] == t[a + c..a + d]
  {
    forall k | 0 <= k < d - c ensures t[a..b][c..d][k] == t[a + c..a + d][k] {
      assert t[a..b][c..d][k] == t[a..b][c + k] == t[a + c + k];
    }
  }

  /** Where the middle piece of a text sits, and what follows it. */
  lemma Middle(a: string, m: string, b: string)
    ensures (a + m + b)[|a|..|a| + |m|] == m
    ensures b != [] ==> (a + m + b)[|a| + |m|] == b[0]
  {
  }

  lemma NoLineTerminatorConcat(s: string, t: string)
    requires NoLineTerminator(s) && NoLineTerminator(t)
    ensures NoLineTerminator(s + t)
  {
    forall k | 0 <= k < |s + t| ensures !IsLineTerminator((s + t)[k]) {
      if k >= |s| {
        assert (s + t)[k] == t[k - |s|];
      }
    }
  }

  /** Likewise the end of a run of white space. */
  lemma SpaceEndIs(s: string, i: nat, e: nat)
    requires i <= e <= |s|
    requires forall k :: i <= k < e ==> IsSpace(s[k])
    requires e == |s| || !IsSpace(s[e])
    ensures SpaceEnd(s, i) == e
  {
  }

  /** The first occurrence of `p` in `s` at or after `from` (`indexOf`, `search`). */
  function IndexOf(s: string, p: string, from: nat): (r: Option<nat>)
    requires from <= |s|
    ensures r.Some? ==> from <= r.value && StartsAt(s, r.value, p)
    ensures forall j :: from <= j && (r.None? || j < r.value) ==> !StartsAt(s, j, p)
    decreases |s| - from
  {
    if StartsAt(s, from, p) then Some(from)
    else if from == |s| then None
    else IndexOf(s, p, from + 1)
  }

  /** `s.includes(p)`, or `new RegExp(p).test(s)` for a pattern without metacharacters. */
  predicate Contains(s: string, p: string) {
    IndexOf(s, p, 0).Some?
  }

  /** `String.prototype.toLowerCase` on the ASCII letters; every other character is kept. */
  function LowerAscii(s: string): (r: string)
    ensures |r| == |s|
    ensures forall k :: 0 <= k < |s| ==> r[k] == if 'A' <= s[k] <= 'Z' then (s[k] - 'A' + 'a') as char else s[k]
  {
    if s == [] then []
    else [if 'A' <= s[0] <= 'Z' then (s[0] - 'A' + 'a') as char else s[0]] + LowerAscii(s[1..])
  }

  /** `s.replace(/\/$/, '')`: one trailing slash removed, when there is one. */
  function StripTrailingSlash(s: string): (r: string)
    ensures s == r || s == r + "/"
    ensures |s| > 0 && s[|s| - 1] == '/' <==> s == r + "/"
  {
    if |s| > 0 && s[|s| - 1] == '/' then s[..|s| - 1] else s
  }

  /** The pieces joined back with `sep` between them. */
  function Join(parts: seq<string>, sep: char): string
    requires |parts| >= 1
  {
    if |parts| == 1 then parts[0] else parts[0] + [sep] + Join(parts[1..], sep)
  }

  /** `s.split(sep)` for a one-character separator: never empty, no piece holds the separator. */
  function Split(s: string, sep: char): (parts: seq<string>)
    ensures |parts| >= 1
    ensures forall k :: 0 <= k < |parts| ==> sep !in parts[k]
    ensures Join(parts, sep) == s
    decreases |s|
  {
    var i := IndexOf(s, [sep], 0);
    if i.None? then
      assert forall k :: 0 <= k < |s| ==> s[k] != sep by {
        forall k | 0 <= k < |s| ensures s[k] != sep {
          assert !StartsAt(s, k, [sep]);
        }
      }
      [s]
    else
      var n := i.value;
      assert sep !in s[..n] by {
        forall k | 0 <= k < n ensures s[..n][k] != sep {
          assert !StartsAt(s, k, [sep]);
        }
      }
      var rest := Split(s[n + 1..], sep);
      assert s == s[..n] + [sep] + s[n + 1..];
      [s[..n]] + rest
  }

  /** Decimal digits of a natural number, as `String(n)` writes them. */
  function NatText(n: nat): (r: string)
    ensures |r| >= 1 && AllDigits(r)
    ensures |r| > 1 ==> r[0] != '0'
  {
    if n < 10 then [('0' as int + n) as char]
    else NatText(n / 10) + [('0' as int + n % 10) as char]
  }

  /** `String(i)` for an integer. */
  function IntText(i: int): string {
    if i < 0 then "-" + NatText(-i) else NatText(i)
  }

  /** Decimal digits are read back as the number they write. */
  function DigitsValue(s: string): nat
    requires AllDigits(s)
  {
    if s == [] then 0 else DigitsValue(s[..|s| - 1]) * 10 + (s[|s| - 1] as int - '0' as int)
  }

  lemma {:induction false} NatTextValue(n: nat)
    ensures DigitsValue(NatText(n)) == n
  {
    if n >= 10 {
      NatTextValue(n / 10);
      var r := NatText(n);
      assert r[..|r| - 1] == NatText(n / 10);
    }
  }
}
