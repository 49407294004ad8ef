/**
 * The string operations the application relies on: ASCII case mapping
 * (`str.lower`, `str.capitalize`), prefix/suffix tests, `rsplit(".", 1)[0]`
 * and the decimal rendering of naturals used in file names and label lines.
 */
module Text {

  predicate IsUpperAscii(c: char) { 'A' <= c <= 'Z' }

  predicate IsLowerAscii(c: char) { 'a' <= c <= 'z' }

  function LowerChar(c: char): char {
    if IsUpperAscii(c) then (c as int + 32) as char else c
  }

  function UpperChar(c: char): char {
    if IsLowerAscii(c) then (c as int - 32) as char else c
  }

  /** `s.lower()`: every upper-case letter replaced by its lower-case partner. */
  function Lower(s: string): (r: string)
    ensures |r| == |s|
    ensures forall i :: 0 <= i < |r| ==> !IsUpperAscii(r[i])
    ensures forall i :: 0 <= i < |r| ==> (IsUpperAscii(s[i]) || r[i] == s[i])
    ensures forall i :: 0 <= i < |r| && IsUpperAscii(s[i]) ==> r[i] as int == s[i] as int + 32
  {
    if s == [] then [] else [LowerChar(s[0])] + Lower(s[1..])
  }

  /** Lowering twice is lowering once, so registry keys are stable under `lower()`. */
  lemma {:induction false} LowerIdempotent(s: string)
    ensures Lower(Lower(s)) == Lower(s)
  {
    if s != [] {
      LowerIdempotent(s[1..]);
      assert Lower(s)[1..] == Lower(s[1..]);
    }
  }

  /** `s.capitalize()`: the first character upper-cased, the rest lower-cased. */
  function Capitalize(s: string): (r: string)
    ensures |r| == |s|
    ensures s != [] ==> !IsLowerAscii(r[0])
    ensures forall i :: 1 <= i < |r| ==> !IsUpperAscii(r[i])
  {
    if s == [] then [] else [UpperChar(s[0])] + Lower(s[1..])
  }

  /**
   * The displayed (capitalized) name and the detected name lower to the same
   * registry key: the panel shows a spelling of the very key it looked up.
   */
  lemma {:induction false} LowerOfCapitalize(s: string)
    ensures Lower(Capitalize(s)) == Lower(s)
  {
    if s != [] {
      var c := Capitalize(s);
      assert c[1..] == Lower(s[1..]);
      LowerIdempotent(s[1..]);
      assert Lower(c) == [LowerChar(c[0])] + Lower(c[1..]);
      assert LowerChar(UpperChar(s[0])) == LowerChar(s[0]);
    }
  }

  predicate StartsWith(s: string, prefix: string) {
    |prefix| <= |s| && s[..|prefix|] == prefix
  }

  predicate EndsWith(s: string, suffix: string) {
    |suffix| <= |s| && s[|s| - |suffix|..] == suffix
  }

  /** The index of the last occurrence of `c` in `s`, or -1 when there is none. */
  function LastIndexOf(s: string, c: char): (r: int)
    ensures -1 <= r < |s|
    ensures r >= 0 ==> s[r] == c
    ensures forall j :: r < j < |s| ==> s[j] != c
  {
    if s == [] then -1
    else if s[|s| - 1] == c then |s| - 1
    else LastIndexOf(s[..|s| - 1], c)
  }

  /** `s.rsplit(".", 1)[0]`: `s` up to (not including) its last '.', or all of `s`. */
  function StripLastExt(s: string): (r: string)
    ensures '.' !in s ==> r == s
    ensures '.' in s ==> |r| < |s| && s[..|r|] == r && s[|r|] == '.' && '.' !in s[|r| + 1..]
  {
    var i := LastIndexOf(s, '.');
    if i < 0 then s else s[..i]
  }

  function Digit(d: nat): (c: char)
    requires d < 10
    ensures '0' <= c <= '9' && c as int - '0' as int == d
  {
    ('0' as int + d) as char
  }

  /** The number a string of decimal digits spells, most significant digit first. */
  function DecimalValue(s: string): int {
    if s == [] then 0 else 10 * DecimalValue(s[..|s| - 1]) + (s[|s| - 1] as int - '0' as int)
  }

  /** `str(n)` for a natural: decimal digits, no leading zero. */
  function NatToString(n: nat): (s: string)
    ensures 1 <= |s|
    ensures forall i :: 0 <= i < |s| ==> '0' <= s[i] <= '9'
    ensures |s| == 1 <==> n < 10
    ensures |s| > 1 ==> s[0] != '0'
    ensures DecimalValue(s) == n
  {
    if n < 10 then [Digit(n)]
    else
      var p := NatToString(n / 10);
      var s := p + [Digit(n % 10)];
      assert s[..|s| - 1] == p;
      s
  }

  /** Distinct naturals render as distinct strings: each string spells back its number. */
  lemma NatToStringInjective(a: nat, b: nat)
    requires NatToString(a) == NatToString(b)
    ensures a == b
  {
  }

  /** The lines joined by `sep`, with no trailing separator. */
  function Join(lines: seq<string>, sep: string): string {
    if lines == [] then ""
    else if |lines| == 1 then lines[0]
    else lines[0] + sep + Join(lines[1..], sep)
  }

  /** Every line followed by a newline, as repeated `info += f"...\n"` builds it. */
  function Terminated(lines: seq<string>): string {
    if lines == [] then "" else lines[0] + "\n" + Terminated(lines[1..])
  }

  /** Terminating the lines of a concatenation terminates each part in turn. */
  lemma {:induction false} TerminatedAppend(a: seq<string>, b: seq<string>)
    ensures Terminated(a + b) == Terminated(a) + Terminated(b)
  {
    if a == [] {
      assert a + b == b;
    } else {
      assert (a + b)[1..] == a[1..] + b;
      TerminatedAppend(a[1..], b);
    }
  }

  /** The index of the first occurrence of `c` in `s`, or `|s|` when there is none. */
  function IndexOf(s: string, c: char): (r: nat)
    ensures r <= |s|
    ensures r < |s| ==> s[r] == c
    ensures c !in s[..r]
  {
    if s == [] then 0
    else if s[0] == c then 0
    else 1 + IndexOf(s[1..], c)
  }

  /** The first `sep` of `a + [sep] + b` is the one after `a`, when `a` holds none. */
  lemma {:induction false} IndexOfAfterPrefix(a: string, b: string, sep: char)
    requires sep !in a
    ensures IndexOf(a + [sep] + b, sep) == |a|
  {
    if a != [] {
      assert (a + [sep] + b)[1..] == a[1..] + [sep] + b;
      IndexOfAfterPrefix(a[1..], b, sep);
    }
  }

  /** `a + sep + b` splits back into `a` and `b` when `sep` occurs in neither. */
  lemma SplitAtSeparator(a: string, b: string, c: string, d: string, sep: char)
    requires sep !in a && sep !in c
    requires a + [sep] + b == c + [sep] + d
    ensures a == c && b == d
  {
    var x := a + [sep] + b;
    IndexOfAfterPrefix(a, b, sep);
    IndexOfAfterPrefix(c, d, sep);
    assert a == x[..|a|] && c == x[..|c|];
    assert b == x[|a| + 1..] && d == x[|c| + 1..];
  }
}
