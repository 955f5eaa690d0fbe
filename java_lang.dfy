/**
  The handful of java.lang operations the game's logic is written in, stated
  in Dafny's terms: 32-bit `int` arithmetic, `String.indexOf`, `trim`,
  `split`, `equalsIgnoreCase`, `Integer.parseInt`, `Integer.toString` and the
  line splitting of `BufferedReader.readLine`.
*/
module JavaLang {

  /** A Java `int`. */
  type Int32 = x: int | -0x8000_0000 <= x <= 0x7fff_ffff

  /** A Java reference that may be `null`. */
  datatype Option<T> = None | Some(value: T)

  /** Two's-complement wrap-around of an exact result into the `int` range. */
  function Wrap(x: int): (r: Int32)
    ensures -0x8000_0000 <= x <= 0x7fff_ffff ==> r == x
  {
    if -0x8000_0000 <= x <= 0x7fff_ffff then x
    else (x + 0x8000_0000) % 0x1_0000_0000 - 0x8000_0000
  }

  /** Java `a + b` on `int`. */
  function Add(a: Int32, b: Int32): Int32 { Wrap(a + b) }

  /** Java `a - b` on `int`. */
  function Sub(a: Int32, b: Int32): Int32 { Wrap(a - b) }

  // ---------------------------------------------------------------- indexOf

  /** `pat` occurs in `s` starting at index `i`. */
  predicate OccursAt(s: string, pat: string, i: int)
  {
    0 <= i && i + |pat| <= |s| && s[i..i + |pat|] == pat
  }

  /** `s.indexOf(pat, from)`: the least index at or after `from` where `pat`
      starts, or -1 when there is none. Every caller passes a non-empty literal. */
  function IndexOf(s: string, pat: string, from: nat): (r: int)
    requires pat != []
    ensures r == -1 || (from <= r && OccursAt(s, pat, r))
    decreases |s| - from
  {
    if from + |pat| > |s| then -1
    else if s[from..from + |pat|] == pat then from
    else IndexOf(s, pat, from + 1)
  }

  /** `k` is where `pat` first starts at or after `from`. */
  predicate FirstAt(s: string, pat: string, from: nat, k: int)
  {
    from <= k && OccursAt(s, pat, k) && forall i :: from <= i < k ==> !OccursAt(s, pat, i)
  }

  /** `pat` does not start anywhere at or after `from`. */
  predicate AbsentFrom(s: string, pat: string, from: nat)
  {
    forall i :: from <= i <= |s| ==> !OccursAt(s, pat, i)
  }

  /** `indexOf` finds the first occurrence, and -1 means there is none. */
  lemma {:induction false} IndexOfSpec(s: string, pat: string, from: nat)
    requires pat != []
    ensures IndexOf(s, pat, from) == -1 ==> AbsentFrom(s, pat, from)
    ensures IndexOf(s, pat, from) != -1 ==> FirstAt(s, pat, from, IndexOf(s, pat, from))
    decreases |s| - from
  {
    if from + |pat| <= |s| && s[from..from + |pat|] != pat {
      IndexOfSpec(s, pat, from + 1);
    }
  }

  /** `indexOf` finds exactly the first occurrence. */
  lemma IndexOfFirst(s: string, pat: string, from: nat, k: int)
    requires pat != [] && FirstAt(s, pat, from, k)
    ensures IndexOf(s, pat, from) == k
  {
    IndexOfSpec(s, pat, from);
  }

  lemma IndexOfAbsent(s: string, pat: string, from: nat)
    requires pat != [] && AbsentFrom(s, pat, from)
    ensures IndexOf(s, pat, from) == -1
  {
    IndexOfSpec(s, pat, from);
  }

  /** `s.indexOf(c, from)` for a one-character pattern: the least index at or
      after `from` holding `c`, or -1. */
  function IndexOfChar(s: string, c: char, from: nat): (r: int)
    ensures r == -1 || (from <= r < |s| && s[r] == c)
    decreases |s| - from
  {
    if from >= |s| then -1
    else if s[from] == c then from
    else IndexOfChar(s, c, from + 1)
  }

  /** `c` does not occur at or after `from`. */
  predicate CharAbsentFrom(s: string, c: char, from: nat)
  {
    forall i :: from <= i < |s| ==> s[i] != c
  }

  /** `IndexOfChar` finds the first `c`, and -1 means there is none. */
  lemma {:induction false} IndexOfCharSpec(s: string, c: char, from: nat)
    ensures IndexOfChar(s, c, from) == -1 ==> CharAbsentFrom(s, c, from)
    ensures forall i :: from <= i < |s| && (IndexOfChar(s, c, from) == -1 || i < IndexOfChar(s, c, from)) ==> s[i] != c
    decreases |s| - from
  {
    if from < |s| && s[from] != c {
      IndexOfCharSpec(s, c, from + 1);
    }
  }

  /** The first `c` at or after `from` is at `k`. */
  lemma IndexOfCharFirst(s: string, c: char, from: nat, k: nat)
    requires from <= k < |s| && s[k] == c
    requires forall i :: from <= i < k ==> s[i] != c
    ensures IndexOfChar(s, c, from) == k
  {
    IndexOfCharSpec(s, c, from);
  }

  /** Searching for the one-character string `[c]` finds what searching for
      `c` finds, as `String.indexOf` does in Java. */
  lemma {:induction false} IndexOfCharAgrees(s: string, c: char, from: nat)
    ensures IndexOf(s, [c], from) == IndexOfChar(s, c, from)
    decreases |s| - from
  {
    if from < |s| {
      assert s[from..from + 1] == [s[from]];
      if s[from] != c {
        IndexOfCharAgrees(s, c, from + 1);
      }
    }
  }

  /** `s.contains(pat)`. */
  predicate Contains(s: string, pat: string)
    requires pat != []
  {
    IndexOf(s, pat, 0) != -1
  }

  /** `contains` holds exactly when `pat` starts somewhere in `s`. */
  lemma ContainsOccurs(s: string, pat: string)
    requires pat != []
    ensures Contains(s, pat) <==> exists i :: 0 <= i <= |s| && OccursAt(s, pat, i)
  {
    IndexOfSpec(s, pat, 0);
    if Contains(s, pat) {
      assert OccursAt(s, pat, IndexOf(s, pat, 0));
    }
  }

  // ------------------------------------------------------------------- trim

  /** The characters `String.trim` removes: every code point up to the space. */
  predicate IsTrimmed(c: char) { c <= ' ' }

  function TrimLeft(s: string): (r: string)
    ensures |r| <= |s| && r == s[|s| - |r|..]
    ensures r == [] || !IsTrimmed(r[0])
    ensures forall i :: 0 <= i < |s| - |r| ==> IsTrimmed(s[i])
  {
    if s != [] && IsTrimmed(s[0]) then TrimLeft(s[1..]) else s
  }

  function TrimRight(s: string): (r: string)
    ensures |r| <= |s| && r == s[..|r|]
    ensures r == [] || !IsTrimmed(r[|r| - 1])
    ensures forall i :: |r| <= i < |s| ==> IsTrimmed(s[i])
  {
    if s != [] && IsTrimmed(s[|s| - 1]) then TrimRight(s[..|s| - 1]) else s
  }

  /** `s.trim()`. */
  function Trim(s: string): string
  {
    TrimRight(TrimLeft(s))
  }

  /** `trim` keeps only characters of its argument. */
  lemma TrimWithin(s: string)
    ensures forall c :: c in Trim(s) ==> c in s
  {
    var t := TrimLeft(s);
    var u := TrimRight(t);
    forall c | c in u
      ensures c in s
    {
      var j :| 0 <= j < |u| && u[j] == c;
      assert u[j] == t[j];
      assert t[j] == s[|s| - |t| + j];
    }
  }

  /** Every character of `s` is either removed by `trim` or kept in its result. */
  lemma TrimKeeps(s: string)
    ensures forall j :: 0 <= j < |s| ==> IsTrimmed(s[j]) || s[j] in Trim(s)
  {
    var t := TrimLeft(s);
    var u := TrimRight(t);
    forall j | 0 <= j < |s|
      ensures IsTrimmed(s[j]) || s[j] in u
    {
      var d := |s| - |t|;
      if j < d {
        assert IsTrimmed(s[j]);
      } else if j - d < |u| {
        assert s[j] == t[j - d] == u[j - d];
      } else {
        assert s[j] == t[j - d];
        assert IsTrimmed(t[j - d]);
      }
    }
  }

  // ------------------------------------------------------------------ split

  /** The pieces of `s` between occurrences of `sep`, empty pieces kept. */
  function Fields(s: string, sep: char): (r: seq<string>)
    ensures |r| >= 1
  {
    if s == [] then [[]]
    else
      var rest := Fields(s[1..], sep);
      if s[0] == sep then [[]] + rest else [[s[0]] + rest[0]] + rest[1..]
  }

  function DropTrailingEmpty(fs: seq<string>): (r: seq<string>)
    ensures |r| <= |fs| && r == fs[..|r|]
    ensures r == [] || r[|r| - 1] != []
  {
    if fs != [] && fs[|fs| - 1] == [] then DropTrailingEmpty(fs[..|fs| - 1]) else fs
  }

  /** `s.split(sep)` for a one-character, non-special separator: when `sep`
      never occurs the result is `[s]` (so `"".split(",")` is `[""]`),
      otherwise the fields with the trailing empty ones removed. */
  function Split(s: string, sep: char): seq<string>
  {
    if sep !in s then [s] else DropTrailingEmpty(Fields(s, sep))
  }

  /** A separator splits the fields of a concatenation. */
  lemma {:induction false} FieldsAppend(x: string, y: string, sep: char)
    ensures Fields(x + [sep] + y, sep) == Fields(x, sep) + Fields(y, sep)
  {
    if x == [] {
      assert x + [sep] + y == [sep] + y;
      assert ([sep] + y)[1..] == y;
    } else {
      assert (x + [sep] + y)[1..] == x[1..] + [sep] + y;
      FieldsAppend(x[1..], y, sep);
    }
  }

  /** A text without the separator is a single field. */
  lemma {:induction false} FieldsWithout(x: string, sep: char)
    requires sep !in x
    ensures Fields(x, sep) == [x]
  {
    if x != [] {
      FieldsWithout(x[1..], sep);
      assert [x[0]] + x[1..] == x;
    }
  }

  // ------------------------------------------------------- equalsIgnoreCase

  function ToLowerAscii(c: char): char
  {
    if 'A' <= c <= 'Z' then (c as int + 32) as char else c
  }

  /** `a.equalsIgnoreCase(b)` for ASCII letters. */
  predicate EqualsIgnoreCase(a: string, b: string)
  {
    |a| == |b| && forall i :: 0 <= i < |a| ==> ToLowerAscii(a[i]) == ToLowerAscii(b[i])
  }

  // ------------------------------------------------------ parseInt, toString

  predicate IsDigit(c: char) { '0' <= c <= '9' }

  predicate AllDigits(s: string) { forall i :: 0 <= i < |s| ==> IsDigit(s[i]) }

  /** The decimal value of a digit string. */
  function DigitsValue(s: string): nat
    requires AllDigits(s)
  {
    if s == [] then 0 else DigitsValue(s[..|s| - 1]) * 10 + (s[|s| - 1] as int - '0' as int)
  }

  /** `Integer.parseInt(s)`: an optional sign and at least one decimal digit,
      within the `int` range; `None` is a `NumberFormatException`. */
  function ParseInt(s: string): (r: Option<Int32>)
    ensures r.Some? ==> s != [] && (IsDigit(s[0]) || s[0] == '-' || s[0] == '+')
    ensures r.Some? && s[0] == '-' ==> r.value <= 0
    ensures r.Some? && s[0] != '-' ==> r.value >= 0
  {
    if s == [] then None
    else
      var digits := if s[0] == '-' || s[0] == '+' then s[1..] else s;
      if digits == [] || !AllDigits(digits) then None
      else
        var v: int := if s[0] == '-' then 0 - DigitsValue(digits) else DigitsValue(digits);
        if -0x8000_0000 <= v <= 0x7fff_ffff then Some(v) else None
  }

  function DigitChar(d: nat): (c: char)
    requires d < 10
    ensures IsDigit(c) && c as int - '0' as int == d
  {
    ('0' as int + d) as char
  }

  function NatToString(n: nat): (r: string)
    ensures r != [] && AllDigits(r)
  {
    if n < 10 then [DigitChar(n)] else NatToString(n / 10) + [DigitChar(n % 10)]
  }

  /** `Integer.toString(n)`, which is what `n + "\n"` writes. */
  function IntToString(n: int): (r: string)
    ensures r != []
    ensures forall i :: 0 <= i < |r| ==> IsDigit(r[i]) || r[i] == '-'
  {
    if n < 0 then "-" + NatToString(0 - n) else NatToString(n)
  }

  lemma {:induction false} NatToStringValue(n: nat)
    ensures DigitsValue(NatToString(n)) == n
  {
    if n >= 10 {
      var s := NatToString(n);
      assert s[..|s| - 1] == NatToString(n / 10);
      NatToStringValue(n / 10);
    }
  }

  /** Parsing what `Integer.toString` wrote gives the same `int` back. */
  lemma ParseIntToString(n: Int32)
    ensures ParseInt(IntToString(n)) == Some(n)
  {
    var s := IntToString(n);
    if n < 0 {
      var m: nat := 0 - n as int;
      var digits := NatToString(m);
      assert s == "-" + digits && s[1..] == digits;
      NatToStringValue(m);
      assert ParseInt(s) == Some(0 - DigitsValue(digits));
    } else {
      var digits := NatToString(n);
      assert s == digits && IsDigit(s[0]);
      NatToStringValue(n);
      assert ParseInt(s) == Some(DigitsValue(digits));
    }
  }

  // ---------------------------------------------------------------- readLine

  /** The index of the first line terminator (`\n` or `\r`) at or after `i`,
      or `|t|` when there is none. */
  function LineEnd(t: string, i: nat): (k: nat)
    requires i <= |t|
    ensures i <= k <= |t|
    ensures k < |t| ==> t[k] == '\n' || t[k] == '\r'
    ensures forall j :: i <= j < k ==> t[j] != '\n' && t[j] != '\r'
    decreases |t| - i
  {
    if i == |t| || t[i] == '\n' || t[i] == '\r' then i else LineEnd(t, i + 1)
  }

  /** The successive results of `BufferedReader.readLine` over text `t`: a line
      ends at `\n`, `\r` or `\r\n`, and a last line without a terminator is
      still returned. */
  function ReadLines(t: string): seq<string>
    decreases |t|
  {
    if t == [] then []
    else
      var k := LineEnd(t, 0);
      if k == |t| then [t]
      else
        var next := if t[k] == '\r' && k + 1 < |t| && t[k + 1] == '\n' then k + 2 else k + 1;
        [t[..k]] + ReadLines(t[next..])
  }

  /** Text without carriage returns. */
  predicate NoCarriageReturn(t: string) { '\r' !in t }

  /** A line followed by `\n` is read back as that line, before the rest. */
  lemma ReadLinesCons(line: string, rest: string)
    requires '\n' !in line && '\r' !in line
    ensures ReadLines(line + "\n" + rest) == [line] + ReadLines(rest)
  {
    var t := line + "\n" + rest;
    assert t[|line|] == '\n';
    assert forall j :: 0 <= j < |line| ==> t[j] == line[j];
    assert LineEnd(t, 0) == |line| by {
      LineEndAt(t, 0, |line|);
    }
    assert t[..|line|] == line;
    assert t[|line| + 1..] == rest;
  }

  lemma {:induction false} LineEndAt(t: string, i: nat, k: nat)
    requires i <= k < |t| && (t[k] == '\n' || t[k] == '\r')
    requires forall j :: i <= j < k ==> t[j] != '\n' && t[j] != '\r'
    ensures LineEnd(t, i) == k
    decreases k - i
  {
    if i < k {
      LineEndAt(t, i + 1, k);
    }
  }

  /** Lines each followed by `\n`, as a writer that ends every line writes them. */
  function JoinLines(ls: seq<string>): string
  {
    if ls == [] then "" else ls[0] + "\n" + JoinLines(ls[1..])
  }

  lemma {:induction false} JoinLinesSnoc(ls: seq<string>, l: string)
    ensures JoinLines(ls + [l]) == JoinLines(ls) + l + "\n"
  {
    if ls == [] {
      assert [l][1..] == [];
    } else {
      assert (ls + [l])[1..] == ls[1..] + [l];
      JoinLinesSnoc(ls[1..], l);
    }
  }

  lemma {:induction false} JoinLinesAppend(a: seq<string>, b: seq<string>)
    ensures JoinLines(a + b) == JoinLines(a) + JoinLines(b)
  {
    if a == [] {
      assert a + b == b;
    } else {
      assert (a + b)[1..] == a[1..] + b;
      JoinLinesAppend(a[1..], b);
    }
  }

  /** `readLine` gives back exactly the lines that were written, provided no
      line holds a line terminator. */
  lemma {:induction false} ReadJoinedLines(ls: seq<string>)
    requires forall i :: 0 <= i < |ls| ==> '\n' !in ls[i] && '\r' !in ls[i]
    ensures ReadLines(JoinLines(ls)) == ls
  {
    if ls != [] {
      ReadLinesCons(ls[0], JoinLines(ls[1..]));
      ReadJoinedLines(ls[1..]);
    }
  }
}
