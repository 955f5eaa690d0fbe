/**
  The pieces the game's hand-rolled readers of its JSON-shaped configuration
  text share: where an unquoted value ends, the text between the next two
  quotes, and the walk that jumps from one occurrence of a key to the next.
*/
module Scanning {
  import opened JavaLang

  /** The position where an unquoted value starting at `from` ends: the
      nearer of the next `,` and the next `}`, or -1 when neither follows. */
  function ValueEnd(s: string, from: nat): (e: int)
    ensures e == -1 ==> CharAbsentFrom(s, ',', from) && CharAbsentFrom(s, '}', from)
    ensures e != -1 ==> from <= e < |s| && (s[e] == ',' || s[e] == '}')
    ensures e != -1 ==> forall i :: from <= i < e ==> s[i] != ',' && s[i] != '}'
  {
    var comma := IndexOfChar(s, ',', from);
    var brace := IndexOfChar(s, '}', from);
    IndexOfCharSpec(s, ',', from);
    IndexOfCharSpec(s, '}', from);
    if comma == -1 && brace == -1 then -1
    else if comma == -1 then brace
    else if brace == -1 then comma
    else if comma < brace then comma else brace
  }

  /** The text `"key":` the readers search for. */
  function KeyPattern(key: string): (p: string)
    ensures |p| == |key| + 3
  {
    "\"" + key + "\":"
  }

  /** An unquoted value ends at the first `,` or `}`. */
  lemma ValueEndAt(s: string, from: nat, e: nat)
    requires from <= e < |s| && (s[e] == ',' || s[e] == '}')
    requires forall i :: from <= i < e ==> s[i] != ',' && s[i] != '}'
    ensures ValueEnd(s, from) == e
  {
    IndexOfCharSpec(s, ',', from);
    IndexOfCharSpec(s, '}', from);
  }

  /** The text between the first two `"` at or after `from`, or `None`
      when fewer than two follow. */
  function Quoted(s: string, from: nat): (r: Option<string>)
    ensures r.Some? ==> '"' !in r.value
    ensures r.None? <==> IndexOfChar(s, '"', from) == -1 || IndexOfChar(s, '"', IndexOfChar(s, '"', from) + 1) == -1
  {
    var first := IndexOfChar(s, '"', from);
    if first == -1 then None
    else
      var second := IndexOfChar(s, '"', first + 1);
      if second == -1 then None
      else
        QuoteFree(s, first + 1, second);
        Some(s[first + 1..second])
  }

  lemma QuoteFree(s: string, lo: nat, hi: int)
    requires lo <= hi && hi == IndexOfChar(s, '"', lo)
    ensures '"' !in s[lo..hi]
  {
    IndexOfCharSpec(s, '"', lo);
    forall j | 0 <= j < hi - lo
      ensures s[lo..hi][j] != '"'
    {
      assert s[lo..hi][j] == s[lo + j];
    }
  }

  /** A quoted token preceded only by quote-free text is what `Quoted` reads. */
  lemma QuotedToken(s: string, from: nat, pre: string, v: string, rest: string)
    requires from <= |s| && s[from..] == pre + "\"" + v + "\"" + rest
    requires '"' !in pre && '"' !in v
    ensures Quoted(s, from) == Some(v)
  {
    var q := from + |pre|;
    var q2 := q + 1 + |v|;
    TokenLayout(s[from..], pre, v, rest);
    assert forall i :: 0 <= i < |s| - from ==> s[from + i] == s[from..][i];
    assert s[q + 1..q2] == s[from..][|pre| + 1..|pre| + 1 + |v|];
    QuotedBetween(s, from, q, q2);
  }

  /** Where the quotes and the token lie in `pre"v"rest`. */
  lemma TokenLayout(t: string, pre: string, v: string, rest: string)
    requires t == pre + "\"" + v + "\"" + rest
    requires '"' !in pre && '"' !in v
    ensures |pre| + 1 + |v| < |t|
    ensures t[|pre|] == '"' && t[|pre| + 1 + |v|] == '"'
    ensures forall i :: 0 <= i < |pre| ==> t[i] != '"'
    ensures forall i :: |pre| < i < |pre| + 1 + |v| ==> t[i] != '"'
    ensures t[|pre| + 1..|pre| + 1 + |v|] == v
  {
    var q := |pre|;
    assert forall i :: 0 <= i < q ==> t[i] == pre[i];
    assert forall i :: q + 1 <= i < q + 1 + |v| ==> t[i] == v[i - q - 1];
  }

  /** With the first two quotes from `from` on at `first` and `second`,
      `Quoted` reads what lies between them. */
  lemma QuotedBetween(s: string, from: nat, first: nat, second: nat)
    requires from <= first < second < |s| && s[first] == '"' && s[second] == '"'
    requires forall i :: from <= i < first ==> s[i] != '"'
    requires forall i :: first < i < second ==> s[i] != '"'
    ensures Quoted(s, from) == Some(s[first + 1..second])
  {
    IndexOfCharFirst(s, '"', from, first);
    IndexOfCharFirst(s, '"', first + 1, second);
  }

  /** How many times `pat` is found by searching from `from` and resuming
      just past each match. */
  function Count(s: string, pat: string, from: nat): nat
    requires pat != []
    decreases |s| - from
  {
    var k := IndexOf(s, pat, from);
    if k == -1 then 0 else 1 + Count(s, pat, k + |pat|)
  }

  /** The position of the `n`-th (0-based) match found that way, or -1. */
  function Nth(s: string, pat: string, from: nat, n: nat): (k: int)
    requires pat != []
    ensures k == -1 || (from <= k && OccursAt(s, pat, k))
    decreases |s| - from
  {
    var k := IndexOf(s, pat, from);
    if k == -1 then -1
    else if n == 0 then k
    else Nth(s, pat, k + |pat|, n - 1)
  }

  /** One search from `from` decides the `n`-th match: none when nothing is
      found, the match found when `n` is 0, and otherwise the `n - 1`-th
      match past it. */
  lemma NthStep(s: string, pat: string, from: nat, n: nat)
    requires pat != []
    ensures IndexOf(s, pat, from) == -1 ==> Nth(s, pat, from, n) == -1
    ensures IndexOf(s, pat, from) != -1 && n == 0 ==> Nth(s, pat, from, n) == IndexOf(s, pat, from)
    ensures IndexOf(s, pat, from) != -1 && n > 0 ==>
      Nth(s, pat, from, n) == Nth(s, pat, IndexOf(s, pat, from) + |pat|, n - 1)
  {
  }

  /** The `n`-th match exists exactly when there are more than `n` matches. */
  lemma {:induction false} NthExists(s: string, pat: string, from: nat, n: nat)
    requires pat != []
    ensures Nth(s, pat, from, n) != -1 <==> n < Count(s, pat, from)
    decreases |s| - from
  {
    var k := IndexOf(s, pat, from);
    if k != -1 && n > 0 {
      NthExists(s, pat, k + |pat|, n - 1);
    }
  }

  /** Every match found by searching from `from` and resuming just past each
      match, in order. */
  function Matches(s: string, pat: string, from: nat): (ks: seq<nat>)
    requires pat != []
    ensures forall i :: 0 <= i < |ks| ==> from <= ks[i] && OccursAt(s, pat, ks[i])
    decreases |s| - from
  {
    var k := IndexOf(s, pat, from);
    if k == -1 then [] else [k] + Matches(s, pat, k + |pat|)
  }

  /** Searching again from `from`, the next match is `k` and the rest follow. */
  lemma MatchesStep(s: string, pat: string, from: nat, k: int)
    requires pat != [] && k == IndexOf(s, pat, from) && k != -1
    ensures Matches(s, pat, from) == [k] + Matches(s, pat, k + |pat|)
  {
  }

  /** The matches are as many as `Count` says, and the `n`-th is `Nth`. */
  lemma {:induction false} MatchesAreNth(s: string, pat: string, from: nat)
    requires pat != []
    ensures |Matches(s, pat, from)| == Count(s, pat, from)
    ensures forall n :: 0 <= n < |Matches(s, pat, from)| ==> Matches(s, pat, from)[n] == Nth(s, pat, from, n)
    decreases |s| - from
  {
    var k := IndexOf(s, pat, from);
    if k != -1 {
      MatchesAreNth(s, pat, k + |pat|);
      var ks := Matches(s, pat, from);
      forall n | 0 <= n < |ks|
        ensures ks[n] == Nth(s, pat, from, n)
      {
        if n > 0 {
          assert ks[n] == Matches(s, pat, k + |pat|)[n - 1];
        }
      }
    }
  }
}
