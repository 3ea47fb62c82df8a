/** The Python string and list built-ins the crontab filters rely on:
    `str.split()` with no separator, `" ".join(...)` and `list.index(...)`. */
module Tokens {

  /** The characters Python's `str.split()` treats as whitespace. */
  predicate IsWhitespace(c: char) {
    || ('\t' <= c <= '\r')
    || ('\U{1c}' <= c <= ' ')
    || c == '\U{85}' || c == '\U{a0}' || c == '\U{1680}'
    || ('\U{2000}' <= c <= '\U{200a}')
    || c == '\U{2028}' || c == '\U{2029}' || c == '\U{202f}' || c == '\U{205f}'
    || c == '\U{3000}'
  }

  /** A piece produced by `split()`: a non-empty run of non-whitespace characters. */
  predicate IsToken(t: string) {
    |t| > 0 && forall i :: 0 <= i < |t| ==> !IsWhitespace(t[i])
  }

  predicate AllTokens(ts: seq<string>) {
    forall i :: 0 <= i < |ts| ==> IsToken(ts[i])
  }

  /** Length of the leading run of non-whitespace characters of `s`. */
  function TokenLength(s: string): (n: nat)
    ensures n <= |s|
    ensures forall i :: 0 <= i < n ==> !IsWhitespace(s[i])
    ensures n < |s| ==> IsWhitespace(s[n])
  {
    if s == [] || IsWhitespace(s[0]) then 0 else 1 + TokenLength(s[1..])
  }

  /** `s.strip().split()`: the maximal runs of non-whitespace characters, in order.
      (Stripping first changes nothing, since `split()` already drops leading and
      trailing whitespace.) */
  function Split(s: string): (ts: seq<string>)
    ensures AllTokens(ts)
    decreases |s|
  {
    if s == [] then []
    else if IsWhitespace(s[0]) then Split(s[1..])
    else
      var n := TokenLength(s);
      [s[..n]] + Split(s[n..])
  }

  /** `" ".join(ts)`: the joined string starts with the first field; `SplitJoin` shows
      that splitting it gives the fields back. */
  function Join(ts: seq<string>): (r: string)
    ensures |ts| >= 1 ==> ts[0] <= r
  {
    if |ts| == 0 then ""
    else if |ts| == 1 then ts[0]
    else ts[0] + " " + Join(ts[1..])
  }

  lemma {:induction false} TokenLengthOfPrefix(t: string, tail: string)
    requires forall i :: 0 <= i < |t| ==> !IsWhitespace(t[i])
    requires tail == [] || IsWhitespace(tail[0])
    ensures TokenLength(t + tail) == |t|
  {
    if t != [] {
      assert (t + tail)[1..] == t[1..] + tail;
      TokenLengthOfPrefix(t[1..], tail);
    } else {
      assert t + tail == tail;
    }
  }

  /** Splitting a joined list of tokens gives the list back: `split` undoes `" ".join`. */
  lemma {:induction false} SplitJoin(ts: seq<string>)
    requires AllTokens(ts)
    ensures Split(Join(ts)) == ts
  {
    if |ts| == 0 {
    } else if |ts| == 1 {
      var t := ts[0];
      TokenLengthOfPrefix(t, []);
      assert t + [] == t;
      assert t[..|t|] == t && t[|t|..] == [];
    } else {
      var t, rest := ts[0], Join(ts[1..]);
      var s := t + " " + rest;
      assert s == t + (" " + rest);
      TokenLengthOfPrefix(t, " " + rest);
      assert s[..|t|] == t;
      assert s[|t|..] == " " + rest;
      assert (" " + rest)[1..] == rest;
      assert Split(" " + rest) == Split(rest);
      assert AllTokens(ts[1..]);
      SplitJoin(ts[1..]);
      assert ts == [t] + ts[1..];
    }
  }

  /** `Join` of tokens is injective: two token lists that join to the same string are equal. */
  lemma JoinInjective(a: seq<string>, b: seq<string>)
    requires AllTokens(a) && AllTokens(b)
    requires Join(a) == Join(b)
    ensures a == b
  {
    SplitJoin(a);
    SplitJoin(b);
  }

  /** `list.index(x)`: the position of the first occurrence of `x`. */
  function FirstIndex<T(==)>(s: seq<T>, x: T): (i: nat)
    requires x in s
    ensures i < |s| && s[i] == x
    ensures x !in s[..i]
  {
    if s[0] == x then 0
    else
      var i := 1 + FirstIndex(s[1..], x);
      assert s[..i] == [s[0]] + s[1..][..i - 1];
      i
  }
}
