/** The string operations the command grammar is built from, on `seq<char>`.
    Positions are character indices; Rust's byte offsets name the same cut
    points, so slicing at them gives the same pieces. */
module Text {
  import opened Wrappers

  /** Rust's `char::is_whitespace`: the characters with the Unicode
      White_Space property. These are what `str::trim` removes. */
  predicate IsWhitespace(c: char) {
    || ('\t' <= c <= '\r')
    || c == ' '
    || c == '\U{85}'
    || c == '\U{A0}'
    || c == '\U{1680}'
    || ('\U{2000}' <= c <= '\U{200A}')
    || c == '\U{2028}'
    || c == '\U{2029}'
    || c == '\U{202F}'
    || c == '\U{205F}'
    || c == '\U{3000}'
  }

  /** The ASCII whitespace characters are whitespace; the characters the
      command grammar cuts at are not. */
  lemma AsciiWhitespace(c: char)
    ensures c == ' ' || ('\t' <= c <= '\r') ==> IsWhitespace(c)
    ensures c == ':' || c == '#' || c == '$' || c == '!' ==> !IsWhitespace(c)
  {
  }

  /** A string with no leading and no trailing whitespace. */
  predicate IsTrimmed(s: string) {
    s == [] || (!IsWhitespace(s[0]) && !IsWhitespace(s[|s| - 1]))
  }

  /** A non-empty string whose last character is not whitespace. */
  predicate EndsClean(s: string) {
    s != [] && !IsWhitespace(s[|s| - 1])
  }

  /** `str::starts_with(c)`: the string is `c` followed by the rest. */
  predicate StartsWith(s: string, c: char): (b: bool)
    ensures b <==> s != [] && s == [c] + s[1..]
  {
    |s| > 0 && s[0] == c
  }

  /** `str::trim_start`: drops the whitespace prefix. */
  function TrimStart(s: string): (r: string)
    ensures |r| <= |s| && r == s[|s| - |r|..]
    ensures forall k :: 0 <= k < |s| - |r| ==> IsWhitespace(s[k])
    ensures r == [] || !IsWhitespace(r[0])
  {
    if s != [] && IsWhitespace(s[0]) then TrimStart(s[1..]) else s
  }

  /** `str::trim_end`: drops the whitespace suffix. */
  function TrimEnd(s: string): (r: string)
    ensures |r| <= |s| && r == s[..|r|]
    ensures forall k :: |r| <= k < |s| ==> IsWhitespace(s[k])
    ensures r == [] || !IsWhitespace(r[|r| - 1])
  {
    if s != [] && IsWhitespace(s[|s| - 1]) then TrimEnd(s[..|s| - 1]) else s
  }

  /** `str::trim`. The result is the input less a leading and a trailing run
      of whitespace; it has no surrounding whitespace, is empty exactly when
      the input is all whitespace, keeps only characters of the input, and
      leaves an already trimmed string alone. */
  function Trim(s: string): (r: string)
    ensures exists i, j ::
      && 0 <= i <= j <= |s| && r == s[i..j]
      && (forall k :: 0 <= k < i ==> IsWhitespace(s[k]))
      && (forall k :: j <= k < |s| ==> IsWhitespace(s[k]))
    ensures IsTrimmed(r)
    ensures r == [] <==> forall k :: 0 <= k < |s| ==> IsWhitespace(s[k])
    ensures forall c :: c in r ==> c in s
    ensures IsTrimmed(s) ==> r == s
  {
    var t := TrimStart(s);
    var r := TrimEnd(t);
    TrimCut(s, t, r);
    r
  }

  /** A whitespace prefix cut off, then a whitespace suffix: what remains is
      a slice of the input with whitespace on both sides and none at its ends. */
  lemma TrimCut(s: string, t: string, r: string)
    requires |t| <= |s| && t == s[|s| - |t|..] && (t == [] || !IsWhitespace(t[0]))
    requires forall k :: 0 <= k < |s| - |t| ==> IsWhitespace(s[k])
    requires |r| <= |t| && r == t[..|r|] && (r == [] || !IsWhitespace(r[|r| - 1]))
    requires forall k :: |r| <= k < |t| ==> IsWhitespace(t[k])
    ensures exists i, j ::
      && 0 <= i <= j <= |s| && r == s[i..j]
      && (forall k :: 0 <= k < i ==> IsWhitespace(s[k]))
      && (forall k :: j <= k < |s| ==> IsWhitespace(s[k]))
    ensures IsTrimmed(r)
    ensures r == [] <==> forall k :: 0 <= k < |s| ==> IsWhitespace(s[k])
    ensures forall c :: c in r ==> c in s
    ensures IsTrimmed(s) ==> r == s
  {
    var i := |s| - |t|;
    forall k | i + |r| <= k < |s|
      ensures IsWhitespace(s[k])
    {
      assert s[k] == t[k - i];
    }
    assert r == s[i..i + |r|];
    if r != [] {
      assert r[0] == t[0] == s[i];
    }
    assert forall c :: c in r ==> c in t;
  }

  /** `str::find(c)` with `unwrap_or(len)`: the index of the first `c`, or
      the length when there is none. */
  function IndexOf(s: string, c: char): (i: nat)
    ensures i <= |s|
    ensures i < |s| ==> s[i] == c
    ensures c !in s[..i]
    ensures i == |s| <==> c !in s
  {
    if s == [] then 0
    else if s[0] == c then 0
    else
      var j := IndexOf(s[1..], c);
      assert s[..j + 1] == [s[0]] + s[1..][..j];
      j + 1
  }

  /** `str::split_once(c)`: the text before the first `c` and the text after it. */
  function SplitOnce(s: string, c: char): (r: Option<(string, string)>)
    ensures r.None? <==> c !in s
    ensures r.Some? ==> s == r.value.0 + [c] + r.value.1 && c !in r.value.0
  {
    var i := IndexOf(s, c);
    if i == |s| then None
    else
      assert s == s[..i] + [c] + s[i + 1..];
      Some((s[..i], s[i + 1..]))
  }

  /** `str::split(c)` collected: the pieces between the occurrences of `c`,
      always at least one, the first being the text before the first `c`. */
  function Split(s: string, c: char): (parts: seq<string>)
    ensures |parts| >= 1
    ensures parts[0] == s[..IndexOf(s, c)]
    ensures forall i :: 0 <= i < |parts| ==> c !in parts[i]
    decreases |s|
  {
    var i := IndexOf(s, c);
    if i == |s| then [s] else [s[..i]] + Split(s[i + 1..], c)
  }

  /** `[String]::join(sep)`: the parts with `sep` between neighbours. */
  function Join(parts: seq<string>, sep: string): (r: string)
    ensures |parts| == 1 ==> r == parts[0]
    ensures |parts| >= 1 ==> |parts[0]| <= |r| && r[..|parts[0]|] == parts[0]
  {
    if |parts| == 0 then []
    else if |parts| == 1 then parts[0]
    else parts[0] + sep + Join(parts[1..], sep)
  }

  /** A space before a trimmed string is trimmed away. */
  lemma TrimLeadingSpace(s: string)
    requires IsTrimmed(s)
    ensures Trim(" " + s) == s
  {
    assert (" " + s)[1..] == s;
    if s == [] {
      assert TrimStart(" " + s) == [];
    } else {
      assert TrimStart(" " + s) == TrimStart(s) == s;
    }
  }

  /** A string of whitespace only (the empty string included). */
  predicate IsBlank(s: string) {
    forall k :: 0 <= k < |s| ==> IsWhitespace(s[k])
  }

  /** Whitespace on either side of a trimmed non-empty string is trimmed away. */
  lemma TrimPad(s: string, pre: string, k: string, post: string)
    requires s == pre + k + post
    requires k != [] && IsTrimmed(k) && IsBlank(pre) && IsBlank(post)
    ensures Trim(s) == k
  {
    assert s == pre + (k + post);
    TrimStartPad(pre, k + post);
    TrimEndPad(k, post);
  }

  lemma {:induction false} TrimStartPad(pre: string, x: string)
    requires IsBlank(pre) && x != [] && !IsWhitespace(x[0])
    ensures TrimStart(pre + x) == x
    decreases |pre|
  {
    if pre == [] {
      assert pre + x == x;
    } else {
      assert (pre + x)[0] == pre[0] && (pre + x)[1..] == pre[1..] + x;
      TrimStartPad(pre[1..], x);
    }
  }

  lemma {:induction false} TrimEndPad(x: string, post: string)
    requires IsBlank(post) && x != [] && !IsWhitespace(x[|x| - 1])
    ensures TrimEnd(x + post) == x
    decreases |post|
  {
    if post == [] {
      assert x + post == x;
    } else {
      var y := x + post;
      assert y[|y| - 1] == post[|post| - 1];
      assert y[..|y| - 1] == x + post[..|post| - 1];
      TrimEndPad(x, post[..|post| - 1]);
    }
  }

  /** A space after a trimmed string is trimmed away. */
  lemma TrimTrailingSpace(s: string)
    requires IsTrimmed(s)
    ensures Trim(s + " ") == s
  {
    assert (s + " ")[..|s|] == s;
    if s == [] {
      assert TrimStart(s + " ") == [];
    } else {
      assert TrimStart(s + " ") == s + " ";
      assert TrimEnd(s + " ") == TrimEnd(s) == s;
    }
  }

  /** The first `c` sits right after a prefix free of `c`. */
  lemma IndexOfAt(a: string, c: char, b: string)
    requires c !in a
    ensures IndexOf(a + [c] + b, c) == |a|
  {
    assert (a + [c] + b)[|a|] == c;
  }

  /** Splitting at a leading piece free of `c`. */
  lemma SplitAt(a: string, c: char, b: string)
    requires c !in a
    ensures Split(a + [c] + b, c) == [a] + Split(b, c)
  {
    IndexOfAt(a, c, b);
    var s := a + [c] + b;
    assert s[..|a|] == a && s[|a| + 1..] == b;
  }

  /** A non-empty sequence is its head followed by its tail. */
  lemma HeadTail<T>(s: seq<T>)
    requires s != []
    ensures s == [s[0]] + s[1..]
  {
  }

  /** The head and the tail of a concatenation with a non-empty front. */
  lemma ConcatTail<T>(a: seq<T>, b: seq<T>)
    requires a != []
    ensures (a + b)[0] == a[0] && (a + b)[1..] == a[1..] + b
  {
  }

  lemma Associative<T>(a: seq<T>, b: seq<T>, c: seq<T>)
    ensures a + (b + c) == (a + b) + c
  {
  }

  /** The pieces of a split at the first `c`. */
  lemma SplitFirst(s: string, c: char)
    requires c in s
    ensures var i := IndexOf(s, c);
      && s == s[..i] + [c] + s[i + 1..]
      && Split(s, c) == [s[..i]] + Split(s[i + 1..], c)
  {
    var i := IndexOf(s, c);
    assert s == s[..i] + [c] + s[i + 1..];
  }

  /** Two separators between three pieces free of it give those three pieces. */
  lemma SplitThree(s: string, a: string, b: string, d: string, c: char)
    requires s == a + [c] + b + [c] + d
    requires c !in a && c !in b && c !in d
    ensures Split(s, c) == [a, b, d]
  {
    var rest := b + [c] + d;
    Associative(a + [c], b, [c]);
    Associative(a + [c], b + [c], d);
    assert s == a + [c] + rest;
    SplitAt(a, c, rest);
    SplitAt(b, c, d);
    SplitWithout(d, c);
  }

  /** A string free of `c` is a single piece. */
  lemma SplitWithout(s: string, c: char)
    requires c !in s
    ensures Split(s, c) == [s]
  {
    assert s[..|s|] == s;
  }

  /** Joining the pieces of a split with the separator gives back the input. */
  lemma {:induction false} JoinSplit(s: string, c: char)
    ensures Join(Split(s, c), [c]) == s
    decreases |s|
  {
    var i := IndexOf(s, c);
    if i < |s| {
      var rest := s[i + 1..];
      var parts := Split(s, c);
      SplitFirst(s, c);
      assert parts[0] == s[..i] && parts[1..] == Split(rest, c) by {
        ConcatTail([s[..i]], Split(rest, c));
      }
      calc {
        Join(parts, [c]);
        parts[0] + [c] + Join(parts[1..], [c]);
        s[..i] + [c] + Join(Split(rest, c), [c]);
        { JoinSplit(rest, c); }
        s[..i] + [c] + rest;
        s;
      }
    }
  }

  /** Splitting a join of pieces free of the separator gives back the pieces. */
  lemma {:induction false} SplitJoin(parts: seq<string>, c: char)
    requires |parts| >= 1
    requires forall i :: 0 <= i < |parts| ==> c !in parts[i]
    ensures Split(Join(parts, [c]), c) == parts
  {
    if |parts| == 1 {
      assert IndexOf(parts[0], c) == |parts[0]|;
      assert parts[0][..|parts[0]|] == parts[0];
    } else {
      SplitJoin(parts[1..], c);
      SplitAt(parts[0], c, Join(parts[1..], [c]));
      HeadTail(parts);
    }
  }
}
