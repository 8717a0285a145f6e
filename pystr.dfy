/**
 * The Python `str` operations the modelled code relies on: `isspace`,
 * `strip()`, `split(sep)`, `split()`, `lower()` (as far as the comparisons
 * made here need it) and `replace(old, new)`.
 */
module PyStr {

  /** Python's `str.isspace` on one character: the characters Python treats as whitespace. */
  predicate IsSpace(c: char) {
    || c == ' '
    || ('\t' <= c <= '\r')
    || ('\U{1C}' <= c <= '\U{1F}')
    || c == '\U{85}'
    || c == '\U{A0}'
    || c == '\U{1680}'
    || ('\U{2000}' <= c <= '\U{200A}')
    || c == '\U{2028}'
    || c == '\U{2029}'
    || c == '\U{202F}'
    || c == '\U{205F}'
    || c == '\U{3000}'
  }

  predicate NoSpace(s: string) {
    forall i :: 0 <= i < |s| ==> !IsSpace(s[i])
  }

  /** `s.lstrip()`: `s` without its leading whitespace. */
  function TrimLeft(s: string): (r: string)
    ensures |r| <= |s| && r == s[|s| - |r|..]
    ensures forall i :: 0 <= i < |s| - |r| ==> IsSpace(s[i])
    ensures r == [] || !IsSpace(r[0])
    decreases |s|
  {
    if s != [] && IsSpace(s[0]) then TrimLeft(s[1..]) else s
  }

  /** `s.rstrip()`: `s` without its trailing whitespace. */
  function TrimRight(s: string): (r: string)
    ensures |r| <= |s| && r == s[..|r|]
    ensures forall i :: |r| <= i < |s| ==> IsSpace(s[i])
    ensures r == [] || !IsSpace(r[|r| - 1])
    decreases |s|
  {
    if s != [] && IsSpace(s[|s| - 1]) then TrimRight(s[..|s| - 1]) else s
  }

  /**
   * `s.strip()`: the slice of `s` that remains once the leading and the
   * trailing whitespace are dropped; it neither starts nor ends with whitespace.
   */
  function Strip(s: string): (r: string)
    ensures Leading(s) + |r| <= |s|
    ensures r == s[Leading(s)..Leading(s) + |r|]
    ensures forall i :: 0 <= i < Leading(s) ==> IsSpace(s[i])
    ensures forall i :: Leading(s) + |r| <= i < |s| ==> IsSpace(s[i])
    ensures r == [] || (!IsSpace(r[0]) && !IsSpace(r[|r| - 1]))
  {
    var t := TrimLeft(s);
    var r := TrimRight(t);
    var a := Leading(s);
    assert t == s[a..];
    assert r == s[a..][..|r|];
    r
  }

  /** `strip()` keeps only characters of its argument. */
  lemma StripKeeps(s: string, c: char)
    requires c !in s
    ensures c !in Strip(s)
  {
  }

  /** A string of whitespace strips to the empty string. */
  lemma StripBlank(s: string)
    requires forall i :: 0 <= i < |s| ==> IsSpace(s[i])
    ensures Strip(s) == []
  {
  }

  /** Stripping twice is stripping once. */
  lemma StripIdempotent(s: string)
    ensures Strip(Strip(s)) == Strip(s)
  {
    var r := Strip(s);
    if r != [] {
      assert TrimLeft(r) == r;
      assert TrimRight(r) == r;
    }
  }

  /** The number of whitespace characters `strip()` drops at the front of `s`. */
  function Leading(s: string): (n: nat)
    ensures n <= |s|
  {
    |s| - |TrimLeft(s)|
  }

  /** The number of occurrences of `c` in `s`. */
  function Count(s: string, c: char): nat {
    if s == [] then 0 else (if s[0] == c then 1 else 0) + Count(s[1..], c)
  }

  /**
   * `s.split(sep)` for a one-character separator: the pieces between
   * consecutive separators, empty pieces included, so there is always one
   * piece more than there are separators and no piece holds the separator.
   */
  function SplitOn(s: string, sep: char): (r: seq<string>)
    ensures |r| == Count(s, sep) + 1
    ensures forall i :: 0 <= i < |r| ==> sep !in r[i]
    decreases |s|
  {
    if s == [] then [[]]
    else
      var rest := SplitOn(s[1..], sep);
      if s[0] == sep then [[]] + rest else [[s[0]] + rest[0]] + rest[1..]
  }

  /** `sep.join(parts)` for a one-character separator. */
  function Join(parts: seq<string>, sep: char): string
    decreases |parts|
  {
    if parts == [] then []
    else if |parts| == 1 then parts[0]
    else parts[0] + [sep] + Join(parts[1..], sep)
  }

  lemma {:induction false} JoinCons(head: string, c: char, parts: seq<string>, sep: char)
    requires |parts| >= 1 && c != sep
    ensures Join([[c] + head] + parts[1..], sep) == [c] + Join([head] + parts[1..], sep)
  {
    var left := [[c] + head] + parts[1..];
    var right := [head] + parts[1..];
    if |parts| == 1 {
      assert left == [[c] + head] && right == [head];
    } else {
      assert left[1..] == right[1..] == parts[1..];
    }
  }

  /** Splitting on `sep` and joining with `sep` gives the string back. */
  lemma {:induction false} JoinSplitOn(s: string, sep: char)
    ensures Join(SplitOn(s, sep), sep) == s
    decreases |s|
  {
    if s != [] {
      var rest := SplitOn(s[1..], sep);
      JoinSplitOn(s[1..], sep);
      if s[0] == sep {
        assert SplitOn(s, sep) == [[]] + rest;
        assert ([[]] + rest)[1..] == rest;
      } else {
        JoinCons(rest[0], s[0], rest, sep);
        assert [rest[0]] + rest[1..] == rest;
      }
    }
  }

  lemma {:induction false} SplitOnWithout(a: string, sep: char)
    requires sep !in a
    ensures SplitOn(a, sep) == [a]
    decreases |a|
  {
    if a != [] {
      SplitOnWithout(a[1..], sep);
      assert [a[0]] + a[1..] == a;
    }
  }

  lemma {:induction false} SplitOnPiece(a: string, sep: char, b: string)
    requires sep !in a
    ensures SplitOn(a + [sep] + b, sep) == [a] + SplitOn(b, sep)
    decreases |a|
  {
    var s := a + [sep] + b;
    if a == [] {
      assert s == [sep] + b && s[1..] == b;
    } else {
      assert s[1..] == a[1..] + [sep] + b;
      SplitOnPiece(a[1..], sep, b);
      assert [a[0]] + a[1..] == a;
    }
  }

  /** Joining pieces free of `sep` with `sep` and splitting on `sep` gives the pieces back. */
  lemma {:induction false} SplitOnJoin(parts: seq<string>, sep: char)
    requires |parts| >= 1
    requires forall i :: 0 <= i < |parts| ==> sep !in parts[i]
    ensures SplitOn(Join(parts, sep), sep) == parts
    decreases |parts|
  {
    if |parts| == 1 {
      SplitOnWithout(parts[0], sep);
    } else {
      SplitOnJoin(parts[1..], sep);
      SplitOnPiece(parts[0], sep, Join(parts[1..], sep));
      assert [parts[0]] + parts[1..] == parts;
    }
  }

  /** The length of the maximal prefix of `s` that holds no whitespace. */
  function WordLength(s: string): (n: nat)
    ensures n <= |s| && NoSpace(s[..n])
    ensures n == |s| || IsSpace(s[n])
    decreases |s|
  {
    if s == [] || IsSpace(s[0]) then 0 else 1 + WordLength(s[1..])
  }

  /**
   * `s.split()` with no separator: the maximal runs of non-whitespace
   * characters, in order; leading, trailing and repeated whitespace yields
   * no empty piece.
   */
  function Words(s: string): (r: seq<string>)
    ensures forall i :: 0 <= i < |r| ==> r[i] != [] && NoSpace(r[i])
    decreases |s|
  {
    var t := TrimLeft(s);
    if t == [] then []
    else
      var n := WordLength(t);
      assert n > 0 by { assert !IsSpace(t[0]); }
      [t[..n]] + Words(t[n..])
  }

  /** The characters of `s` that are not whitespace, in order. */
  function NonSpace(s: string): string {
    if s == [] then [] else (if IsSpace(s[0]) then [] else [s[0]]) + NonSpace(s[1..])
  }

  function Concat(parts: seq<string>): string {
    if parts == [] then [] else parts[0] + Concat(parts[1..])
  }

  lemma {:induction false} NonSpaceAppend(a: string, b: string)
    ensures NonSpace(a + b) == NonSpace(a) + NonSpace(b)
    decreases |a|
  {
    if a != [] {
      assert (a + b)[1..] == a[1..] + b;
      NonSpaceAppend(a[1..], b);
    } else {
      assert a + b == b;
    }
  }

  lemma {:induction false} NonSpaceOfSpaces(s: string)
    requires forall i :: 0 <= i < |s| ==> IsSpace(s[i])
    ensures NonSpace(s) == []
    decreases |s|
  {
    if s != [] { NonSpaceOfSpaces(s[1..]); }
  }

  lemma {:induction false} NonSpaceOfWord(s: string)
    requires NoSpace(s)
    ensures NonSpace(s) == s
    decreases |s|
  {
    if s != [] { NonSpaceOfWord(s[1..]); }
  }

  lemma NonSpaceTrimLeft(s: string)
    ensures NonSpace(s) == NonSpace(TrimLeft(s))
  {
    var t := TrimLeft(s);
    var lead := s[..|s| - |t|];
    assert s == lead + t;
    NonSpaceAppend(lead, t);
    NonSpaceOfSpaces(lead);
  }

  lemma ConcatCons(w: string, ws: seq<string>)
    ensures Concat([w] + ws) == w + Concat(ws)
  {
    assert ([w] + ws)[1..] == ws;
  }

  /** The first word of `s` and what follows it. */
  lemma WordsUnfold(s: string) returns (w: string, u: string)
    requires TrimLeft(s) != []
    ensures NoSpace(w) && TrimLeft(s) == w + u && |u| < |s|
    ensures Words(s) == [w] + Words(u)
  {
    var t := TrimLeft(s);
    var n := WordLength(t);
    assert n > 0 by { assert !IsSpace(t[0]); }
    w, u := t[..n], t[n..];
    assert t == w + u;
  }

  lemma CoverStep(w: string, u: string, ws: seq<string>)
    requires NoSpace(w) && Concat(ws) == NonSpace(u)
    ensures Concat([w] + ws) == NonSpace(w + u)
  {
    NonSpaceAppend(w, u);
    NonSpaceOfWord(w);
    ConcatCons(w, ws);
  }

  /** The words of `s` are exactly its non-whitespace characters, cut where whitespace stood. */
  lemma {:induction false} WordsCoverNonSpace(s: string)
    ensures Concat(Words(s)) == NonSpace(s)
    decreases |s|
  {
    NonSpaceTrimLeft(s);
    if TrimLeft(s) != [] {
      var w, u := WordsUnfold(s);
      WordsCoverNonSpace(u);
      CoverStep(w, u, Words(u));
    }
  }

  lemma {:induction false} WordLengthOfWord(w: string, rest: string)
    requires NoSpace(w)
    requires rest == [] || IsSpace(rest[0])
    ensures WordLength(w + rest) == |w|
    decreases |w|
  {
    if w == [] {
      assert w + rest == rest;
    } else {
      assert (w + rest)[1..] == w[1..] + rest;
      WordLengthOfWord(w[1..], rest);
    }
  }

  /** `split()` of a word followed by whitespace and more text: that word, then the words of the rest. */
  lemma {:induction false} WordsOfWordThen(w: string, spaces: string, rest: string)
    requires w != [] && NoSpace(w)
    requires spaces != [] && forall i :: 0 <= i < |spaces| ==> IsSpace(spaces[i])
    ensures Words(w + spaces + rest) == [w] + Words(spaces + rest)
  {
    var s := w + spaces + rest;
    assert s[0] == w[0];
    assert TrimLeft(s) == s;
    assert s == w + (spaces + rest);
    WordLengthOfWord(w, spaces + rest);
    assert s[..|w|] == w && s[|w|..] == spaces + rest;
  }

  lemma {:induction false} WordsOfSpaces(spaces: string, rest: string)
    requires forall i :: 0 <= i < |spaces| ==> IsSpace(spaces[i])
    ensures Words(spaces + rest) == Words(rest)
    decreases |spaces|
  {
    if spaces != [] {
      assert (spaces + rest)[1..] == spaces[1..] + rest;
      WordsOfSpaces(spaces[1..], rest);
      assert TrimLeft(spaces + rest) == TrimLeft(spaces[1..] + rest);
    } else {
      assert spaces + rest == rest;
    }
  }

  /** `split()` of one word surrounded by optional whitespace is that word. */
  lemma WordsOfOneWord(w: string)
    requires w != [] && NoSpace(w)
    ensures Words(w) == [w]
  {
    assert TrimLeft(w) == w by { assert !IsSpace(w[0]); }
    WordLengthOfWord(w, []);
    assert w + [] == w;
    assert w[|w|..] == [];
  }

  /** ASCII lower-casing of one character. */
  function LowerChar(c: char): char {
    if 'A' <= c <= 'Z' then (c as int + 32) as char else c
  }

  /** Lower-casing, character by character, of the ASCII capitals in `s`. */
  function AsciiLower(s: string): (r: string)
    ensures |r| == |s|
    ensures forall i :: 0 <= i < |s| ==> r[i] == LowerChar(s[i])
  {
    seq(|s|, i requires 0 <= i < |s| => LowerChar(s[i]))
  }

  /** `p` occurs in `s` at offset `i`. */
  predicate OccursAt(s: string, p: string, i: nat) {
    i <= |s| && p <= s[i..]
  }

  /**
   * `s.replace(p, q)`: scanning left to right, each occurrence of `p` that
   * does not overlap an earlier replaced one becomes `q`.
   */
  function Replace(s: string, p: string, q: string): string
    requires p != []
    decreases |s|
  {
    if s == [] then []
    else if p <= s then q + Replace(s[|p|..], p, q)
    else [s[0]] + Replace(s[1..], p, q)
  }

  /**
   * The first occurrence of `p` is rewritten: when `p` starts nowhere inside
   * `a`, `replace` keeps `a`, turns the `p` after it into `q` and goes on
   * with the rest.
   */
  lemma {:induction false} ReplaceSplice(a: string, p: string, q: string, b: string)
    requires p != []
    requires forall i :: 0 <= i < |a| ==> !OccursAt(a + p + b, p, i)
    ensures Replace(a + p + b, p, q) == a + q + Replace(b, p, q)
    decreases |a|
  {
    var s := a + p + b;
    if a == [] {
      assert s == p + b && p <= s && s[|p|..] == b;
    } else {
      assert !OccursAt(s, p, 0);
      assert s[1..] == a[1..] + p + b;
      forall i | 0 <= i < |a[1..]| ensures !OccursAt(a[1..] + p + b, p, i) {
        assert s[1..][i..] == s[i + 1..];
        assert !OccursAt(s, p, i + 1);
      }
      ReplaceSplice(a[1..], p, q, b);
      assert [a[0]] + a[1..] == a;
    }
  }

  /** A string in which `p` does not occur is left unchanged by `replace`. */
  lemma {:induction false} ReplaceAbsent(s: string, p: string, q: string)
    requires p != []
    requires forall i :: 0 <= i <= |s| ==> !OccursAt(s, p, i)
    ensures Replace(s, p, q) == s
    decreases |s|
  {
    if s != [] {
      assert !OccursAt(s, p, 0);
      forall i | 0 <= i <= |s[1..]| ensures !OccursAt(s[1..], p, i) {
        assert s[1..][i..] == s[i + 1..];
        assert !OccursAt(s, p, i + 1);
      }
      ReplaceAbsent(s[1..], p, q);
    }
  }
}
