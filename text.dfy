/**
 * The string primitives the source relies on, with JavaScript's semantics:
 * `String.prototype.split` with a non-empty string separator,
 * `Array.prototype.join`, `String.prototype.trim` and `Array.prototype.reverse`.
 */
module Text {
  import opened Wrappers

  /** JavaScript truthiness of a text that may be `undefined`: set and non-empty. */
  predicate Truthy(s: Option<string>)
  {
    s.Some? && s.value != ""
  }

  /** The characters `trim` removes: ECMAScript WhiteSpace and LineTerminator. */
  predicate IsWhitespace(c: char)
  {
    c == '\t' || c == '\n' || c == '\U{000B}' || c == '\U{000C}' || c == '\r' || c == ' ' ||
    c == '\U{00A0}' || c == '\U{1680}' || ('\U{2000}' <= c <= '\U{200A}') ||
    c == '\U{2028}' || c == '\U{2029}' || c == '\U{202F}' || c == '\U{205F}' ||
    c == '\U{3000}' || c == '\U{FEFF}'
  }

  /** The characters of the regular-expression class `\w` (no Unicode flag). */
  predicate IsWordChar(c: char)
  {
    ('a' <= c <= 'z') || ('A' <= c <= 'Z') || ('0' <= c <= '9') || c == '_'
  }

  /** `parts.join(sep)`: the empty list joins to the empty string. */
  function Join(parts: seq<string>, sep: string): string
  {
    if |parts| == 0 then ""
    else if |parts| == 1 then parts[0]
    else parts[0] + sep + Join(parts[1..], sep)
  }

  /**
   * `s.split(sep)` for a non-empty separator: the text is cut at every occurrence
   * of `sep`, found left to right without overlap. There is always at least one
   * piece.
   */
  function Split(s: string, sep: string): (parts: seq<string>)
    requires |sep| > 0
    ensures |parts| >= 1
    decreases |s|
  {
    if |s| < |sep| then [s]
    else if s[..|sep|] == sep then [""] + Split(s[|sep|..], sep)
    else
      var rest := Split(s[1..], sep);
      [[s[0]] + rest[0]] + rest[1..]
  }

  /** Joining the pieces of a split with the separator gives the text back. */
  lemma {:induction false} JoinSplit(s: string, sep: string)
    requires |sep| > 0
    ensures Join(Split(s, sep), sep) == s
    decreases |s|
  {
    if |s| >= |sep| {
      if s[..|sep|] == sep {
        JoinSplit(s[|sep|..], sep);
        assert s == sep + s[|sep|..];
      } else {
        var rest := Split(s[1..], sep);
        JoinSplit(s[1..], sep);
        var parts := [[s[0]] + rest[0]] + rest[1..];
        assert parts[1..] == rest[1..];
        assert s == [s[0]] + s[1..];
      }
    }
  }

  /** A piece before a separator is cut off exactly when it cannot start an occurrence. */
  lemma {:induction false} SplitCut(x: string, sep: string, rest: string)
    requires |sep| > 0 && sep[0] !in x
    ensures Split(x + sep + rest, sep) == [x] + Split(rest, sep)
    decreases |x|
  {
    var s := x + sep + rest;
    if |x| == 0 {
      assert s[..|sep|] == sep && s[|sep|..] == rest;
    } else {
      assert s[0] == x[0] && s[..|sep|][0] == x[0];
      assert s[1..] == x[1..] + sep + rest;
      SplitCut(x[1..], sep, rest);
      assert [x[0]] + x[1..] == x;
    }
  }

  /** A text that holds no first character of the separator is a single piece. */
  lemma {:induction false} SplitWhole(x: string, sep: string)
    requires |sep| > 0 && sep[0] !in x
    ensures Split(x, sep) == [x]
    decreases |x|
  {
    if |x| >= |sep| {
      assert x[..|sep|][0] == x[0];
      SplitWhole(x[1..], sep);
      assert [x[0]] + x[1..] == x;
    }
  }

  /** Splitting undoes joining when no piece holds the separator's first character. */
  lemma {:induction false} SplitJoin(parts: seq<string>, sep: string)
    requires |sep| > 0 && |parts| >= 1
    requires forall i :: 0 <= i < |parts| ==> sep[0] !in parts[i]
    ensures Split(Join(parts, sep), sep) == parts
    decreases |parts|
  {
    if |parts| == 1 {
      SplitWhole(parts[0], sep);
    } else {
      SplitJoin(parts[1..], sep);
      SplitCut(parts[0], sep, Join(parts[1..], sep));
    }
  }

  /** An occurrence of `sep` starts at position `i` of `s`. */
  predicate OccursAt(s: string, sep: string, i: nat)
  {
    i + |sep| <= |s| && s[i..i + |sep|] == sep
  }

  /** No occurrence of `sep` starts anywhere in `s`. */
  predicate Free(s: string, sep: string)
  {
    forall i: nat :: i <= |s| ==> !OccursAt(s, sep, i)
  }

  /** A text without an occurrence of the separator is a single piece. */
  lemma {:induction false} SplitFree(x: string, sep: string)
    requires |sep| > 0 && Free(x, sep)
    ensures Split(x, sep) == [x]
    decreases |x|
  {
    if |x| >= |sep| {
      assert !OccursAt(x, sep, 0) && x[0..|sep|] == x[..|sep|];
      assert Free(x[1..], sep) by {
        forall i: nat | i <= |x[1..]|
          ensures !OccursAt(x[1..], sep, i)
        {
          assert !OccursAt(x, sep, i + 1);
          if i + |sep| <= |x[1..]| {
            assert x[1..][i..i + |sep|] == x[i + 1..i + 1 + |sep|];
          }
        }
      }
      SplitFree(x[1..], sep);
      assert [x[0]] + x[1..] == x;
    }
  }

  /**
   * Splitting undoes joining when no piece but the last holds the separator's
   * first character and the last holds no occurrence of the separator.
   */
  lemma {:induction false} SplitJoinFree(parts: seq<string>, sep: string)
    requires |sep| > 0 && |parts| >= 1
    requires forall i :: 0 <= i < |parts| - 1 ==> sep[0] !in parts[i]
    requires Free(parts[|parts| - 1], sep)
    ensures Split(Join(parts, sep), sep) == parts
    decreases |parts|
  {
    if |parts| == 1 {
      SplitFree(parts[0], sep);
    } else {
      SplitJoinFree(parts[1..], sep);
      SplitCut(parts[0], sep, Join(parts[1..], sep));
    }
  }

  /** A text holding the (one-character) separator splits into at least two pieces. */
  lemma {:induction false} SplitAtChar(s: string, c: char)
    requires c in s
    ensures |Split(s, [c])| >= 2
    decreases |s|
  {
    if s[0] != c {
      assert s[..1][0] == s[0];
      SplitAtChar(s[1..], c);
    } else {
      assert s[..1] == [c];
    }
  }

  /** The first piece of a split on one character is the text before its first occurrence. */
  lemma {:induction false} FirstPiece(s: string, c: char)
    ensures var head := Split(s, [c])[0];
      head <= s && c !in head && (|head| < |s| ==> s[|head|] == c)
    decreases |s|
  {
    if |s| > 0 {
      if s[..1] == [c] {
      } else {
        assert s[..1][0] == s[0];
        FirstPiece(s[1..], c);
      }
    }
  }

  /** `s.trimStart()`: the longest suffix that does not start with whitespace. */
  function TrimStart(s: string): (r: string)
    ensures |r| <= |s| && r == s[|s| - |r|..]
    ensures forall i :: 0 <= i < |s| - |r| ==> IsWhitespace(s[i])
    ensures |r| > 0 ==> !IsWhitespace(r[0])
  {
    if |s| > 0 && IsWhitespace(s[0]) then TrimStart(s[1..]) else s
  }

  /** `s.trimEnd()`: the longest prefix that does not end with whitespace. */
  function TrimEnd(s: string): (r: string)
    ensures |r| <= |s| && r == s[..|r|]
    ensures forall i :: |r| <= i < |s| ==> IsWhitespace(s[i])
    ensures |r| > 0 ==> !IsWhitespace(r[|r| - 1])
  {
    if |s| > 0 && IsWhitespace(s[|s| - 1]) then TrimEnd(s[..|s| - 1]) else s
  }

  /** `s.trim()`. */
  function Trim(s: string): string
  {
    TrimEnd(TrimStart(s))
  }

  /** A text with no whitespace at either end is its own trim. */
  lemma TrimKeeps(s: string)
    requires |s| > 0 ==> !IsWhitespace(s[0]) && !IsWhitespace(s[|s| - 1])
    ensures Trim(s) == s
  {
  }

  /** Trailing whitespace after a text that ends in a non-blank character is dropped by `trim`. */
  lemma {:induction false} TrimDropsTail(s: string, tail: string)
    requires |s| > 0 && !IsWhitespace(s[0]) && !IsWhitespace(s[|s| - 1])
    requires forall i :: 0 <= i < |tail| ==> IsWhitespace(tail[i])
    ensures Trim(s + tail) == s
    decreases |tail|
  {
    assert TrimStart(s + tail) == s + tail;
    if |tail| > 0 {
      var shorter := s + tail[..|tail| - 1];
      assert (s + tail)[..|s + tail| - 1] == shorter;
      TrimDropsTail(s, tail[..|tail| - 1]);
      assert TrimStart(shorter) == shorter;
    } else {
      assert s + tail == s;
    }
  }

  /** `xs.reverse()`. */
  function Reverse<T>(xs: seq<T>): (r: seq<T>)
    ensures |r| == |xs|
    ensures forall i :: 0 <= i < |xs| ==> r[i] == xs[|xs| - 1 - i]
  {
    if |xs| == 0 then [] else Reverse(xs[1..]) + [xs[0]]
  }
}
