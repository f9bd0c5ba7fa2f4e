/** The few JavaScript string operations the transcript pipeline relies on,
    written out on `seq<char>`: `trim`, `split` on one character, `join`,
    `startsWith`, `endsWith` and the `filter(Boolean)` idiom. */
module JsString {

  /** The characters `String.prototype.trim` removes: the WhiteSpace set
      (TAB, VT, FF, SP, NBSP, ZWNBSP and the other Zs characters) and the
      LineTerminator set (LF, CR, LS, PS) of ECMAScript. */
  predicate IsWhitespace(c: char)
  {
    || c == '\t' || c == '\U{B}' || c == '\U{C}' || c == ' '
    || c == '\U{A0}' || c == '\U{FEFF}' || c == '\U{1680}'
    || ('\U{2000}' <= c <= '\U{200A}')
    || c == '\U{202F}' || c == '\U{205F}' || c == '\U{3000}'
    || c == '\n' || c == '\r' || c == '\U{2028}' || c == '\U{2029}'
  }

  predicate AllWhitespace(s: string)
  {
    forall i :: 0 <= i < |s| ==> IsWhitespace(s[i])
  }

  /** Neither end of `s` is a whitespace character (vacuously so for ""). */
  predicate Trimmed(s: string)
  {
    s == [] || (!IsWhitespace(s[0]) && !IsWhitespace(s[|s| - 1]))
  }

  /** Number of whitespace characters at the start of `s`. */
  function LeadingWhitespace(s: string): (k: nat)
    ensures k <= |s|
    ensures AllWhitespace(s[..k])
    ensures k < |s| ==> !IsWhitespace(s[k])
  {
    if s == [] || !IsWhitespace(s[0]) then 0
    else 1 + LeadingWhitespace(s[1..])
  }

  /** Number of whitespace characters at the end of `s`. */
  function TrailingWhitespace(s: string): (k: nat)
    ensures k <= |s|
    ensures AllWhitespace(s[|s| - k..])
    ensures k < |s| ==> !IsWhitespace(s[|s| - 1 - k])
  {
    if s == [] || !IsWhitespace(s[|s| - 1]) then 0
    else 1 + TrailingWhitespace(s[..|s| - 1])
  }

  /** `s.trim()`: `s` with its leading and trailing whitespace removed. */
  function Trim(s: string): (r: string)
    ensures |r| <= |s|
    ensures Trimmed(r)
    ensures r == [] <==> AllWhitespace(s)
    ensures exists pre, post :: s == pre + r + post && AllWhitespace(pre) && AllWhitespace(post)
  {
    var a := LeadingWhitespace(s);
    var t := s[a..];
    var b := TrailingWhitespace(t);
    TrimParts(s, a, b);
    t[..|t| - b]
  }

  /** Cutting `a` leading and `b` trailing whitespace characters, where the
      characters just inside the cuts are not whitespace, trims `s`. */
  lemma TrimParts(s: string, a: nat, b: nat)
    requires a <= |s| && AllWhitespace(s[..a]) && (a < |s| ==> !IsWhitespace(s[a]))
    requires b <= |s| - a && AllWhitespace(s[a..][|s| - a - b..])
    requires b < |s| - a ==> !IsWhitespace(s[a..][|s| - a - 1 - b])
    ensures var t := s[a..]; var r := t[..|t| - b];
      s == s[..a] + r + t[|t| - b..] && Trimmed(r) && (r == [] <==> AllWhitespace(s))
  {
    var t := s[a..];
    var r := t[..|t| - b];
    assert s == s[..a] + r + t[|t| - b..];
    assert forall i :: |t| - b <= i < |t| ==> IsWhitespace(t[i]) by {
      forall i | |t| - b <= i < |t| ensures IsWhitespace(t[i]) {
        assert t[|t| - b..][i - (|t| - b)] == t[i];
      }
    }
    if a < |s| {
      assert t[0] == s[a];
      assert r[0] == s[a];
      assert r[|r| - 1] == t[|t| - 1 - b];
      assert !IsWhitespace(s[a]);
    } else {
      assert s[..a] == s;
    }
  }

  /** Trim is exactly "remove whitespace padding": padding a trimmed string
      with whitespace on both sides and trimming gives it back. */
  lemma {:induction false} TrimPadded(pre: string, core: string, post: string)
    requires AllWhitespace(pre) && AllWhitespace(post) && Trimmed(core)
    ensures Trim(pre + core + post) == core
  {
    var s := pre + core + post;
    if core == [] {
      assert AllWhitespace(s) by {
        forall i | 0 <= i < |s| ensures IsWhitespace(s[i]) {
          if i < |pre| { assert s[i] == pre[i]; } else { assert s[i] == post[i - |pre|]; }
        }
      }
    } else {
      LeadingWhitespaceOf(pre, core + post);
      assert s == pre + (core + post);
      var t := s[|pre|..];
      assert t == core + post;
      TrailingWhitespaceOf(core, post);
    }
  }

  lemma {:induction false} LeadingWhitespaceOf(pre: string, rest: string)
    requires AllWhitespace(pre) && rest != [] && !IsWhitespace(rest[0])
    ensures LeadingWhitespace(pre + rest) == |pre|
  {
    if pre != [] {
      assert (pre + rest)[1..] == pre[1..] + rest;
      LeadingWhitespaceOf(pre[1..], rest);
    }
  }

  lemma {:induction false} TrailingWhitespaceOf(rest: string, post: string)
    requires AllWhitespace(post) && rest != [] && !IsWhitespace(rest[|rest| - 1])
    ensures TrailingWhitespace(rest + post) == |post|
  {
    if post != [] {
      assert (rest + post)[..|rest + post| - 1] == rest + post[..|post| - 1];
      TrailingWhitespaceOf(rest, post[..|post| - 1]);
    }
  }

  /** A string with no whitespace at either end is left alone by Trim. */
  lemma TrimOfTrimmed(s: string)
    requires Trimmed(s)
    ensures Trim(s) == s
  {
    TrimPadded([], s, []);
    assert [] + s + [] == s;
  }

  /** `s.split(sep)` for a one-character separator: the pieces between the
      occurrences of `sep`; always at least one piece. */
  function Split(s: string, sep: char): (r: seq<string>)
    ensures |r| >= 1
  {
    if s == [] then [[]]
    else
      var rest := Split(s[1..], sep);
      if s[0] == sep then [[]] + rest
      else [[s[0]] + rest[0]] + rest[1..]
  }

  /** No piece of a split contains the separator. */
  lemma {:induction false} SplitPiecesFree(s: string, sep: char)
    ensures forall i :: 0 <= i < |Split(s, sep)| ==> sep !in Split(s, sep)[i]
  {
    if s != [] {
      SplitPiecesFree(s[1..], sep);
    }
  }

  /** `xs.join(sep)` for a one-character separator. */
  function Join(xs: seq<string>, sep: char): (r: string)
  {
    if |xs| == 0 then []
    else if |xs| == 1 then xs[0]
    else xs[0] + [sep] + Join(xs[1..], sep)
  }

  /** Joining the pieces of a split restores the string. */
  lemma {:induction false} JoinSplit(s: string, sep: char)
    ensures Join(Split(s, sep), sep) == s
  {
    if s != [] {
      JoinSplit(s[1..], sep);
      var rest := Split(s[1..], sep);
      if s[0] != sep {
        if |rest| > 1 {
          assert rest == [rest[0]] + rest[1..];
          assert Join(rest, sep) == rest[0] + [sep] + Join(rest[1..], sep);
          assert ([[s[0]] + rest[0]] + rest[1..])[1..] == rest[1..];
        }
      } else {
        assert ([[]] + rest)[1..] == rest;
      }
    }
  }

  /** Splitting a join of separator-free pieces gives the pieces back. */
  lemma {:induction false} SplitJoin(xs: seq<string>, sep: char)
    requires |xs| >= 1
    requires forall i :: 0 <= i < |xs| ==> sep !in xs[i]
    ensures Split(Join(xs, sep), sep) == xs
  {
    if |xs| == 1 {
      SplitPiece(xs[0], sep);
    } else {
      SplitJoin(xs[1..], sep);
      SplitConcat(xs[0], Join(xs[1..], sep), sep);
      SplitPiece(xs[0], sep);
      assert xs == [xs[0]] + xs[1..];
    }
  }

  /** A separator-free string splits into itself alone. */
  lemma {:induction false} SplitPiece(s: string, sep: char)
    requires sep !in s
    ensures Split(s, sep) == [s]
  {
    if s != [] {
      SplitPiece(s[1..], sep);
      assert [s[0]] + s[1..] == s;
    }
  }

  /** Split of a string with a known first character. */
  function SplitConsOf(c: char, pieces: seq<string>, sep: char): seq<string>
    requires |pieces| >= 1
  {
    if c == sep then [[]] + pieces else [[c] + pieces[0]] + pieces[1..]
  }

  lemma SplitCons(c: char, t: string, sep: char)
    ensures Split([c] + t, sep) == SplitConsOf(c, Split(t, sep), sep)
  {
    assert ([c] + t)[1..] == t;
  }

  /** Putting a character in front only touches the first piece. */
  lemma SplitConsAppend(c: char, left: seq<string>, right: seq<string>, sep: char)
    requires |left| >= 1
    ensures SplitConsOf(c, left + right, sep) == SplitConsOf(c, left, sep) + right
  {
    if c != sep {
      assert (left + right)[0] == left[0];
      assert (left + right)[1..] == left[1..] + right;
    }
  }

  /** Splitting at a separator splits the two sides independently. */
  lemma {:induction false} SplitConcat(a: string, b: string, sep: char)
    ensures Split(a + [sep] + b, sep) == Split(a, sep) + Split(b, sep)
  {
    if a == [] {
      assert a + [sep] + b == [sep] + b;
      SplitCons(sep, b, sep);
    } else {
      var t := a[1..] + [sep] + b;
      assert a + [sep] + b == [a[0]] + t;
      assert a == [a[0]] + a[1..];
      SplitConcat(a[1..], b, sep);
      SplitCons(a[0], t, sep);
      SplitCons(a[0], a[1..], sep);
      SplitConsAppend(a[0], Split(a[1..], sep), Split(b, sep), sep);
    }
  }

  /** `xs.filter(Boolean)` on strings: drop the empty ones, keep the order. */
  function NonEmpty(xs: seq<string>): (r: seq<string>)
    ensures |r| <= |xs|
    ensures forall i :: 0 <= i < |r| ==> r[i] != []
  {
    if xs == [] then []
    else if xs[0] == [] then NonEmpty(xs[1..])
    else [xs[0]] + NonEmpty(xs[1..])
  }

  /** `s.length`: the number of UTF-16 code units, where a character
      outside the Basic Multilingual Plane takes two (a surrogate pair). */
  function Utf16Length(s: string): (n: nat)
    ensures |s| <= n <= 2 * |s|
    ensures (forall i :: 0 <= i < |s| ==> s[i] < '\U{10000}') ==> n == |s|
    ensures (forall i :: 0 <= i < |s| ==> s[i] >= '\U{10000}') ==> n == 2 * |s|
  {
    if s == [] then 0
    else (if s[0] >= '\U{10000}' then 2 else 1) + Utf16Length(s[1..])
  }

  lemma {:induction false} Utf16LengthConcat(a: string, b: string)
    ensures Utf16Length(a + b) == Utf16Length(a) + Utf16Length(b)
  {
    if a != [] {
      assert (a + b)[0] == a[0];
      assert (a + b)[1..] == a[1..] + b;
      Utf16LengthConcat(a[1..], b);
    } else {
      assert a + b == b;
    }
  }

  predicate StartsWith(s: string, prefix: string)
  {
    |prefix| <= |s| && s[..|prefix|] == prefix
  }

  predicate EndsWith(s: string, suffix: string)
  {
    |suffix| <= |s| && s[|s| - |suffix|..] == suffix
  }

  /** `s.replace(/^\/+/, "")`: drop every leading slash. */
  function StripLeadingSlashes(s: string): (r: string)
    ensures r == [] || r[0] != '/'
    ensures |r| <= |s| && r == s[|s| - |r|..]
    ensures forall i :: 0 <= i < |s| - |r| ==> s[i] == '/'
  {
    if s != [] && s[0] == '/' then StripLeadingSlashes(s[1..]) else s
  }

  /** `n` slashes. */
  function Slashes(n: nat): (r: string)
    ensures |r| == n && forall i :: 0 <= i < n ==> r[i] == '/'
  {
    if n == 0 then [] else ['/'] + Slashes(n - 1)
  }

  /** StripLeadingSlashes removes exactly the run of slashes in front. */
  lemma {:induction false} StripSlashesPrefix(pre: string, rest: string)
    requires forall i :: 0 <= i < |pre| ==> pre[i] == '/'
    requires rest == [] || rest[0] != '/'
    ensures StripLeadingSlashes(pre + rest) == rest
  {
    if pre != [] {
      assert (pre + rest)[0] == pre[0];
      assert (pre + rest)[1..] == pre[1..] + rest;
      StripSlashesPrefix(pre[1..], rest);
    } else {
      assert pre + rest == rest;
    }
  }

  /** The first piece of a split is the longest separator-free prefix. */
  lemma {:induction false} SplitFirst(s: string, sep: char)
    ensures var f := Split(s, sep)[0];
      |f| <= |s| && s[..|f|] == f && (|f| == |s| || s[|f|] == sep) && sep !in f
  {
    if s != [] && s[0] != sep {
      var t := s[1..];
      SplitFirst(t, sep);
      assert s == [s[0]] + t;
      SplitCons(s[0], t, sep);
      var g := Split(t, sep)[0];
      assert Split(s, sep)[0] == [s[0]] + g;
      assert s[..|g| + 1] == [s[0]] + t[..|g|];
    }
  }

  /** A separator-free prefix, followed by nothing or by the separator, is
      the first piece of the split. */
  lemma SplitFirstOf(first: string, rest: string, sep: char)
    requires sep !in first
    requires rest == [] || rest[0] == sep
    ensures Split(first + rest, sep)[0] == first
  {
    SplitPiece(first, sep);
    if rest == [] {
      assert first + rest == first;
    } else {
      assert first + rest == first + [sep] + rest[1..];
      SplitConcat(first, rest[1..], sep);
    }
  }
}
