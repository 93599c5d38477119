/** String operations the workflow relies on: Rust's `trim`, `trim_end_matches`,
    `strip_suffix` and `split`, each with a characterisation independent of
    the way it is computed. */
module Text {

  import opened Wrappers

  /** Rust's `char::is_whitespace`: the Unicode White_Space property. */
  predicate IsWhitespace(c: char) {
    || ('\t' <= c <= '\r')
    || c == ' '
    || c == '\U{0085}'
    || c == '\U{00A0}'
    || c == '\U{1680}'
    || ('\U{2000}' <= c <= '\U{200A}')
    || c == '\U{2028}'
    || c == '\U{2029}'
    || c == '\U{202F}'
    || c == '\U{205F}'
    || c == '\U{3000}'
  }

  predicate IsSlash(c: char) {
    c == '/'
  }

  /** Every character of `s` satisfies `p`. */
  predicate All(s: string, p: char -> bool) {
    forall k :: 0 <= k < |s| ==> p(s[k])
  }

  /** Neither the first nor the last character of `s` satisfies `p`. */
  predicate Bare(s: string, p: char -> bool) {
    s == [] || (!p(s[0]) && !p(s[|s| - 1]))
  }

  predicate EndsWith(s: string, suffix: string) {
    |suffix| <= |s| && s[|s| - |suffix|..] == suffix
  }

  // ---------------------------------------------------------------------------
  // Trimming

  /** `trim_start_matches` with a predicate: drops the longest prefix of `p` characters. */
  function TrimStartWhile(s: string, p: char -> bool): (r: string)
    ensures |r| <= |s| && r == s[|s| - |r|..]
    ensures All(s[..|s| - |r|], p)
    ensures r == [] || !p(r[0])
    decreases |s|
  {
    if s != [] && p(s[0]) then TrimStartWhile(s[1..], p) else s
  }

  /** `trim_end_matches` with a predicate: drops the longest suffix of `p` characters. */
  function TrimEndWhile(s: string, p: char -> bool): (r: string)
    ensures |r| <= |s| && r == s[..|r|]
    ensures All(s[|r|..], p)
    ensures r == [] || !p(r[|r| - 1])
    decreases |s|
  {
    if s != [] && p(s[|s| - 1]) then TrimEndWhile(s[..|s| - 1], p) else s
  }

  /** Rust's `str::trim`: removes leading and trailing whitespace. */
  function Trim(s: string): (r: string)
    ensures Bare(r, IsWhitespace)
    ensures |r| <= |s|
    ensures exists i :: Padding(s, r, i)
  {
    var e := TrimEndWhile(s, IsWhitespace);
    var r := TrimStartWhile(e, IsWhitespace);
    assert Padding(s, r, |e| - |r|) by {
      assert s[..|e|] == e;
      assert s[|e| - |r|..|e|] == r;
      assert s[..|e| - |r|] == e[..|e| - |r|];
      assert s[|e|..] == s[|e| - |r| + |r|..];
    }
    r
  }

  /** `s` is `r` surrounded by whitespace, the leading run having length `i`. */
  predicate Padding(s: string, r: string, i: int) {
    && 0 <= i <= |s| - |r|
    && s[i..i + |r|] == r
    && All(s[..i], IsWhitespace)
    && All(s[i + |r|..], IsWhitespace)
  }

  /** Trimming a suffix of `p` characters off `core` recovers `core` whenever
      `core` does not itself end in a `p` character. */
  lemma {:induction false} TrimEndUnique(core: string, tail: string, p: char -> bool)
    requires All(tail, p)
    requires core == [] || !p(core[|core| - 1])
    ensures TrimEndWhile(core + tail, p) == core
    decreases |tail|
  {
    var s := core + tail;
    if tail == [] {
      assert s == core;
    } else {
      assert s[|s| - 1] == tail[|tail| - 1];
      assert s[..|s| - 1] == core + tail[..|tail| - 1];
      TrimEndUnique(core, tail[..|tail| - 1], p);
    }
  }

  lemma {:induction false} TrimStartUnique(lead: string, core: string, p: char -> bool)
    requires All(lead, p)
    requires core == [] || !p(core[0])
    ensures TrimStartWhile(lead + core, p) == core
    decreases |lead|
  {
    var s := lead + core;
    if lead == [] {
      assert s == core;
    } else {
      assert s[0] == lead[0];
      assert s[1..] == lead[1..] + core;
      TrimStartUnique(lead[1..], core, p);
    }
  }

  /** `trim_end_matches` is idempotent. */
  lemma TrimEndIdempotent(s: string, p: char -> bool)
    ensures TrimEndWhile(TrimEndWhile(s, p), p) == TrimEndWhile(s, p)
  {
    var r := TrimEndWhile(s, p);
    assert r + [] == r;
    TrimEndUnique(r, [], p);
  }

  /** Whitespace-padding a string without surrounding whitespace is undone by `Trim`:
      the result of `Trim` is determined by the decomposition alone. */
  lemma TrimUnique(lead: string, core: string, tail: string)
    requires All(lead, IsWhitespace) && All(tail, IsWhitespace)
    requires Bare(core, IsWhitespace)
    ensures Trim(lead + core + tail) == core
  {
    var s := lead + core + tail;
    if core == [] {
      assert s == lead + tail;
      assert All(s, IsWhitespace) by {
        forall k | 0 <= k < |s| ensures IsWhitespace(s[k]) {
          if k < |lead| { assert s[k] == lead[k]; } else { assert s[k] == tail[k - |lead|]; }
        }
      }
      assert [] + s == s;
      TrimEndUnique([], s, IsWhitespace);
    } else {
      assert s == (lead + core) + tail;
      TrimEndUnique(lead + core, tail, IsWhitespace);
      TrimStartUnique(lead, core, IsWhitespace);
    }
  }

  /** Trimming twice changes nothing. */
  lemma TrimIdempotent(s: string)
    ensures Trim(Trim(s)) == Trim(s)
  {
    var r := Trim(s);
    assert [] + r + [] == r;
    TrimUnique([], r, []);
  }

  // ---------------------------------------------------------------------------
  // Suffix stripping

  /** Rust's `str::strip_suffix`. */
  function StripSuffix(s: string, suffix: string): (r: Option<string>)
    ensures r.Some? <==> EndsWith(s, suffix)
    ensures r.Some? ==> r.value + suffix == s
  {
    if EndsWith(s, suffix) then Some(s[..|s| - |suffix|]) else None
  }

  /** Stripping a suffix that was appended gives back the original string. */
  lemma StripSuffixOfConcat(prefix: string, suffix: string)
    ensures StripSuffix(prefix + suffix, suffix) == Some(prefix)
  {
    var s := prefix + suffix;
    assert s[|s| - |suffix|..] == suffix;
    assert s[..|s| - |suffix|] == prefix;
  }

  // ---------------------------------------------------------------------------
  // Splitting on a separator

  /** Rust's `str::split` with a single-character pattern: every separator
      ends a piece, so an empty input or adjacent separators give empty pieces. */
  function Split(s: string, sep: char): (pieces: seq<string>)
    ensures |pieces| >= 1
    ensures forall k :: 0 <= k < |pieces| ==> sep !in pieces[k]
    decreases |s|
  {
    if s == [] then [[]]
    else
      var rest := Split(s[1..], sep);
      if s[0] == sep then [[]] + rest
      else [[s[0]] + rest[0]] + rest[1..]
  }

  /** Concatenates the pieces with `sep` between neighbours. */
  function Join(pieces: seq<string>, sep: char): (s: string)
    decreases |pieces|
  {
    if |pieces| == 0 then []
    else if |pieces| == 1 then pieces[0]
    else pieces[0] + [sep] + Join(pieces[1..], sep)
  }

  /** Number of occurrences of `c` in `s`. */
  function Occurrences(s: string, c: char): (n: nat)
    ensures n <= |s|
    decreases |s|
  {
    if s == [] then 0 else (if s[0] == c then 1 else 0) + Occurrences(s[1..], c)
  }

  /** Joining the pieces of a split reproduces the input. */
  lemma {:induction false} JoinSplit(s: string, sep: char)
    ensures Join(Split(s, sep), sep) == s
    decreases |s|
  {
    if s != [] {
      var rest := Split(s[1..], sep);
      JoinSplit(s[1..], sep);
      if s[0] == sep {
        assert Join([[]] + rest, sep) == [] + [sep] + Join(rest, sep);
      } else {
        var pieces := [[s[0]] + rest[0]] + rest[1..];
        if |rest| == 1 {
          assert Join(rest, sep) == rest[0];
        } else {
          assert Join(rest, sep) == rest[0] + [sep] + Join(rest[1..], sep);
          assert pieces[1..] == rest[1..];
        }
      }
    }
  }

  /** There is one more piece than there are separators. */
  lemma {:induction false} SplitCount(s: string, sep: char)
    ensures |Split(s, sep)| == Occurrences(s, sep) + 1
    decreases |s|
  {
    if s != [] {
      SplitCount(s[1..], sep);
    }
  }

  lemma {:induction false} SplitWithoutSeparator(s: string, sep: char)
    requires sep !in s
    ensures Split(s, sep) == [s]
    decreases |s|
  {
    if s != [] {
      assert s[0] != sep && sep !in s[1..];
      SplitWithoutSeparator(s[1..], sep);
      assert [s[0]] + s[1..] == s;
    }
  }

  lemma {:induction false} SplitAtFirstSeparator(a: string, b: string, sep: char)
    requires sep !in a
    ensures Split(a + [sep] + b, sep) == [a] + Split(b, sep)
    decreases |a|
  {
    var s := a + [sep] + b;
    if a == [] {
      assert s[0] == sep && s[1..] == b;
    } else {
      assert s[0] == a[0];
      assert s[1..] == a[1..] + [sep] + b;
      assert sep !in a[1..];
      SplitAtFirstSeparator(a[1..], b, sep);
      assert [a[0]] + a[1..] == a;
    }
  }

  /** Splitting a join of separator-free pieces gives the pieces back. */
  lemma {:induction false} SplitJoin(pieces: seq<string>, sep: char)
    requires |pieces| >= 1
    requires forall k :: 0 <= k < |pieces| ==> sep !in pieces[k]
    ensures Split(Join(pieces, sep), sep) == pieces
    decreases |pieces|
  {
    if |pieces| == 1 {
      SplitWithoutSeparator(pieces[0], sep);
    } else {
      SplitJoin(pieces[1..], sep);
      SplitAtFirstSeparator(pieces[0], Join(pieces[1..], sep), sep);
      assert [pieces[0]] + pieces[1..] == pieces;
    }
  }
}
