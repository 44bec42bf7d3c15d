/** The JavaScript string operations the artifact parser relies on:
    `split("\n")`, `startsWith`, `replace(pattern, "")` (which removes only the
    FIRST occurrence of a string pattern) and `trim`. */
module JsString {

  /** `s.startsWith(p)`. */
  predicate StartsWith(s: string, p: string) {
    |p| <= |s| && s[..|p|] == p
  }

  /** `pat` occurs in `s` at index `k`. */
  predicate OccursAt(s: string, pat: string, k: int) {
    0 <= k && k + |pat| <= |s| && s[k..k + |pat|] == pat
  }

  /** `s` contains `pat` somewhere. */
  predicate Contains(s: string, pat: string) {
    exists k | 0 <= k <= |s| :: OccursAt(s, pat, k)
  }

  // ---------------------------------------------------------------- split

  /** The number of line feeds in `s`. */
  function NewlineCount(s: string): nat {
    if s == [] then 0 else (if s[0] == '\n' then 1 else 0) + NewlineCount(s[1..])
  }

  /** `s.split("\n")`: the segments between line feeds, one more than there
      are line feeds, none of them containing a line feed. */
  function Split(s: string): (r: seq<string>)
    ensures |r| == NewlineCount(s) + 1
    ensures forall k :: 0 <= k < |r| ==> '\n' !in r[k]
  {
    if s == [] then [""]
    else
      var rest := Split(s[1..]);
      if s[0] == '\n' then [""] + rest
      else [[s[0]] + rest[0]] + rest[1..]
  }

  /** `parts.join("\n")`. */
  function Join(parts: seq<string>): string {
    if |parts| == 0 then ""
    else if |parts| == 1 then parts[0]
    else parts[0] + "\n" + Join(parts[1..])
  }

  /** Joining the segments of a split gives back the text. */
  lemma {:induction false} JoinSplit(s: string)
    ensures Join(Split(s)) == s
  {
    if s != [] {
      JoinSplit(s[1..]);
      var rest := Split(s[1..]);
      if s[0] == '\n' {
        assert Split(s) == [""] + rest;
        assert s == [s[0]] + s[1..];
      } else if |rest| == 1 {
        assert s == [s[0]] + rest[0];
      } else {
        assert Join(rest) == rest[0] + "\n" + Join(rest[1..]);
        var r := Split(s);
        assert r[1..] == rest[1..];
        assert s == [s[0]] + s[1..];
      }
    }
  }

  /** A text without line feeds splits into itself alone. */
  lemma {:induction false} SplitSingle(s: string)
    requires '\n' !in s
    ensures Split(s) == [s]
  {
    if s != [] {
      assert '\n' !in s[1..];
      SplitSingle(s[1..]);
      assert s == [s[0]] + s[1..];
    }
  }

  /** A leading line-feed-free segment followed by a line feed splits off first. */
  lemma {:induction false} SplitCons(p: string, s: string)
    requires '\n' !in p
    ensures Split(p + "\n" + s) == [p] + Split(s)
  {
    if p == [] {
      assert p + "\n" + s == "\n" + s;
      assert ("\n" + s)[1..] == s;
    } else {
      assert '\n' !in p[1..];
      SplitCons(p[1..], s);
      assert (p + "\n" + s)[1..] == p[1..] + "\n" + s;
      assert [p[0]] + p[1..] == p;
    }
  }

  /** Splitting joined line-feed-free segments gives the segments back. */
  lemma {:induction false} SplitJoin(parts: seq<string>)
    requires |parts| >= 1
    requires forall k :: 0 <= k < |parts| ==> '\n' !in parts[k]
    ensures Split(Join(parts)) == parts
  {
    if |parts| == 1 {
      SplitSingle(parts[0]);
    } else {
      SplitJoin(parts[1..]);
      SplitCons(parts[0], Join(parts[1..]));
    }
  }

  // ------------------------------------------------------ replace (first)

  /** `s.indexOf(pat, i)` for `i <= |s|`: the first occurrence at or after `i`,
      or -1. */
  function IndexFrom(s: string, pat: string, i: nat): int
    requires i <= |s|
    decreases |s| - i
  {
    if i + |pat| > |s| then -1
    else if s[i..i + |pat|] == pat then i
    else IndexFrom(s, pat, i + 1)
  }

  /** `s.indexOf(pat)`. */
  function IndexOf(s: string, pat: string): int {
    IndexFrom(s, pat, 0)
  }

  /** `s.replace(pat, "")` with a string pattern: only the first occurrence of
      `pat` is removed. (`IndexOf` gives -1 or a position where `pat` fits, so
      the guard is the source's test for -1.) */
  function RemoveFirst(s: string, pat: string): string {
    var k := IndexOf(s, pat);
    if 0 <= k && k + |pat| <= |s| then s[..k] + s[k + |pat|..] else s
  }

  /** The search from `i` finds the first occurrence at or after `i`, and
      gives -1 exactly when there is none. */
  lemma {:induction false} IndexFromFirst(s: string, pat: string, i: nat)
    requires i <= |s|
    ensures IndexFrom(s, pat, i) == -1 || (i <= IndexFrom(s, pat, i) && OccursAt(s, pat, IndexFrom(s, pat, i)))
    ensures IndexFrom(s, pat, i) == -1 ==> forall k :: i <= k ==> !OccursAt(s, pat, k)
    ensures IndexFrom(s, pat, i) != -1 ==> forall k :: i <= k < IndexFrom(s, pat, i) ==> !OccursAt(s, pat, k)
    decreases |s| - i
  {
    if i + |pat| <= |s| && s[i..i + |pat|] != pat {
      IndexFromFirst(s, pat, i + 1);
    }
  }

  /** `indexOf` is -1 exactly when `pat` does not occur, and otherwise the
      position of its first occurrence. */
  lemma IndexOfFirst(s: string, pat: string)
    ensures IndexOf(s, pat) == -1 <==> !Contains(s, pat)
    ensures IndexOf(s, pat) != -1 ==>
              OccursAt(s, pat, IndexOf(s, pat)) && forall k :: 0 <= k < IndexOf(s, pat) ==> !OccursAt(s, pat, k)
  {
    IndexFromFirst(s, pat, 0);
  }

  /** A text without `pat` is returned unchanged; one that starts with `pat`
      loses exactly that prefix; otherwise the first occurrence is cut out. */
  lemma RemoveFirstSpec(s: string, pat: string)
    ensures !Contains(s, pat) ==> RemoveFirst(s, pat) == s
    ensures StartsWith(s, pat) ==> RemoveFirst(s, pat) == s[|pat|..]
    ensures Contains(s, pat) ==>
              (exists k :: 0 <= k <= |s| - |pat| && OccursAt(s, pat, k) &&
                 (forall j :: 0 <= j < k ==> !OccursAt(s, pat, j)) && RemoveFirst(s, pat) == s[..k] + s[k + |pat|..])
  {
    IndexOfFirst(s, pat);
    var k := IndexOf(s, pat);
    if StartsWith(s, pat) {
      assert OccursAt(s, pat, 0);
    }
    if k != -1 {
      assert OccursAt(s, pat, k);
    }
  }

  // ----------------------------------------------------------------- trim

  /** The characters `String.prototype.trim` removes: the ECMAScript
      WhiteSpace (tab, vertical tab, form feed, space, no-break space, the
      byte-order mark and the other space separators) and LineTerminator
      (line feed, carriage return, line and paragraph separators) code points. */
  predicate IsWhiteSpace(c: char) {
    c == '\t' || c == '\n' || c == '\U{000B}' || c == '\U{000C}' || c == '\r' ||
    c == ' ' || c == '\U{00A0}' || c == '\U{1680}' ||
    ('\U{2000}' <= c <= '\U{200A}') ||
    c == '\U{2028}' || c == '\U{2029}' || c == '\U{202F}' || c == '\U{205F}' ||
    c == '\U{3000}' || c == '\U{FEFF}'
  }

  /** Every character of `s` is white space. */
  predicate AllWhiteSpace(s: string) {
    forall k :: 0 <= k < |s| ==> IsWhiteSpace(s[k])
  }

  /** `s.trimStart()`: `s` without its leading white space. */
  function TrimStart(s: string): string {
    if s != [] && IsWhiteSpace(s[0]) then TrimStart(s[1..]) else s
  }

  /** `s.trimEnd()`: `s` without its trailing white space. */
  function TrimEnd(s: string): string {
    if s != [] && IsWhiteSpace(s[|s| - 1]) then TrimEnd(s[..|s| - 1]) else s
  }

  /** `s.trim()`: `s` without its leading and trailing white space. */
  function Trim(s: string): string {
    TrimEnd(TrimStart(s))
  }

  /** `trimStart` keeps a suffix, drops only white space, leaves no leading
      white space, and gives the empty text exactly for all-white-space input. */
  lemma {:induction false} TrimStartShape(s: string)
    ensures |TrimStart(s)| <= |s| && TrimStart(s) == s[|s| - |TrimStart(s)|..]
    ensures AllWhiteSpace(s[..|s| - |TrimStart(s)|])
    ensures TrimStart(s) == [] || !IsWhiteSpace(TrimStart(s)[0])
    ensures TrimStart(s) == [] <==> AllWhiteSpace(s)
  {
    if s != [] && IsWhiteSpace(s[0]) {
      var tail := s[1..];
      TrimStartShape(tail);
      var r := TrimStart(tail);
      assert s[..|s| - |r|] == [s[0]] + tail[..|tail| - |r|];
      assert AllWhiteSpace(s) ==> AllWhiteSpace(tail) by {
        if AllWhiteSpace(s) {
          forall k | 0 <= k < |tail| ensures IsWhiteSpace(tail[k]) { assert tail[k] == s[k + 1]; }
        }
      }
      if AllWhiteSpace(tail) {
        forall k | 0 <= k < |s| ensures IsWhiteSpace(s[k]) { if k > 0 { assert s[k] == tail[k - 1]; } }
      }
    } else {
      assert s[..0] == [];
    }
  }

  /** `trimEnd` keeps a prefix, drops only white space, leaves no trailing
      white space, and gives the empty text exactly for all-white-space input. */
  lemma {:induction false} TrimEndShape(s: string)
    ensures |TrimEnd(s)| <= |s| && TrimEnd(s) == s[..|TrimEnd(s)|]
    ensures AllWhiteSpace(s[|TrimEnd(s)|..])
    ensures TrimEnd(s) == [] || !IsWhiteSpace(TrimEnd(s)[|TrimEnd(s)| - 1])
    ensures TrimEnd(s) == [] <==> AllWhiteSpace(s)
  {
    if s != [] && IsWhiteSpace(s[|s| - 1]) {
      var init := s[..|s| - 1];
      TrimEndShape(init);
      var r := TrimEnd(init);
      assert s[|r|..] == init[|r|..] + [s[|s| - 1]];
      assert AllWhiteSpace(s) ==> AllWhiteSpace(init) by {
        if AllWhiteSpace(s) {
          forall k | 0 <= k < |init| ensures IsWhiteSpace(init[k]) { assert init[k] == s[k]; }
        }
      }
      if AllWhiteSpace(init) {
        forall k | 0 <= k < |s| ensures IsWhiteSpace(s[k]) { if k < |init| { assert s[k] == init[k]; } }
      }
    } else {
      assert s[|s|..] == [];
    }
  }

  /** A text that neither starts nor ends with white space (or is empty). */
  predicate Trimmed(s: string) {
    s == [] || (!IsWhiteSpace(s[0]) && !IsWhiteSpace(s[|s| - 1]))
  }

  /** The trimmed text is no longer than `s`, neither starts nor ends with
      white space, and is empty exactly when `s` is all white space. */
  lemma TrimShape(s: string)
    ensures |Trim(s)| <= |s|
    ensures Trimmed(Trim(s))
    ensures Trim(s) == [] <==> AllWhiteSpace(s)
  {
    var t := TrimStart(s);
    TrimStartShape(s);
    TrimEndShape(t);
    var r := TrimEnd(t);
    assert r != [] ==> r[0] == t[0];
  }

  /** Trim removes nothing but white space, and only at the two ends: the
      result is the piece of `s` between an all-white-space prefix and an
      all-white-space suffix. */
  lemma TrimRemovesOnlyEnds(s: string)
    ensures exists i :: 0 <= i <= |s| - |Trim(s)| && Trim(s) == s[i..i + |Trim(s)|] &&
                        AllWhiteSpace(s[..i]) && AllWhiteSpace(s[i + |Trim(s)|..])
  {
    var t := TrimStart(s);
    TrimStartShape(s);
    TrimEndShape(t);
    var r := TrimEnd(t);
    var i := |s| - |t|;
    assert r == s[i..i + |r|];
    assert s[i + |r|..] == t[|r|..];
  }

  /** A text is its own trim exactly when it is empty or neither starts nor
      ends with white space. */
  lemma TrimFixedPoint(s: string)
    ensures Trim(s) == s <==> Trimmed(s)
  {
    TrimShape(s);
    if Trimmed(s) && s != [] {
      assert TrimStart(s) == s;
      assert TrimEnd(s) == s;
    }
  }

  /** Trimming twice is trimming once. */
  lemma TrimIdempotent(s: string)
    ensures Trim(Trim(s)) == Trim(s)
  {
    TrimShape(s);
    TrimFixedPoint(Trim(s));
  }

  /** A trimmed, non-empty text followed by a line feed trims back to itself. */
  lemma TrimDropsFinalNewline(s: string)
    requires s != [] && Trimmed(s)
    ensures Trim(s + "\n") == s
  {
    TrimFixedPoint(s);
    var t := s + "\n";
    assert t[0] == s[0];
    assert TrimStart(t) == t;
    assert t[..|t| - 1] == s;
    assert TrimEnd(t) == TrimEnd(s);
    assert TrimEnd(s) == s;
  }
}
