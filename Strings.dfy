/**
 * The few JavaScript string operations the core relies on, over `seq<char>`:
 * `indexOf`, `split` on one separator character, `startsWith`, `endsWith`,
 * `includes` and ASCII lower-casing.
 */
module Strings {

  /** `s.startsWith(prefix)`. */
  predicate StartsWith(s: string, prefix: string) {
    |prefix| <= |s| && s[..|prefix|] == prefix
  }

  /** `s.endsWith(suffix)`. */
  predicate EndsWith(s: string, suffix: string) {
    |suffix| <= |s| && s[|s| - |suffix|..] == suffix
  }

  /** `s.includes(sub)`: `sub` occurs somewhere in `s`. */
  predicate Contains(s: string, sub: string)
    decreases |s|
  {
    StartsWith(s, sub) || (|s| > 0 && Contains(s[1..], sub))
  }

  /** `c` does not occur in `s`. */
  predicate Free(s: string, c: char) {
    forall k :: 0 <= k < |s| ==> s[k] != c
  }

  /**
   * `s.indexOf(c, from)`: the first position at or after `from` that holds `c`,
   * or -1 when there is none.
   */
  function IndexOf(s: string, c: char, from: nat): (r: int)
    ensures r == -1 || (from <= r < |s| && s[r] == c)
    decreases |s| - from
  {
    if from >= |s| then -1
    else if s[from] == c then from
    else IndexOf(s, c, from + 1)
  }

  /**
   * `IndexOf` finds the first `c` at or after `from`: -1 exactly when there
   * is none, and no `c` between `from` and the position found.
   */
  lemma {:induction false} IndexOfFirst(s: string, c: char, from: nat)
    ensures IndexOf(s, c, from) == -1 <==> forall k :: from <= k < |s| ==> s[k] != c
    ensures IndexOf(s, c, from) != -1 ==> forall k :: from <= k < IndexOf(s, c, from) ==> s[k] != c
    decreases |s| - from
  {
    if from < |s| && s[from] != c {
      IndexOfFirst(s, c, from + 1);
    }
  }

  /**
   * `s.split(sep)` for a one-character separator: the maximal pieces between
   * separators, empty pieces included, so that there is always at least one.
   */
  function Split(s: string, sep: char): (parts: seq<string>)
    ensures |parts| >= 1
    decreases |s|
  {
    var i := IndexOf(s, sep, 0);
    if i == -1 then [s] else [s[..i]] + Split(s[i + 1..], sep)
  }

  /** No piece of a split holds the separator. */
  lemma {:induction false} SplitFree(s: string, sep: char)
    ensures forall i :: 0 <= i < |Split(s, sep)| ==> Free(Split(s, sep)[i], sep)
    decreases |s|
  {
    var i := IndexOf(s, sep, 0);
    FreeBefore(s, sep, i);
    if i != -1 {
      SplitFree(s[i + 1..], sep);
      var rest := Split(s[i + 1..], sep);
      assert Split(s, sep) == [s[..i]] + rest;
      ConsFree(s[..i], rest, sep);
    } else {
      assert Split(s, sep) == [s];
    }
  }

  /** What comes before the first separator holds none. */
  lemma FreeBefore(s: string, sep: char, i: int)
    requires i == IndexOf(s, sep, 0)
    ensures i == -1 ==> Free(s, sep)
    ensures i != -1 ==> Free(s[..i], sep)
  {
    IndexOfFirst(s, sep, 0);
  }

  /** A separator-free piece in front of separator-free pieces. */
  lemma ConsFree(x: string, rest: seq<string>, sep: char)
    requires Free(x, sep) && forall j :: 0 <= j < |rest| ==> Free(rest[j], sep)
    ensures forall j :: 0 <= j < |[x] + rest| ==> Free(([x] + rest)[j], sep)
  {
    assert forall j :: 1 <= j < |rest| + 1 ==> ([x] + rest)[j] == rest[j - 1];
  }

  /** `parts.join(sep)`: the inverse of `Split`. */
  function Join(parts: seq<string>, sep: char): string
  {
    if |parts| == 0 then ""
    else if |parts| == 1 then parts[0]
    else parts[0] + [sep] + Join(parts[1..], sep)
  }

  /** Splitting and joining again gives back the original text. */
  lemma {:induction false} JoinSplit(s: string, sep: char)
    ensures Join(Split(s, sep), sep) == s
    decreases |s|
  {
    var i := IndexOf(s, sep, 0);
    if i != -1 {
      var x, y := s[..i], s[i + 1..];
      var rest := Split(y, sep);
      assert Split(s, sep) == [x] + rest;
      JoinSplit(y, sep);
      JoinCons(x, rest, sep);
      CutAround(s, i);
    } else {
      assert Split(s, sep) == [s];
    }
  }

  /** A sequence cut around position `i`. */
  lemma CutAround<T>(s: seq<T>, i: nat)
    requires i < |s|
    ensures s == s[..i] + [s[i]] + s[i + 1..]
  {
  }

  /** Concatenation is associative; stated once so that larger proofs need not rediscover it. */
  lemma AppendAssoc<T>(a: seq<T>, b: seq<T>, c: seq<T>)
    ensures a + (b + c) == (a + b) + c
  {
  }

  /** Joining at least one piece followed by a last one. */
  lemma {:induction false} JoinSnoc(parts: seq<string>, x: string, sep: char)
    requires |parts| >= 1
    ensures Join(parts + [x], sep) == Join(parts, sep) + [sep] + x
    decreases |parts|
  {
    if |parts| == 1 {
      assert (parts + [x])[1..] == [x];
    } else {
      assert (parts + [x])[1..] == parts[1..] + [x];
      JoinSnoc(parts[1..], x, sep);
      AppendAssoc(parts[0] + [sep], Join(parts[1..], sep), [sep] + x);
    }
  }

  /** Joining a first piece in front of at least one more. */
  lemma JoinCons(x: string, parts: seq<string>, sep: char)
    requires |parts| >= 1
    ensures Join([x] + parts, sep) == x + [sep] + Join(parts, sep)
  {
    assert ([x] + parts)[1..] == parts;
  }

  /** Joining separator-free pieces and splitting again gives back the pieces. */
  lemma {:induction false} SplitJoin(parts: seq<string>, sep: char)
    requires |parts| >= 1
    requires forall i :: 0 <= i < |parts| ==> Free(parts[i], sep)
    ensures Split(Join(parts, sep), sep) == parts
    decreases |parts|
  {
    if |parts| > 1 {
      var s := Join(parts, sep);
      assert s == parts[0] + ([sep] + Join(parts[1..], sep));
      assert forall k :: 0 <= k < |parts[0]| ==> s[k] == parts[0][k];
      assert s[|parts[0]|] == sep;
      IndexOfFirst(s, sep, 0);
      assert IndexOf(s, sep, 0) == |parts[0]|;
      assert s[|parts[0]| + 1..] == Join(parts[1..], sep);
      SplitJoin(parts[1..], sep);
    } else {
      IndexOfFirst(parts[0], sep, 0);
      assert IndexOf(parts[0], sep, 0) == -1;
    }
  }

  /** ASCII lower-casing of one character; every other character is kept. */
  function LowerChar(c: char): (d: char)
    ensures 'A' <= c <= 'Z' ==> 'a' <= d <= 'z' && d as int == c as int + 32
    ensures !('A' <= c <= 'Z') ==> d == c
  {
    if 'A' <= c <= 'Z' then (c as int + 32) as char else c
  }

  /**
   * `s.toLowerCase()` restricted to ASCII letters: the only characters whose
   * case matters for the header names the server sets.
   */
  function ToLower(s: string): (r: string)
    ensures |r| == |s|
    ensures forall k :: 0 <= k < |s| ==> r[k] == LowerChar(s[k])
  {
    seq(|s|, k requires 0 <= k < |s| => LowerChar(s[k]))
  }

  /** Lower-casing is idempotent, so a lower-cased name is its own key. */
  lemma ToLowerIdempotent(s: string)
    ensures ToLower(ToLower(s)) == ToLower(s)
  {
  }
}
