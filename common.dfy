/** Shared helpers: an optional value and the few Python string operations the
    pipeline relies on (`in`, `endswith`, `split(sep)[-1]`, `replace`). */
module Common {

  datatype Option<+T> = None | Some(value: T) {
    /** Python's `d.get(k, default)` once the lookup has produced an Option. */
    function GetOr(default: T): T {
      match this
      case Some(v) => v
      case None => default
    }
  }

  /** A document's path relative to the staging directory. */
  type Path = string

  /** `xs` lists every element of `s` exactly once, in some order: what
      Python's `list(s)` yields for a set, and what an SQL query without
      ORDER BY returns. */
  ghost predicate Enumerates<T(!new)>(xs: seq<T>, s: set<T>) {
    && (forall x :: x in xs <==> x in s)
    && (forall i, j :: 0 <= i < j < |xs| ==> xs[i] != xs[j])
  }

  /** `sub` occurs in `s` starting at index `i`. */
  predicate OccursAt(s: string, sub: string, i: int) {
    0 <= i && i + |sub| <= |s| && s[i..i + |sub|] == sub
  }

  /** The first index at or after `from` where `sub` occurs in `s`
      (Python's `s.find(sub, from)`, with None for -1). */
  function IndexOf(s: string, sub: string, from: nat): (r: Option<nat>)
    decreases |s| - from
    ensures r.Some? ==> from <= r.value && OccursAt(s, sub, r.value)
  {
    if from + |sub| > |s| then None
    else if s[from..from + |sub|] == sub then Some(from)
    else IndexOf(s, sub, from + 1)
  }

  /** `find` returns the first occurrence at or after `from`, and fails only
      when there is none. */
  lemma {:induction false} IndexOfFirst(s: string, sub: string, from: nat)
    decreases |s| - from
    ensures var r := IndexOf(s, sub, from);
      && (r.Some? ==> forall j :: from <= j < r.value ==> !OccursAt(s, sub, j))
      && (r.None? ==> forall j :: from <= j ==> !OccursAt(s, sub, j))
  {
    if from + |sub| <= |s| && s[from..from + |sub|] != sub {
      IndexOfFirst(s, sub, from + 1);
    }
  }

  /** Python's `sub in s`. */
  predicate Contains(s: string, sub: string) {
    IndexOf(s, sub, 0).Some?
  }

  lemma ContainsIff(s: string, sub: string)
    ensures Contains(s, sub) <==> exists i :: OccursAt(s, sub, i)
  {
    IndexOfFirst(s, sub, 0);
  }

  /** Python's `s.endswith(suffix)`. */
  predicate EndsWith(s: string, suffix: string) {
    |suffix| <= |s| && s[|s| - |suffix|..] == suffix
  }

  /** Python's `s.split(sep)[-1]`: the piece left after cutting `s` at every
      occurrence of `sep`, found left to right without overlap. */
  function LastPiece(s: string, sep: string): (r: string)
    requires |sep| > 0
    decreases |s|
  {
    match IndexOf(s, sep, 0)
    case None => s
    case Some(i) => LastPiece(s[i + |sep|..], sep)
  }

  /** An occurrence in a tail of `s` is an occurrence in `s`. */
  lemma OccursInTail(s: string, d: nat, sub: string, k: int)
    requires d <= |s| && OccursAt(s[d..], sub, k)
    ensures OccursAt(s, sub, k + d)
  {
    assert s[k + d..k + d + |sub|] == s[d..][k..k + |sub|];
  }

  /** The last piece is a suffix of `s` and holds no `sep`. */
  lemma {:induction false} LastPieceSuffix(s: string, sep: string)
    requires |sep| > 0
    decreases |s|
    ensures EndsWith(s, LastPiece(s, sep))
    ensures !Contains(LastPiece(s, sep), sep)
  {
    match IndexOf(s, sep, 0)
    case None =>
    case Some(i) =>
      var rest := s[i + |sep|..];
      LastPieceSuffix(rest, sep);
      var r := LastPiece(rest, sep);
      assert LastPiece(s, sep) == r;
      EndsWithTail(s, i + |sep|, r);
  }

  /** A suffix of a tail of `s` is a suffix of `s`. */
  lemma EndsWithTail(s: string, d: nat, r: string)
    requires d <= |s| && EndsWith(s[d..], r)
    ensures EndsWith(s, r)
  {
    assert s[|s| - |r|..] == s[d..][|s| - d - |r|..];
  }

  /** `r` ends `s` and comes right after an occurrence of `sep`. */
  predicate FollowsSep(s: string, sep: string, r: string) {
    |r| + |sep| <= |s| && OccursAt(s, sep, |s| - |r| - |sep|)
  }

  /** When `s` holds a `sep`, the last piece follows one directly; otherwise it
      is all of `s`. */
  lemma {:induction false} LastPieceAfterSep(s: string, sep: string)
    requires |sep| > 0
    decreases |s|
    ensures Contains(s, sep) ==> FollowsSep(s, sep, LastPiece(s, sep))
    ensures !Contains(s, sep) ==> LastPiece(s, sep) == s
  {
    match IndexOf(s, sep, 0)
    case None =>
    case Some(i) =>
      var rest := s[i + |sep|..];
      var r := LastPiece(rest, sep);
      assert LastPiece(s, sep) == r;
      LastPieceAfterSep(rest, sep);
      PieceAfterFirst(s, sep, i, r, Contains(rest, sep));
  }

  /** One step of `LastPieceAfterSep`: `sep` at `i`, and `r` a piece that
      follows an occurrence of `sep` in the text after it, or is all of that
      text. */
  lemma PieceAfterFirst(s: string, sep: string, i: nat, r: string, later: bool)
    requires OccursAt(s, sep, i)
    requires later ==> FollowsSep(s[i + |sep|..], sep, r)
    requires !later ==> r == s[i + |sep|..]
    ensures FollowsSep(s, sep, r)
  {
    var rest := s[i + |sep|..];
    if later {
      OccursInTail(s, i + |sep|, sep, |rest| - |r| - |sep|);
    }
  }

  /** Python's `s.replace(pat, "")`: every occurrence of `pat`, found left to
      right without overlap, is cut out. */
  function RemoveAll(s: string, pat: string): (r: string)
    requires |pat| > 0
    decreases |s|
    ensures |r| <= |s|
    ensures !Contains(s, pat) ==> r == s
  {
    match IndexOf(s, pat, 0)
    case None => s
    case Some(i) => s[..i] + RemoveAll(s[i + |pat|..], pat)
  }

  /** Python's `s.replace(from, to)` for one-character `from` and `to`. */
  function ReplaceChar(s: string, from: char, to: char): (r: string)
    ensures |r| == |s|
    ensures forall i :: 0 <= i < |s| && s[i] != from ==> r[i] == s[i]
    ensures forall i :: 0 <= i < |s| && s[i] == from ==> r[i] == to
    ensures from != to ==> forall i :: 0 <= i < |s| ==> r[i] != from
  {
    if s == [] then []
    else [if s[0] == from then to else s[0]] + ReplaceChar(s[1..], from, to)
  }
}
