/**
 * `type_name_only`: the last `::`-separated segment of a type's full path,
 * found the way `str::split` finds the separators, left to right without
 * overlap.
 */
module TypeName {
  import opened Wrappers
  import opened Strings

  const SEPARATOR := "::"

  /** The first separator at or after `from`. */
  function FindSeparator(s: string, from: nat): (r: Option<nat>)
    requires from <= |s|
    decreases |s| - from
    ensures r.Some? ==> from <= r.value && ContainsAt(s, SEPARATOR, r.value) &&
                        forall j :: from <= j < r.value ==> !ContainsAt(s, SEPARATOR, j)
    ensures r.None? ==> forall j :: from <= j <= |s| ==> !ContainsAt(s, SEPARATOR, j)
  {
    if from + |SEPARATOR| > |s| then None
    else if s[from..from + |SEPARATOR|] == SEPARATOR then Some(from)
    else FindSeparator(s, from + 1)
  }

  /** Text before the first separator holds no separator. */
  lemma BeforeFirstSeparator(s: string, i: nat)
    requires FindSeparator(s, 0) == Some(i)
    ensures !Contains(s[..i], SEPARATOR)
  {
    forall j: nat | j <= i
      ensures !ContainsAt(s[..i], SEPARATOR, j)
    {
      if j + 2 <= i {
        assert s[..i][j..j + 2] == s[j..j + 2];
        assert !ContainsAt(s, SEPARATOR, j);
      }
    }
  }

  /** `str::split("::")`: the pieces between separators; there is always at least one. */
  function Split(s: string): (pieces: seq<string>)
    decreases |s|
    ensures |pieces| >= 1
    ensures forall k :: 0 <= k < |pieces| ==> !Contains(pieces[k], SEPARATOR)
  {
    match FindSeparator(s, 0)
    case None => [s]
    case Some(i) =>
      BeforeFirstSeparator(s, i);
      [s[..i]] + Split(s[i + 2..])
  }

  /** Joining pieces back with the separator. */
  function Join(pieces: seq<string>): (s: string)
    requires |pieces| >= 1
  {
    if |pieces| == 1 then pieces[0] else pieces[0] + SEPARATOR + Join(pieces[1..])
  }

  /** Splitting loses nothing: joining the pieces gives the input back. */
  lemma {:induction false} JoinSplit(s: string)
    decreases |s|
    ensures Join(Split(s)) == s
  {
    match FindSeparator(s, 0)
    case None =>
    case Some(i) =>
      JoinSplit(s[i + 2..]);
      assert Split(s)[1..] == Split(s[i + 2..]);
      assert s == s[..i] + SEPARATOR + s[i + 2..];
  }

  /** Text without a separator is a single piece. */
  lemma SplitSeparatorFree(t: string)
    requires !Contains(t, SEPARATOR)
    ensures Split(t) == [t]
  {
  }

  /** The last piece of `s`, and how splitting the rest after the first separator relates to it. */
  function LastOf(s: string): (p: string)
  {
    Split(s)[|Split(s)| - 1]
  }

  lemma LastAfterFirst(s: string, i: nat)
    requires FindSeparator(s, 0) == Some(i)
    ensures LastOf(s) == LastOf(s[i + 2..])
  {
    var rest := Split(s[i + 2..]);
    assert Split(s) == [s[..i]] + rest;
    assert Split(s)[|Split(s)| - 1] == rest[|rest| - 1];
  }

  /** The last piece is a suffix of the input. */
  lemma {:induction false} LastIsSuffix(s: string)
    decreases |s|
    ensures EndsWith(s, LastOf(s))
  {
    match FindSeparator(s, 0)
    case None =>
    case Some(i) =>
      var t := s[i + 2..];
      LastIsSuffix(t);
      LastAfterFirst(s, i);
      var p := LastOf(t);
      assert s[|s| - |p|..] == t[|t| - |p|..];
  }

  /** A separator stands right before the suffix `p` of `s`. */
  predicate PrecededBySeparator(s: string, p: string) {
    |p| + 2 <= |s| && s[|s| - |p| - 2..|s| - |p|] == SEPARATOR
  }

  lemma PrecededInSuffix(s: string, k: nat, p: string)
    requires k <= |s| && PrecededBySeparator(s[k..], p)
    ensures PrecededBySeparator(s, p)
  {
    var t := s[k..];
    assert s[|s| - |p| - 2..|s| - |p|] == t[|t| - |p| - 2..|t| - |p|];
  }

  /** If there is a separator at all, one stands right before the last piece. */
  lemma {:induction false} LastIsPreceded(s: string)
    decreases |s|
    ensures Contains(s, SEPARATOR) ==> PrecededBySeparator(s, LastOf(s))
  {
    match FindSeparator(s, 0)
    case None =>
    case Some(i) =>
      var t := s[i + 2..];
      LastAfterFirst(s, i);
      if Contains(t, SEPARATOR) {
        LastIsPreceded(t);
        PrecededInSuffix(s, i + 2, LastOf(t));
      } else {
        SplitSeparatorFree(t);
        assert LastOf(t) == t && |s| - |t| - 2 == i;
      }
  }

  /** `type_name_only`: the last piece; the `unwrap_or` fallback is never taken as there always is one. */
  function TypeNameOnly(full: string): (r: string)
    ensures EndsWith(full, r)
    ensures !Contains(r, SEPARATOR)
    ensures Contains(full, SEPARATOR) ==> PrecededBySeparator(full, r)
  {
    LastIsSuffix(full);
    LastIsPreceded(full);
    LastOf(full)
  }

  /** A name without a separator is returned unchanged. */
  lemma NoSeparatorUnchanged(s: string)
    requires !Contains(s, SEPARATOR)
    ensures TypeNameOnly(s) == s
  {
  }

  lemma Idempotent(s: string)
    ensures TypeNameOnly(TypeNameOnly(s)) == TypeNameOnly(s)
  {
    NoSeparatorUnchanged(TypeNameOnly(s));
  }

  /** The separator search finds the first occurrence and no other. */
  lemma {:induction false} FindsFirst(s: string, from: nat, i: nat)
    requires from <= i && from <= |s| && ContainsAt(s, SEPARATOR, i)
    requires forall j :: from <= j < i ==> !ContainsAt(s, SEPARATOR, j)
    decreases i - from
    ensures FindSeparator(s, from) == Some(i)
  {
    if from < i {
      FindsFirst(s, from + 1, i);
    }
  }

  /** Text without a colon holds no separator. */
  lemma ColonFree(t: string)
    requires ':' !in t
    ensures !Contains(t, SEPARATOR)
  {
    forall j: nat | j <= |t| ensures !ContainsAt(t, SEPARATOR, j) {
      if j + 2 <= |t| {
        assert t[j..j + 2][0] == t[j];
      }
    }
  }

  /** A colon-free head is split off at the separator right after it. */
  lemma SplitsAfterHead(head: string, rest: string)
    requires ':' !in head
    ensures FindSeparator(head + SEPARATOR + rest, 0) == Some(|head|)
    ensures (head + SEPARATOR + rest)[|head| + 2..] == rest
  {
    var s := head + SEPARATOR + rest;
    forall j | 0 <= j < |head| ensures !ContainsAt(s, SEPARATOR, j) {
      assert s[j] == head[j];
      if j + 2 <= |s| {
        assert s[j..j + 2][0] == s[j];
      }
    }
    assert s[|head|..|head| + 2] == SEPARATOR;
    FindsFirst(s, 0, |head|);
  }

  const EXAMPLE_CRATE := "financrr"
  const EXAMPLE_MODULE := "models"
  const EXAMPLE_NAME := "User"
  const EXAMPLE_REST := EXAMPLE_MODULE + SEPARATOR + EXAMPLE_NAME
  const EXAMPLE_PATH := EXAMPLE_CRATE + SEPARATOR + EXAMPLE_REST

  /** A module path keeps only the type's own name: `financrr::models::User` gives `User`. */
  lemma PathExample()
    ensures TypeNameOnly(EXAMPLE_PATH) == EXAMPLE_NAME
  {
    SplitsAfterHead(EXAMPLE_CRATE, EXAMPLE_REST);
    SplitsAfterHead(EXAMPLE_MODULE, EXAMPLE_NAME);
    ColonFree(EXAMPLE_NAME);
    NoSeparatorUnchanged(EXAMPLE_NAME);
    LastAfterFirst(EXAMPLE_PATH, |EXAMPLE_CRATE|);
    LastAfterFirst(EXAMPLE_REST, |EXAMPLE_MODULE|);
  }
}
