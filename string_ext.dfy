/**
 * `remove_whitespaces`: split the text at Unicode white space and
 * concatenate the words, which amounts to deleting every white-space
 * character.  The macros rely on it to compare type names written with
 * arbitrary spacing.
 */
module StringExt {

  /** `char::is_whitespace`: the characters with the Unicode White_Space property. */
  predicate IsWhitespace(c: char) {
    ('\U{0009}' <= c <= '\U{000D}') || c == ' ' || c == '\U{0085}' || c == '\U{00A0}' || c == '\U{1680}' ||
    ('\U{2000}' <= c <= '\U{200A}') || c == '\U{2028}' || c == '\U{2029}' || c == '\U{202F}' ||
    c == '\U{205F}' || c == '\U{3000}'
  }

  predicate NoWhitespace(s: string) {
    forall i :: 0 <= i < |s| ==> !IsWhitespace(s[i])
  }

  /** The length of the word at the start of `s`. */
  function WordLength(s: string): (n: nat)
    ensures n <= |s|
    ensures NoWhitespace(s[..n])
    ensures n < |s| ==> IsWhitespace(s[n])
  {
    if s == [] || IsWhitespace(s[0]) then 0
    else
      var m := WordLength(s[1..]);
      assert s[..m + 1] == [s[0]] + s[1..][..m];
      m + 1
  }

  /** `split_whitespace`: the maximal non-empty runs of non-white-space characters, in order. */
  function SplitWhitespace(s: string): (words: seq<string>)
    decreases |s|
    ensures forall k :: 0 <= k < |words| ==> words[k] != [] && NoWhitespace(words[k])
  {
    if s == [] then []
    else if IsWhitespace(s[0]) then SplitWhitespace(s[1..])
    else
      var n := WordLength(s);
      [s[..n]] + SplitWhitespace(s[n..])
  }

  /** `collect` into a `String`: the words concatenated. */
  function Concat(words: seq<string>): (s: string)
  {
    if words == [] then [] else words[0] + Concat(words[1..])
  }

  function RemoveWhitespaces(s: string): (r: string)
  {
    Concat(SplitWhitespace(s))
  }

  /** The reference definition: the input with its white-space characters deleted. */
  function DeleteWhitespace(s: string): (r: string)
    ensures NoWhitespace(r)
    ensures |r| <= |s|
  {
    if s == [] then []
    else if IsWhitespace(s[0]) then DeleteWhitespace(s[1..])
    else [s[0]] + DeleteWhitespace(s[1..])
  }

  lemma {:induction false} DeleteAppend(a: string, b: string)
    ensures DeleteWhitespace(a + b) == DeleteWhitespace(a) + DeleteWhitespace(b)
  {
    if a != [] {
      assert (a + b)[1..] == a[1..] + b;
      DeleteAppend(a[1..], b);
    } else {
      assert a + b == b;
    }
  }

  lemma {:induction false} DeleteNothing(s: string)
    requires NoWhitespace(s)
    ensures DeleteWhitespace(s) == s
  {
    if s != [] {
      DeleteNothing(s[1..]);
    }
  }

  /** Splitting and joining deletes exactly the white space, keeping everything else in order. */
  lemma {:induction false} RemoveIsDelete(s: string)
    decreases |s|
    ensures RemoveWhitespaces(s) == DeleteWhitespace(s)
  {
    if s == [] {
    } else if IsWhitespace(s[0]) {
      RemoveIsDelete(s[1..]);
    } else {
      var n := WordLength(s);
      var words := SplitWhitespace(s);
      assert words == [s[..n]] + SplitWhitespace(s[n..]);
      assert words[1..] == SplitWhitespace(s[n..]);
      RemoveIsDelete(s[n..]);
      assert s == s[..n] + s[n..];
      DeleteAppend(s[..n], s[n..]);
      DeleteNothing(s[..n]);
    }
  }

  /** The result holds no white space, and running it twice changes nothing. */
  lemma NoWhitespaceLeft(s: string)
    ensures NoWhitespace(RemoveWhitespaces(s))
    ensures RemoveWhitespaces(RemoveWhitespaces(s)) == RemoveWhitespaces(s)
  {
    RemoveIsDelete(s);
    RemoveIsDelete(RemoveWhitespaces(s));
    DeleteNothing(RemoveWhitespaces(s));
  }

  /** Text that is already free of white space is returned unchanged. */
  lemma FreeTextUnchanged(s: string)
    requires NoWhitespace(s)
    ensures RemoveWhitespaces(s) == s
  {
    RemoveIsDelete(s);
    DeleteNothing(s);
  }

  /** Non-white-space characters survive in number: as many of each as in the input. */
  lemma {:induction false} KeepsEveryOtherCharacter(s: string, c: char)
    requires !IsWhitespace(c)
    ensures multiset(RemoveWhitespaces(s))[c] == multiset(s)[c]
  {
    RemoveIsDelete(s);
    DeleteCounts(s, c);
  }

  lemma {:induction false} DeleteCounts(s: string, c: char)
    requires !IsWhitespace(c)
    ensures multiset(DeleteWhitespace(s))[c] == multiset(s)[c]
  {
    if s != [] {
      DeleteCounts(s[1..], c);
      assert s == [s[0]] + s[1..];
    }
  }

  const SPACED_TYPE := "Option < JsonReference >"
  const TIGHT_TYPE := "Option<JsonReference>"

  /** A word followed by a single space loses just the space. */
  lemma WordSpace(x: string)
    requires NoWhitespace(x)
    ensures DeleteWhitespace(x + " ") == x
  {
    var sp := " ";
    assert DeleteWhitespace(sp) == [];
    DeleteAppend(x, sp);
    DeleteNothing(x);
  }

  /** Four words separated by single spaces lose just the spaces. */
  lemma SpacedWords(x: string, y: string, z: string, w: string)
    requires NoWhitespace(x) && NoWhitespace(y) && NoWhitespace(z) && NoWhitespace(w)
    ensures DeleteWhitespace((x + " ") + (y + " ") + (z + " ") + w) == x + y + z + w
  {
    WordSpace(x);
    WordSpace(y);
    WordSpace(z);
    DeleteNothing(w);
    DeleteAppend((x + " ") + (y + " ") + (z + " "), w);
    DeleteAppend((x + " ") + (y + " "), z + " ");
    DeleteAppend(x + " ", y + " ");
  }

  lemma ExampleWords()
    ensures NoWhitespace("Option") && NoWhitespace("<") && NoWhitespace("JsonReference") && NoWhitespace(">")
  {
  }

  lemma DeleteExample()
    ensures DeleteWhitespace(SPACED_TYPE) == TIGHT_TYPE
  {
    assert SPACED_TYPE == ("Option" + " ") + ("<" + " ") + ("JsonReference" + " ") + ">";
    assert TIGHT_TYPE == "Option" + "<" + "JsonReference" + ">";
    ExampleWords();
    SpacedWords("Option", "<", "JsonReference", ">");
  }

  /** The spelling the error macro compares against. */
  lemma OptionExample()
    ensures RemoveWhitespaces(SPACED_TYPE) == TIGHT_TYPE
  {
    RemoveIsDelete(SPACED_TYPE);
    DeleteExample();
  }
}
