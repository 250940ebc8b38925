/**
 * The two text-cleaning passes of the vocabulary converter: joining lines
 * broken in the middle of a sentence, and dropping parenthesised remarks
 * introduced by " (".
 *
 * The character predicates of the host language (alphanumeric test and
 * lower-casing) are parameters.
 */
module Converter {

  /** The newline at index i is a line break inside a sentence: it is not
      the last character and the next character is alphanumeric and
      already lower case. */
  predicate JoinsNextLine(s: string, i: nat, isAlnum: char -> bool, lower: char -> char)
    requires i < |s|
  {
    s[i] == '\n' && i + 1 != |s| && s[i + 1] == lower(s[i + 1]) && isAlnum(s[i + 1])
  }

  /** Replaces every newline that breaks a sentence by a space and copies
      every other character. */
  method RemoveNewlines(s: string, isAlnum: char -> bool, lower: char -> char) returns (r: string)
    ensures |r| == |s|
    ensures forall i :: 0 <= i < |s| && s[i] != '\n' ==> r[i] == s[i]
    ensures forall i :: 0 <= i < |s| && s[i] == '\n' ==> (r[i] == ' ' <==> JoinsNextLine(s, i, isAlnum, lower))
    ensures forall i :: 0 <= i < |s| && s[i] == '\n' && !JoinsNextLine(s, i, isAlnum, lower) ==> r[i] == '\n'
    ensures 0 < |s| && s[|s| - 1] == '\n' ==> r[|s| - 1] == '\n'
  {
    r := "";
    for i := 0 to |s|
      invariant |r| == i
      invariant forall k :: 0 <= k < i && s[k] != '\n' ==> r[k] == s[k]
      invariant forall k :: 0 <= k < i && s[k] == '\n' ==> r[k] == (if JoinsNextLine(s, k, isAlnum, lower) then ' ' else '\n')
    {
      var c := s[i];
      if c == '\n' && i + 1 != |s| && s[i + 1] == lower(s[i + 1]) && isAlnum(s[i + 1]) {
        r := r + " ";
      } else {
        r := r + [c];
      }
    }
  }

  /** s[i] is a space immediately followed by an opening parenthesis. */
  predicate OpensGroup(s: string, i: nat)
    requires i < |s|
  {
    s[i] == ' ' && i + 1 != |s| && s[i + 1] == '('
  }

  /** What the bracket remover keeps of s[i..] when it starts at nesting
      level `depth`: a " (" opens a level, a ")" closes one when a level is
      open, and any other character is kept only at level zero (a ")" at
      level zero is kept too). */
  function Strip(s: string, i: nat, depth: nat): string
    requires i <= |s|
    decreases |s| - i
  {
    if i == |s| then []
    else if OpensGroup(s, i) then Strip(s, i + 1, depth + 1)
    else if s[i] == ')' && depth > 0 then Strip(s, i + 1, depth - 1)
    else if depth == 0 then [s[i]] + Strip(s, i + 1, depth)
    else Strip(s, i + 1, depth)
  }

  /** Copies s, skipping every " (" ... ")" group with a nesting counter. */
  method RemoveBrackets(s: string) returns (r: string)
    ensures r == Strip(s, 0, 0)
  {
    r := "";
    var skipc: nat := 0;
    for i := 0 to |s|
      invariant r + Strip(s, i, skipc) == Strip(s, 0, 0)
    {
      var c := s[i];
      if c == ' ' && i + 1 != |s| && s[i + 1] == '(' {
        skipc := skipc + 1;
      } else if c == ')' && skipc > 0 {
        skipc := skipc - 1;
      } else if skipc == 0 {
        assert Strip(s, i, skipc) == [c] + Strip(s, i + 1, skipc);
        r := r + [c];
      }
    }
  }

  /** The indices of s[i..] whose characters Strip keeps, in order. */
  function KeptIndices(s: string, i: nat, depth: nat): seq<nat>
    requires i <= |s|
    decreases |s| - i
  {
    if i == |s| then []
    else if OpensGroup(s, i) then KeptIndices(s, i + 1, depth + 1)
    else if s[i] == ')' && depth > 0 then KeptIndices(s, i + 1, depth - 1)
    else if depth == 0 then [i] + KeptIndices(s, i + 1, depth)
    else KeptIndices(s, i + 1, depth)
  }

  /** Strip keeps, one for one, the characters at KeptIndices, which are
      strictly increasing indices of s[i..]. */
  lemma {:induction false} KeptIndicesCorrect(s: string, i: nat, depth: nat)
    requires i <= |s|
    ensures var idx := KeptIndices(s, i, depth);
            && |idx| == |Strip(s, i, depth)|
            && (forall k :: 0 <= k < |idx| ==> i <= idx[k] < |s| && Strip(s, i, depth)[k] == s[idx[k]])
            && (forall k, l :: 0 <= k < l < |idx| ==> idx[k] < idx[l])
    decreases |s| - i
  {
    if i < |s| {
      if OpensGroup(s, i) {
        KeptIndicesCorrect(s, i + 1, depth + 1);
      } else if s[i] == ')' && depth > 0 {
        KeptIndicesCorrect(s, i + 1, depth - 1);
      } else if depth == 0 {
        KeptIndicesCorrect(s, i + 1, depth);
        var rest := KeptIndices(s, i + 1, depth);
        var kept := Strip(s, i + 1, depth);
        assert KeptIndices(s, i, depth) == [i] + rest;
        assert Strip(s, i, depth) == [s[i]] + kept;
      } else {
        KeptIndicesCorrect(s, i + 1, depth);
      }
    }
  }

  /** The output of the bracket remover is a subsequence of its input:
      each kept character sits at a strictly later index of s than the one
      before it.  Hence it is never longer. */
  lemma StripIsSubsequence(s: string)
    ensures |Strip(s, 0, 0)| <= |s|
    ensures exists idx: seq<nat> ::
      && |idx| == |Strip(s, 0, 0)|
      && (forall k :: 0 <= k < |idx| ==> idx[k] < |s| && Strip(s, 0, 0)[k] == s[idx[k]])
      && (forall k, l :: 0 <= k < l < |idx| ==> idx[k] < idx[l])
  {
    var idx := KeptIndices(s, 0, 0);
    KeptIndicesCorrect(s, 0, 0);
    IncreasingBound(idx, |s|);
  }

  /** A strictly increasing sequence of indices below n has at most n
      elements. */
  lemma {:induction false} IncreasingBound(idx: seq<nat>, n: nat)
    requires forall k :: 0 <= k < |idx| ==> idx[k] < n
    requires forall k, l :: 0 <= k < l < |idx| ==> idx[k] < idx[l]
    ensures |idx| <= n
  {
    if |idx| > 0 {
      var last := idx[|idx| - 1];
      var front := idx[..|idx| - 1];
      assert forall k :: 0 <= k < |front| ==> front[k] < last;
      IncreasingBound(front, last);
    }
  }

  /** Without any " (" the text is kept as it is, a stray ")" included. */
  lemma {:induction false} NoGroupUnchanged(s: string, i: nat)
    requires i <= |s|
    requires forall k :: i <= k < |s| ==> !OpensGroup(s, k)
    ensures Strip(s, i, 0) == s[i..]
    decreases |s| - i
  {
    if i < |s| {
      assert !OpensGroup(s, i);
      NoGroupUnchanged(s, i + 1);
      assert s[i..] == [s[i]] + s[i + 1..];
    }
  }

  /** Once a level is open and no ")" follows, everything left is dropped,
      further " (" included. */
  lemma {:induction false} OpenGroupDropsRest(s: string, i: nat, depth: nat)
    requires i <= |s| && depth > 0
    requires forall k :: i <= k < |s| ==> s[k] != ')'
    ensures Strip(s, i, depth) == []
    decreases |s| - i
  {
    if i < |s| {
      if OpensGroup(s, i) {
        OpenGroupDropsRest(s, i + 1, depth + 1);
      } else {
        OpenGroupDropsRest(s, i + 1, depth);
      }
    }
  }

  /** A ")" read at level zero is kept, one read at a positive level closes
      it and is dropped. */
  lemma ClosingParenthesis(s: string, i: nat, depth: nat)
    requires i < |s| && s[i] == ')'
    ensures depth == 0 ==> Strip(s, i, depth) == [')'] + Strip(s, i + 1, 0)
    ensures depth > 0 ==> Strip(s, i, depth) == Strip(s, i + 1, depth - 1)
  {
  }

  /** A remark in brackets after a space is removed together with the
      space before it. */
  lemma RemarkRemoved()
    ensures Strip("a (b) c", 0, 0) == "a c"
  {
  }
}
