/**
 Text handling of the command line: C strings held in a character buffer,
 the blank skip used before dispatch, and the verb/argument cut
 (`cut_and_get_next_word` in putin.c).

 A buffer is a `seq<char>`. Reading stops at the first NUL character or at
 the end of the sequence, whichever comes first, as it does for a C string.
 A pointer into the buffer is an index; the string it denotes is the suffix
 of the buffer that starts there.
 */
module Tokenizer {

  /** The characters skipped between the verb and its arguments, and before a command. */
  predicate IsBlank(c: char) {
    c == ' ' || c == '\n'
  }

  /** The characters that end the verb: a blank or the string terminator. */
  predicate IsDelimiter(c: char) {
    IsBlank(c) || c == '\0'
  }

  predicate NoDelimiter(s: seq<char>) {
    forall k :: 0 <= k < |s| ==> !IsDelimiter(s[k])
  }

  predicate AllBlank(s: seq<char>) {
    forall k :: 0 <= k < |s| ==> IsBlank(s[k])
  }

  /** True if `s` is non-empty and begins with the character `c`. */
  predicate Leads(s: seq<char>, c: char) {
    |s| > 0 && s[0] == c
  }

  /** The index of the first NUL at or after `i`, or the end of the buffer. */
  function NulFrom(s: seq<char>, i: nat): (j: nat)
    requires i <= |s|
    ensures i <= j <= |s|
    ensures forall k :: i <= k < j ==> s[k] != '\0'
    ensures j == |s| || s[j] == '\0'
    decreases |s| - i
  {
    if i == |s| || s[i] == '\0' then i else NulFrom(s, i + 1)
  }

  /** The index of the first delimiter at or after `i`, or the end: the scan of putin.c:22. */
  function DelimiterFrom(s: seq<char>, i: nat): (j: nat)
    requires i <= |s|
    ensures i <= j <= |s|
    ensures forall k :: i <= k < j ==> !IsDelimiter(s[k])
    ensures j == |s| || IsDelimiter(s[j])
    decreases |s| - i
  {
    if i == |s| || IsDelimiter(s[i]) then i else DelimiterFrom(s, i + 1)
  }

  /** The index of the first non-blank at or after `i`, or the end: the loops of putin.c:27 and putin.c:130. */
  function BlankRunFrom(s: seq<char>, i: nat): (j: nat)
    requires i <= |s|
    ensures i <= j <= |s|
    ensures forall k :: i <= k < j ==> IsBlank(s[k])
    ensures j == |s| || !IsBlank(s[j])
    decreases |s| - i
  {
    if i < |s| && IsBlank(s[i]) then BlankRunFrom(s, i + 1) else i
  }

  /** The C string a buffer holds: everything before the first NUL. */
  function CStr(s: seq<char>): seq<char> {
    s[..NulFrom(s, 0)]
  }

  /** Drops a leading run of spaces and newlines (putin.c:27 and putin.c:129-130). */
  function SkipBlanks(s: seq<char>): seq<char> {
    s[BlankRunFrom(s, 0)..]
  }

  /**
   The outcome of the cut: `verb` is the C string the command pointer denotes
   once the delimiter has been overwritten with NUL, and `args` is the rest of
   the buffer from the returned pointer on.
   */
  datatype Split = Split(verb: seq<char>, args: seq<char>)

  /**
   `cut_and_get_next_word`: the verb is the longest delimiter-free prefix; when
   it ends at a blank, the blank is cut off and the following blanks are skipped;
   when it ends at NUL or at the end of the buffer, the arguments are empty.
   */
  function CutNextWord(s: seq<char>): (r: Split)
    ensures |r.verb| <= |s| && r.verb == s[..|r.verb|] && NoDelimiter(r.verb)
    ensures |r.verb| == |s| || IsDelimiter(s[|r.verb|])
    ensures |r.args| <= |s| && r.args == s[|s| - |r.args|..]
    ensures r.args == [] || !IsBlank(r.args[0])
    ensures (|r.verb| == |s| || s[|r.verb|] == '\0') ==> CStr(r.args) == []
  {
    if s == [] || s[0] == '\0' then
      Split([], s)
    else
      var i := DelimiterFrom(s, 0);
      if i == |s| || s[i] == '\0' then
        Split(s[..i], s[i..])
      else
        Split(s[..i], s[BlankRunFrom(s, i + 1)..])
  }

  /** `CStr` is the longest NUL-free prefix. */
  lemma CStrIsPrefix(s: seq<char>)
    ensures var r := CStr(s);
            |r| <= |s| && r == s[..|r|] && '\0' !in r && (|r| == |s| || s[|r|] == '\0')
  {
  }

  /** `SkipBlanks` drops blanks only, and what it leaves does not start with one. */
  lemma SkipBlanksDropsBlanks(s: seq<char>)
    ensures var r := SkipBlanks(s);
            |r| <= |s| && r == s[|s| - |r|..] &&
            (forall k :: 0 <= k < |s| - |r| ==> IsBlank(s[k])) &&
            (r == [] || !IsBlank(r[0]))
  {
  }

  /** A blank run is determined by where it starts: any index that ends one is the one found. */
  lemma BlankRunUnique(s: seq<char>, i: nat, j: nat)
    requires i <= j <= |s|
    requires forall k :: i <= k < j ==> IsBlank(s[k])
    requires j == |s| || !IsBlank(s[j])
    ensures BlankRunFrom(s, i) == j
  {
  }

  /** Likewise for the delimiter scan. */
  lemma DelimiterUnique(s: seq<char>, i: nat, j: nat)
    requires i <= j <= |s|
    requires forall k :: i <= k < j ==> !IsDelimiter(s[k])
    requires j == |s| || IsDelimiter(s[j])
    ensures DelimiterFrom(s, i) == j
  {
  }

  /** Skipping blanks again changes nothing. */
  lemma SkipBlanksIdempotent(s: seq<char>)
    ensures SkipBlanks(SkipBlanks(s)) == SkipBlanks(s)
  {
    var r := SkipBlanks(s);
    BlankRunUnique(r, 0, 0);
  }

  /** Any run of blanks in front of a string that does not start with one is exactly what is skipped. */
  lemma SkipBlanksOfJoin(ws: seq<char>, a: seq<char>)
    requires AllBlank(ws)
    requires a == [] || !IsBlank(a[0])
    ensures SkipBlanks(ws + a) == a
  {
    var s := ws + a;
    BlankRunUnique(s, 0, |ws|);
    assert s[|ws|..] == a;
  }

  /** Blanks in front of a string are skipped along with the string's own leading blanks. */
  lemma SkipBlanksAbsorbs(ws: seq<char>, s: seq<char>)
    requires AllBlank(ws)
    ensures SkipBlanks(ws + s) == SkipBlanks(s)
  {
    var j := BlankRunFrom(s, 0);
    var t := ws + s;
    assert forall k :: 0 <= k < |ws| + j ==> IsBlank(t[k]) by {
      forall k | 0 <= k < |ws| + j ensures IsBlank(t[k]) {
        if k >= |ws| {
          assert t[k] == s[k - |ws|];
        }
      }
    }
    assert |ws| + j == |t| || t[|ws| + j] == s[j];
    BlankRunUnique(t, 0, |ws| + j);
    assert t[|ws| + j..] == s[j..];
  }

  /** The verb is the LONGEST delimiter-free prefix: every such prefix is a prefix of it. */
  lemma VerbIsLongest(s: seq<char>, p: seq<char>)
    requires p <= s && NoDelimiter(p)
    ensures p <= CutNextWord(s).verb
  {
  }

  lemma Reassemble(s: seq<char>, i: nat, n: nat)
    requires i < n <= |s|
    ensures s == s[..i] + [s[i]] + s[i + 1..n] + s[n..]
  {
    assert s[..i] + [s[i]] == s[..i + 1];
    assert s[..i + 1] + s[i + 1..n] == s[..n];
  }

  /**
   When the verb ends at a blank, the input is the verb, that blank, a run of
   blanks, and the arguments, in this order.
   */
  lemma CutReconstructs(s: seq<char>)
    requires var w := CutNextWord(s).verb; |w| < |s| && IsBlank(s[|w|])
    ensures var r := CutNextWord(s);
            |r.verb| < |s| - |r.args| &&
            s == r.verb + [s[|r.verb|]] + s[|r.verb| + 1..|s| - |r.args|] + r.args &&
            AllBlank(s[|r.verb| + 1..|s| - |r.args|])
  {
    var r := CutNextWord(s);
    var i, n := |r.verb|, |s| - |r.args|;
    assert n == BlankRunFrom(s, i + 1);
    assert r.verb == s[..i];
    assert r.args == s[n..];
    Reassemble(s, i, n);
  }

  /**
   The inverse of `CutReconstructs`: joining a word, a blank, a run of blanks
   and arguments that start with no blank, and cutting the result, gives back
   the word and the arguments.
   */
  lemma CutOfJoin(w: seq<char>, d: char, ws: seq<char>, a: seq<char>)
    requires NoDelimiter(w)
    requires IsBlank(d) && AllBlank(ws)
    requires a == [] || !IsBlank(a[0])
    ensures CutNextWord(w + [d] + ws + a) == Split(w, a)
  {
    var s := w + [d] + ws + a;
    var i := |w|;
    assert s[i] == d;
    assert forall k :: 0 <= k < i ==> s[k] == w[k];
    DelimiterUnique(s, 0, i);
    var n := |w| + 1 + |ws|;
    assert forall k :: i + 1 <= k < n ==> s[k] == ws[k - i - 1];
    assert n == |s| || s[n] == a[0];
    BlankRunUnique(s, i + 1, n);
    assert s[..i] == w;
    assert s[n..] == a;
  }

  /** With no delimiter anywhere in the input, the verb is the whole input and the arguments are empty. */
  lemma CutWithoutDelimiter(s: seq<char>)
    requires NoDelimiter(s)
    ensures CutNextWord(s) == Split(s, [])
  {
    if s != [] {
      DelimiterUnique(s, 0, |s|);
    }
  }
}
