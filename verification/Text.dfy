/** The few Python string operations the front end relies on, written out:
    str.isspace, str.strip(), str.split(), sep.join(parts), str.lower() on
    ASCII letters, and the substring test `needle in hay`. The front end never
    calls str.split(sep); SplitOn is here only to state that a join can be
    split back into its parts. */
module Text {

  /** Python's str.isspace() for a single character (the Unicode White_Space
      characters Python treats as separators). */
  predicate IsSpace(c: char) {
    || ('\t' <= c <= '\r')
    || ('\U{1C}' <= c <= '\U{1F}')
    || c == ' '
    || c == '\U{85}'
    || c == '\U{A0}'
    || c == '\U{1680}'
    || ('\U{2000}' <= c <= '\U{200A}')
    || c == '\U{2028}'
    || c == '\U{2029}'
    || c == '\U{202F}'
    || c == '\U{205F}'
    || c == '\U{3000}'
  }

  /** Every character of s is whitespace (the empty string included). */
  predicate Blank(s: string) {
    forall i :: 0 <= i < |s| ==> IsSpace(s[i])
  }

  /** No character of s is whitespace. */
  predicate NoSpace(s: string) {
    forall i :: 0 <= i < |s| ==> !IsSpace(s[i])
  }

  /** s without its leading whitespace: a suffix of s, everything cut off is
      whitespace, and what is left does not start with whitespace. */
  function StripLeft(s: string): (r: string)
    ensures |r| <= |s| && r == s[|s| - |r|..]
    ensures Blank(s[..|s| - |r|])
    ensures r == [] || !IsSpace(r[0])
  {
    if s != [] && IsSpace(s[0]) then
      var r := StripLeft(s[1..]);
      assert s[..|s| - |r|] == [s[0]] + s[1..][..|s| - 1 - |r|];
      r
    else s
  }

  /** s without its trailing whitespace: a prefix of s, everything cut off is
      whitespace, and what is left does not end with whitespace. */
  function StripRight(s: string): (r: string)
    ensures |r| <= |s| && r == s[..|r|]
    ensures Blank(s[|r|..])
    ensures r == [] || !IsSpace(r[|r| - 1])
  {
    if s != [] && IsSpace(s[|s| - 1]) then
      var r := StripRight(s[..|s| - 1]);
      assert s[|r|..] == s[..|s| - 1][|r|..] + [s[|s| - 1]];
      r
    else s
  }

  /** Python's str.strip() with no argument. */
  function Strip(s: string): string {
    StripRight(StripLeft(s))
  }

  /** A stripped field is empty exactly when the field held only whitespace;
      this is what makes a ZIP or Area field count as "not given". */
  lemma StripEmptyIffBlank(s: string)
    ensures Strip(s) == [] <==> Blank(s)
  {
    var l := StripLeft(s);
    assert s == s[..|s| - |l|] + l;
    if Strip(s) == [] {
      assert Blank(l[0..]);
      assert l == [];
      assert s == s[..|s|];
    } else {
      assert l != [];
      assert s[|s| - |l|] == l[0];
    }
  }

  /** The longest prefix of s that holds no whitespace. */
  function Word(s: string): (w: string)
    ensures |w| <= |s| && w == s[..|w|] && NoSpace(w)
    ensures |w| == |s| || IsSpace(s[|w|])
  {
    if s == [] || IsSpace(s[0]) then [] else [s[0]] + Word(s[1..])
  }

  /** Python's str.split() with no argument: the maximal runs of
      non-whitespace characters of s, in order. */
  function Split(s: string): (words: seq<string>)
    ensures forall k :: 0 <= k < |words| ==> words[k] != [] && NoSpace(words[k])
    decreases |s|
  {
    if s == [] then []
    else if IsSpace(s[0]) then Split(s[1..])
    else
      var w := Word(s);
      [w] + Split(s[|w|..])
  }

  /** Splitting yields no word at all exactly when s is only whitespace. */
  lemma {:induction false} SplitEmptyIffBlank(s: string)
    ensures Split(s) == [] <==> Blank(s)
    decreases |s|
  {
    if s != [] && IsSpace(s[0]) {
      SplitEmptyIffBlank(s[1..]);
      assert forall i :: 1 <= i < |s| ==> s[i] == s[1..][i - 1];
    }
  }

  /** A whitespace-free word followed by whitespace or by nothing is read as
      one whole word. */
  lemma {:induction false} WordBeforeSpace(w: string, rest: string)
    requires NoSpace(w)
    requires rest == [] || IsSpace(rest[0])
    ensures Word(w + rest) == w
  {
    if w == [] {
      assert w + rest == rest;
    } else {
      WordBeforeSpace(w[1..], rest);
      assert (w + rest)[1..] == w[1..] + rest;
      assert [w[0]] + w[1..] == w;
    }
  }

  /** Leading whitespace is skipped. */
  lemma SplitSkipsSpace(c: char, s: string)
    requires IsSpace(c)
    ensures Split([c] + s) == Split(s)
  {
    assert ([c] + s)[1..] == s;
  }

  /** Text after a whitespace character does not change the word before it. */
  lemma {:induction false} WordExtend(a: string, t: string)
    requires t == [] || IsSpace(t[0])
    ensures Word(a + t) == Word(a)
  {
    if a == [] {
      assert a + t == t;
    } else {
      assert (a + t)[0] == a[0];
      if !IsSpace(a[0]) {
        WordExtend(a[1..], t);
        assert (a + t)[1..] == a[1..] + t;
      }
    }
  }

  /** A whitespace character separates: the words of `a`, one blank, then `b`
      are the words of `a` followed by the words of `b`, however `a` and `b`
      are spaced themselves. */
  lemma {:induction false} SplitAtSpace(a: string, c: char, b: string)
    requires IsSpace(c)
    ensures Split(a + [c] + b) == Split(a) + Split(b)
    decreases |a|
  {
    if a == [] {
      assert a + [c] + b == [c] + b;
      SplitSkipsSpace(c, b);
    } else if IsSpace(a[0]) {
      SplitAtSpace(a[1..], c, b);
      SplitAtSpaceSkip(a, c, b);
    } else {
      SplitAtSpace(a[|Word(a)|..], c, b);
      SplitAtSpaceWord(a, c, b);
    }
  }

  /** The step of SplitAtSpace over leading whitespace of `a`. */
  lemma SplitAtSpaceSkip(a: string, c: char, b: string)
    requires a != [] && IsSpace(a[0])
    requires Split(a[1..] + [c] + b) == Split(a[1..]) + Split(b)
    ensures Split(a + [c] + b) == Split(a) + Split(b)
  {
    var s := a + [c] + b;
    assert s[0] == a[0];
    assert s[1..] == a[1..] + [c] + b;
  }

  /** The step of SplitAtSpace over the first word of `a`. */
  lemma SplitAtSpaceWord(a: string, c: char, b: string)
    requires IsSpace(c) && a != [] && !IsSpace(a[0])
    requires Split(a[|Word(a)|..] + [c] + b) == Split(a[|Word(a)|..]) + Split(b)
    ensures Split(a + [c] + b) == Split(a) + Split(b)
  {
    var w := Word(a);
    var rest := a[|w|..];
    var t := [c] + b;
    ConcatAssoc(a, [c], b);
    ConcatAssoc(rest, [c], b);
    WordExtend(a, t);
    assert (a + t)[0] == a[0];
    DropConcat(a, t, |w|);
    SplitFirstWord(a + t);
    SplitFirstWord(a);
    ConcatAssoc([w], Split(rest), Split(b));
  }

  /** Text that starts with a word splits into that word and the words after it. */
  lemma SplitFirstWord(s: string)
    requires s != [] && !IsSpace(s[0])
    ensures Split(s) == [Word(s)] + Split(s[|Word(s)|..])
  {
  }

  /** Concatenation is associative. */
  lemma ConcatAssoc<T>(x: seq<T>, y: seq<T>, z: seq<T>)
    ensures x + y + z == x + (y + z)
  {
  }

  /** Dropping a prefix of the left operand of a concatenation. */
  lemma DropConcat<T>(x: seq<T>, y: seq<T>, k: nat)
    requires k <= |x|
    ensures (x + y)[k..] == x[k..] + y
  {
  }

  /** Words separated by single blanks split back into those words, in order:
      each word is one maximal whitespace-free run of the text. */
  lemma {:induction false} SplitJoin(words: seq<string>)
    requires forall k :: 0 <= k < |words| ==> words[k] != [] && NoSpace(words[k])
    ensures Split(Join(" ", words)) == words
  {
    if |words| == 1 {
      var w := words[0];
      WordBeforeSpace(w, []);
      assert w + [] == w;
      assert w[|w|..] == [];
    } else if |words| >= 2 {
      var w := words[0];
      var rest := Join(" ", words[1..]);
      SplitJoin(words[1..]);
      var s := w + (" " + rest);
      assert Join(" ", words) == s;
      WordBeforeSpace(w, " " + rest);
      assert s[0] == w[0];
      assert s[|w|..] == " " + rest;
      SplitSkipsSpace(' ', rest);
      assert words == [w] + words[1..];
    }
  }

  /** Python's sep.join(parts). */
  function Join(sep: string, parts: seq<string>): string {
    if |parts| == 0 then []
    else if |parts| == 1 then parts[0]
    else parts[0] + sep + Join(sep, parts[1..])
  }

  /** With a non-empty separator, a join is empty only for no parts or for one
      empty part. */
  lemma {:induction false} JoinEmptyIff(sep: string, parts: seq<string>)
    requires sep != []
    ensures Join(sep, parts) == [] <==> parts == [] || parts == [[]]
  {
    if |parts| >= 2 {
      assert |Join(sep, parts)| >= |sep|;
    }
  }

  /** A join of whitespace-free parts with a whitespace-free separator holds
      no whitespace. */
  lemma {:induction false} JoinNoSpace(sep: string, parts: seq<string>)
    requires NoSpace(sep)
    requires forall k :: 0 <= k < |parts| ==> NoSpace(parts[k])
    ensures NoSpace(Join(sep, parts))
  {
    if |parts| >= 2 {
      JoinNoSpace(sep, parts[1..]);
      var rest := Join(sep, parts[1..]);
      assert Join(sep, parts) == parts[0] + sep + rest;
      forall i | 0 <= i < |parts[0] + sep + rest|
        ensures !IsSpace((parts[0] + sep + rest)[i])
      {
        if i < |parts[0]| {
        } else if i < |parts[0]| + |sep| {
          assert (parts[0] + sep + rest)[i] == sep[i - |parts[0]|];
        } else {
          assert (parts[0] + sep + rest)[i] == rest[i - |parts[0]| - |sep|];
        }
      }
    }
  }

  /** Python's s.split(sep) for a one-character separator: the pieces between
      separators, empty pieces kept, so there is always at least one. */
  function SplitOn(sep: char, s: string): (pieces: seq<string>)
    ensures |pieces| >= 1
    ensures forall k :: 0 <= k < |pieces| ==> sep !in pieces[k]
  {
    if s == [] then [[]]
    else
      var rest := SplitOn(sep, s[1..]);
      if s[0] == sep then [[]] + rest else [[s[0]] + rest[0]] + rest[1..]
  }

  /** Text free of the separator glues onto the first piece. */
  lemma {:induction false} SplitOnPrefix(sep: char, a: string, b: string)
    requires sep !in a
    ensures SplitOn(sep, a + b) == [a + SplitOn(sep, b)[0]] + SplitOn(sep, b)[1..]
  {
    if a != [] {
      SplitOnPrefix(sep, a[1..], b);
      assert (a + b)[1..] == a[1..] + b;
      assert (a + b)[0] == a[0];
      assert [a[0]] + (a[1..] + SplitOn(sep, b)[0]) == a + SplitOn(sep, b)[0];
    } else {
      var p := SplitOn(sep, b);
      assert a + b == b;
      assert a + p[0] == p[0];
      assert p == [p[0]] + p[1..];
    }
  }

  /** Joining pieces that do not contain the separator and splitting the
      result on it gives the pieces back. */
  lemma {:induction false} SplitOnJoin(sep: char, parts: seq<string>)
    requires |parts| >= 1
    requires forall k :: 0 <= k < |parts| ==> sep !in parts[k]
    ensures SplitOn(sep, Join([sep], parts)) == parts
  {
    if |parts| == 1 {
      SplitOnPrefix(sep, parts[0], []);
      assert parts[0] + [] == parts[0];
    } else {
      var rest := Join([sep], parts[1..]);
      SplitOnJoin(sep, parts[1..]);
      assert ([sep] + rest)[1..] == rest;
      assert SplitOn(sep, [sep] + rest) == [[]] + parts[1..];
      SplitOnPrefix(sep, parts[0], [sep] + rest);
      assert Join([sep], parts) == parts[0] + ([sep] + rest);
      assert parts[0] + [] == parts[0];
    }
  }

  /** Python's str.lower() on one character, for ASCII letters only. */
  function LowerChar(c: char): char {
    if 'A' <= c <= 'Z' then (c as int + 32) as char else c
  }

  /** Python's str.lower(), ASCII letters only. */
  function Lower(s: string): (r: string)
    ensures |r| == |s|
    ensures forall i :: 0 <= i < |s| ==> r[i] == LowerChar(s[i])
  {
    if s == [] then [] else [LowerChar(s[0])] + Lower(s[1..])
  }

  /** needle starts at index i of hay. */
  predicate OccursAt(needle: string, hay: string, i: int) {
    0 <= i && i + |needle| <= |hay| && hay[i..i + |needle|] == needle
  }

  /** Python's `needle in hay` on strings, as a left-to-right scan. */
  predicate Contains(hay: string, needle: string)
    decreases |hay|
  {
    || (|needle| <= |hay| && hay[..|needle|] == needle)
    || (hay != [] && Contains(hay[1..], needle))
  }

  /** The scan agrees with the definition of a substring: some index of hay
      starts an occurrence of needle. */
  lemma {:induction false} ContainsIffOccurs(hay: string, needle: string)
    ensures Contains(hay, needle) <==> exists i :: OccursAt(needle, hay, i)
    decreases |hay|
  {
    if hay != [] {
      ContainsIffOccurs(hay[1..], needle);
      if Contains(hay[1..], needle) {
        var i :| OccursAt(needle, hay[1..], i);
        assert hay[1..][i..i + |needle|] == hay[i + 1..i + 1 + |needle|];
        assert OccursAt(needle, hay, i + 1);
      }
      if |needle| <= |hay| && hay[..|needle|] == needle {
        assert OccursAt(needle, hay, 0);
      }
      if i :| OccursAt(needle, hay, i) && i > 0 {
        assert hay[1..][i - 1..i - 1 + |needle|] == hay[i..i + |needle|];
        assert OccursAt(needle, hay[1..], i - 1);
      }
    } else {
      if Contains(hay, needle) {
        assert OccursAt(needle, hay, 0);
      }
      if i :| OccursAt(needle, hay, i) {
        assert needle == [];
      }
    }
  }
}
