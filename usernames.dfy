/** Username derivation: the owner's name is lowercased, split on single
    spaces, and the first letter of each piece is kept, in order
    (`owner.toLowerCase().split(' ').map(name => name.at(0)).join('')`). */
module Usernames {

  /** Lowercasing of one character; only the ASCII letters A-Z change. */
  function LowerChar(c: char): (d: char)
    ensures 'A' <= c <= 'Z' ==> d as int == c as int + 32
    ensures !('A' <= c <= 'Z') ==> d == c
    ensures !('A' <= d <= 'Z')
  {
    if 'A' <= c <= 'Z' then (c as int + 32) as char else c
  }

  function Lower(s: string): (r: string)
    ensures |r| == |s|
    ensures forall i :: 0 <= i < |r| ==> r[i] == LowerChar(s[i])
  {
    if s == [] then [] else [LowerChar(s[0])] + Lower(s[1..])
  }

  /** `split(' ')`: the pieces between single spaces. Two adjacent spaces, or a
      space at either end, give an empty piece; the empty string gives one
      empty piece. */
  function Split(s: string): (pieces: seq<string>)
    ensures |pieces| >= 1
    ensures forall k :: 0 <= k < |pieces| ==> ' ' !in pieces[k]
  {
    if s == [] then [[]]
    else
      var rest := Split(s[1..]);
      if s[0] == ' ' then [[]] + rest
      else [[s[0]] + rest[0]] + rest[1..]
  }

  /** The inverse of Split: the pieces separated by single spaces. */
  function Join(pieces: seq<string>): string
    requires |pieces| >= 1
  {
    if |pieces| == 1 then pieces[0] else pieces[0] + " " + Join(pieces[1..])
  }

  /** `map(name => name.at(0)).join('')`. For an empty piece `at(0)` is
      undefined, which `join` writes as nothing. */
  function Initials(pieces: seq<string>): (r: string)
    ensures |r| <= |pieces|
    ensures (forall k :: 0 <= k < |pieces| ==> pieces[k] != []) ==> |r| == |pieces|
  {
    if pieces == [] then []
    else (if pieces[0] == [] then [] else [pieces[0][0]]) + Initials(pieces[1..])
  }

  function Username(owner: string): string
  {
    Initials(Split(Lower(owner)))
  }

  /** A reference definition that does not split: the characters of s that
      start a word, i.e. that are not a space and follow a space or the start.
      `afterSpace` says whether the character before s was a space (or none). */
  function WordStarts(s: string, afterSpace: bool): string
  {
    if s == [] then []
    else (if s[0] != ' ' && afterSpace then [s[0]] else []) + WordStarts(s[1..], s[0] == ' ')
  }

  // ---------------------------------------------------------------------------
  // Properties
  // ---------------------------------------------------------------------------

  /** Splitting loses nothing: joining the pieces back gives the string. */
  lemma {:induction false} JoinSplit(s: string)
    ensures Join(Split(s)) == s
  {
    if s != [] {
      var rest := Split(s[1..]);
      JoinSplit(s[1..]);
      if s[0] == ' ' {
        assert ([[]] + rest)[1..] == rest;
        assert s == " " + s[1..];
      } else if |rest| == 1 {
        assert s == [s[0]] + s[1..];
      } else {
        var pieces := [[s[0]] + rest[0]] + rest[1..];
        assert pieces[1..] == rest[1..];
        assert Join(rest) == rest[0] + " " + Join(rest[1..]);
        assert s == [s[0]] + s[1..];
      }
    }
  }

  /** Splitting then taking initials picks exactly the word starts; the second
      conjunct covers a string that continues a word already begun. */
  lemma {:induction false} InitialsAreWordStarts(s: string)
    ensures Initials(Split(s)) == WordStarts(s, true)
    ensures Initials(Split(s)[1..]) == WordStarts(s, false)
  {
    if s != [] {
      var rest := Split(s[1..]);
      InitialsAreWordStarts(s[1..]);
      if s[0] == ' ' {
        assert ([[]] + rest)[1..] == rest;
      } else {
        var pieces := [[s[0]] + rest[0]] + rest[1..];
        assert pieces[1..] == rest[1..];
      }
    }
  }

  /** The username is the lowercased first letter of every word of the owner's
      name, in order: it is no longer than the number of space-separated pieces,
      exactly as long when no piece is empty, and holds no space and no
      upper-case ASCII letter. */
  lemma {:induction false} UsernameIsInitials(owner: string)
    ensures Username(owner) == WordStarts(Lower(owner), true)
    ensures |Username(owner)| <= |Split(Lower(owner))|
    ensures forall i :: 0 <= i < |Username(owner)| ==>
              Username(owner)[i] != ' ' && !('A' <= Username(owner)[i] <= 'Z')
  {
    InitialsAreWordStarts(Lower(owner));
    WordStartsAreLetters(Lower(owner), true);
  }

  lemma {:induction false} WordStartsAreLetters(s: string, afterSpace: bool)
    requires forall i :: 0 <= i < |s| ==> !('A' <= s[i] <= 'Z')
    ensures forall i :: 0 <= i < |WordStarts(s, afterSpace)| ==>
              WordStarts(s, afterSpace)[i] != ' ' && !('A' <= WordStarts(s, afterSpace)[i] <= 'Z')
  {
    if s != [] {
      WordStartsAreLetters(s[1..], s[0] == ' ');
    }
  }

  lemma {:induction false} SkipWord(word: string, tail: string)
    requires forall i :: 0 <= i < |word| ==> word[i] != ' '
    ensures WordStarts(word + tail, false) == WordStarts(tail, false)
  {
    if word != [] {
      var s := word + tail;
      assert s[0] == word[0] && s[0] != ' ';
      assert s[1..] == word[1..] + tail;
      assert WordStarts(s, false) == WordStarts(s[1..], false);
      SkipWord(word[1..], tail);
    } else {
      assert word + tail == tail;
    }
  }

  /** A word followed by a space contributes its first letter and nothing else. */
  lemma {:induction false} FirstWord(word: string, tail: string)
    requires word != [] && forall i :: 0 <= i < |word| ==> word[i] != ' '
    ensures WordStarts(word + " " + tail, true) == [word[0]] + WordStarts(tail, true)
  {
    assert (word + " " + tail)[1..] == word[1..] + (" " + tail);
    SkipWord(word[1..], " " + tail);
    assert (" " + tail)[1..] == tail;
  }

  lemma {:induction false} LastWord(word: string)
    requires word != [] && forall i :: 0 <= i < |word| ==> word[i] != ' '
    ensures WordStarts(word, true) == [word[0]]
  {
    assert word[1..] + [] == word[1..];
    SkipWord(word[1..], []);
  }

  /** Lowercasing does not move word boundaries: it maps spaces to spaces only. */
  lemma {:induction false} WordStartsOfLower(s: string, afterSpace: bool)
    ensures WordStarts(Lower(s), afterSpace) == Lower(WordStarts(s, afterSpace))
  {
    if s != [] {
      var l := Lower(s);
      assert l[0] == LowerChar(s[0]) && l[1..] == Lower(s[1..]);
      assert (LowerChar(s[0]) == ' ') == (s[0] == ' ');
      WordStartsOfLower(s[1..], s[0] == ' ');
      var head: string := if s[0] != ' ' && afterSpace then [s[0]] else [];
      LowerConcat(head, WordStarts(s[1..], s[0] == ' '));
    }
  }

  lemma {:induction false} LowerConcat(a: string, b: string)
    ensures Lower(a + b) == Lower(a) + Lower(b)
  {
    if a != [] {
      assert (a + b)[1..] == a[1..] + b;
      LowerConcat(a[1..], b);
    } else {
      assert a + b == b;
    }
  }

  /** The username is the lowercased word starts of the owner's name as written. */
  lemma {:induction false} UsernameFromStarts(owner: string)
    ensures Username(owner) == Lower(WordStarts(owner, true))
  {
    UsernameIsInitials(owner);
    WordStartsOfLower(owner, true);
  }

  /** A two-word name gives the lowercased first letters of its two words. */
  lemma {:induction false} TwoWordUsername(owner: string, first: string, last: string, expected: string)
    requires owner == first + " " + last
    requires first != [] && forall i :: 0 <= i < |first| ==> first[i] != ' '
    requires last != [] && forall i :: 0 <= i < |last| ==> last[i] != ' '
    requires Lower([first[0], last[0]]) == expected
    ensures Username(owner) == expected
  {
    FirstWord(first, last);
    LastWord(last);
    UsernameFromStarts(owner);
  }

  /** A three-word name gives the lowercased first letters of its three words. */
  lemma {:induction false} ThreeWordUsername(owner: string, first: string, middle: string, last: string, expected: string)
    requires owner == first + " " + (middle + " " + last)
    requires first != [] && forall i :: 0 <= i < |first| ==> first[i] != ' '
    requires middle != [] && forall i :: 0 <= i < |middle| ==> middle[i] != ' '
    requires last != [] && forall i :: 0 <= i < |last| ==> last[i] != ' '
    requires Lower([first[0], middle[0], last[0]]) == expected
    ensures Username(owner) == expected
  {
    FirstWord(first, middle + " " + last);
    FirstWord(middle, last);
    LastWord(last);
    UsernameFromStarts(owner);
  }

  /** The usernames of the four seeded owners. Each owner is written as its
      words joined by spaces rather than as one literal, so that the verifier
      follows the word-by-word lemmas instead of evaluating Username on the
      whole string. */
  lemma SeedUsernames()
    ensures Username("Jonas" + " " + "Schmedtmann") == "js"
    ensures Username("Jessica" + " " + "Davis") == "jd"
    ensures Username("Steven" + " " + ("Thomas" + " " + "Williams")) == "stw"
    ensures Username("Sarah" + " " + "Smith") == "ss"
  {
    TwoWordUsername("Jonas" + " " + "Schmedtmann", "Jonas", "Schmedtmann", "js");
    TwoWordUsername("Jessica" + " " + "Davis", "Jessica", "Davis", "jd");
    ThreeWordUsername("Steven" + " " + ("Thomas" + " " + "Williams"), "Steven", "Thomas", "Williams", "stw");
    TwoWordUsername("Sarah" + " " + "Smith", "Sarah", "Smith", "ss");
  }
}
