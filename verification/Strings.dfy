/**
 * The Python string operations the export relies on: `str.split(sep)` with a
 * non-empty separator, its inverse `sep.join(parts)`, and `str.replace(phrase, '')`.
 */
module Strings {

  /** No string is listed twice. */
  predicate NoDuplicates(s: seq<string>)
  {
    forall i, j :: 0 <= i < j < |s| ==> s[i] != s[j]
  }

  /** `sub` occurs in `s` starting at position `i`. */
  predicate OccursAt(s: string, sub: string, i: int)
  {
    0 <= i && i + |sub| <= |s| && s[i..i + |sub|] == sub
  }

  /** `sub` occurs nowhere in `s`. */
  predicate Free(s: string, sub: string)
  {
    forall i :: 0 <= i <= |s| ==> !OccursAt(s, sub, i)
  }

  /** An occurrence in a suffix is an occurrence in the whole string, shifted. */
  lemma OccursInSuffix(s: string, sub: string, k: int, i: int)
    requires 0 <= k <= |s|
    requires OccursAt(s[k..], sub, i)
    ensures OccursAt(s, sub, k + i)
  {
    assert s[k..][i..i + |sub|] == s[k + i..k + i + |sub|];
  }

  /** An occurrence inside a prefix is an occurrence in the whole string. */
  lemma OccursInPrefix(s: string, sub: string, k: int, i: int)
    requires 0 <= k <= |s|
    requires OccursAt(s[..k], sub, i)
    ensures OccursAt(s, sub, i)
  {
    assert s[..k][i..i + |sub|] == s[i..i + |sub|];
  }

  /** The first position at which `sep` occurs, if any. */
  function IndexOf(s: string, sep: string): (r: int)
    requires |sep| > 0
    ensures r == -1 ==> Free(s, sep)
    ensures r != -1 ==> OccursAt(s, sep, r) && forall i :: i < r ==> !OccursAt(s, sep, i)
    decreases |s|
  {
    if |s| < |sep| then -1
    else if s[..|sep|] == sep then 0
    else
      var k := IndexOf(s[1..], sep);
      assert forall i :: OccursAt(s, sep, i) && i > 0 ==> OccursAt(s[1..], sep, i - 1) by {
        forall i | OccursAt(s, sep, i) && i > 0
          ensures OccursAt(s[1..], sep, i - 1)
        {
          assert s[1..][i - 1..i - 1 + |sep|] == s[i..i + |sep|];
        }
      }
      if k == -1 then -1
      else
        OccursInSuffix(s, sep, 1, k);
        k + 1
  }

  /** `sep` occurs at position `i` of `s` and nowhere before it. */
  predicate FirstAt(s: string, sep: string, i: int)
  {
    OccursAt(s, sep, i) && forall j :: 0 <= j < i ==> !OccursAt(s, sep, j)
  }

  /** The first occurrence of `sep` in `s` is also the first in the text before it followed by `sep`. */
  lemma LeftmostInPrefix(s: string, sep: string, i: int)
    requires FirstAt(s, sep, i)
    ensures FirstAt(s[..i] + sep, sep, i)
  {
    var p := s[..i + |sep|];
    assert s[..i] + sep == p;
    assert p[i..i + |sep|] == s[i..i + |sep|];
    forall j | 0 <= j < i
      ensures !OccursAt(p, sep, j)
    {
      if OccursAt(p, sep, j) {
        OccursInPrefix(s, sep, i + |sep|, j);
      }
    }
  }

  /** Putting a piece whose separator is leftmost in front of pieces with the same property keeps it. */
  lemma LeftmostPieces(head: string, rest: seq<string>, sep: string)
    requires FirstAt(head + sep, sep, |head|)
    requires forall k :: 0 <= k < |rest| - 1 ==> FirstAt(rest[k] + sep, sep, |rest[k]|)
    ensures forall k :: 0 <= k < |[head] + rest| - 1 ==> FirstAt(([head] + rest)[k] + sep, sep, |([head] + rest)[k]|)
  {
    forall k | 0 <= k < |[head] + rest| - 1
      ensures FirstAt(([head] + rest)[k] + sep, sep, |([head] + rest)[k]|)
    {
      if k > 0 {
        assert ([head] + rest)[k] == rest[k - 1];
      }
    }
  }

  /** `sep.join(parts)`. */
  function Join(parts: seq<string>, sep: string): string
    requires |parts| > 0
  {
    if |parts| == 1 then parts[0] else parts[0] + sep + Join(parts[1..], sep)
  }

  /**
   * `s.split(sep)`: the pieces between the occurrences of `sep` found scanning left
   * to right.  Joining them again gives `s` back, no piece contains `sep`, and there
   * is a single piece exactly when `sep` does not occur; otherwise its first
   * occurrence ends the first piece, and every separator taken is the leftmost one
   * after the piece before it (which matters when `sep` overlaps itself).
   */
  function Split(s: string, sep: string): (parts: seq<string>)
    requires |sep| > 0
    ensures |parts| > 0
    ensures Join(parts, sep) == s
    ensures forall k :: 0 <= k < |parts| ==> Free(parts[k], sep)
    ensures |parts| == 1 <==> Free(s, sep)
    ensures |parts| > 1 ==> IndexOf(s, sep) == |parts[0]|
    ensures forall k :: 0 <= k < |parts| - 1 ==> FirstAt(parts[k] + sep, sep, |parts[k]|)
    decreases |s|
  {
    var i := IndexOf(s, sep);
    if i == -1 then [s]
    else
      var head := s[..i];
      var rest := Split(s[i + |sep|..], sep);
      assert Free(head, sep) by {
        forall j | OccursAt(head, sep, j)
          ensures false
        {
          OccursInPrefix(s, sep, i, j);
        }
      }
      assert s == head + sep + s[i + |sep|..];
      LeftmostInPrefix(s, sep, i);
      var parts := [head] + rest;
      assert parts[1..] == rest;
      LeftmostPieces(head, rest, sep);
      parts
  }

  /** The text before the first occurrence of `sep`, or all of `s` when there is none (`s.partition(sep)[0]`). */
  function Before(s: string, sep: string): string
    requires |sep| > 0
  {
    var i := IndexOf(s, sep);
    if i == -1 then s else s[..i]
  }

  /** The text after the first occurrence of `sep`, or "" when there is none (`s.partition(sep)[2]`). */
  function After(s: string, sep: string): string
    requires |sep| > 0
  {
    var i := IndexOf(s, sep);
    if i == -1 then "" else s[i + |sep|..]
  }

  /**
   * The first piece of a split is the text before the first separator, and the other
   * pieces, joined again, are the text after it.
   */
  lemma SplitHead(s: string, sep: string)
    requires |sep| > 0
    ensures Split(s, sep)[0] == Before(s, sep)
    ensures |Split(s, sep)| > 1 ==> Join(Split(s, sep)[1..], sep) == After(s, sep)
  {
    var parts := Split(s, sep);
    if |parts| > 1 {
      var i := IndexOf(s, sep);
      assert s == parts[0] + sep + Join(parts[1..], sep);
      assert s[..i] == parts[0];
      assert s[i + |sep|..] == Join(parts[1..], sep);
    }
  }

  /** A first occurrence that ends a string is still the first once more text follows. */
  lemma FirstAtExtended(head: string, tail: string, sep: string, k: int)
    requires |sep| > 0 && k + |sep| == |head| && FirstAt(head, sep, k)
    ensures IndexOf(head + tail, sep) == k
  {
    var s := head + tail;
    assert s[k..k + |sep|] == head[k..k + |sep|];
    forall j | 0 <= j < k
      ensures !OccursAt(s, sep, j)
    {
      assert !OccursAt(head, sep, j);
      assert j + |sep| <= |head|;
      assert s[j..j + |sep|] == head[j..j + |sep|];
    }
    assert OccursAt(s, sep, k);
    var r := IndexOf(s, sep);
    assert r != -1 by {
      assert !Free(s, sep);
    }
    assert r <= k;
    assert r >= k;
  }

  /** Before the first separator of joined pieces lies the first piece, when each separator is the leftmost. */
  lemma BeforeOfJoin(pieces: seq<string>, sep: string)
    requires |sep| > 0 && |pieces| > 0 && Free(pieces[0], sep)
    requires |pieces| > 1 ==> FirstAt(pieces[0] + sep, sep, |pieces[0]|)
    ensures Before(Join(pieces, sep), sep) == pieces[0]
  {
    var s := Join(pieces, sep);
    if |pieces| > 1 {
      var head := pieces[0] + sep;
      var tail := Join(pieces[1..], sep);
      assert s == head + tail;
      FirstAtExtended(head, tail, sep, |pieces[0]|);
      assert s[..|pieces[0]|] == pieces[0];
    } else {
      assert s == pieces[0];
    }
  }

  /**
   * `text.replace(phrase, '')`: every non-overlapping occurrence, scanning left to
   * right, deleted; an empty phrase leaves the text as it is.  Text free of the
   * phrase is unchanged, and the result is never longer.
   */
  function DeleteOccurrences(text: string, phrase: string): (r: string)
    ensures |r| <= |text|
    ensures Free(text, phrase) ==> r == text
    decreases |text|
  {
    if |phrase| == 0 || |text| < |phrase| then text
    else if text[..|phrase|] == phrase then
      assert OccursAt(text, phrase, 0);
      DeleteOccurrences(text[|phrase|..], phrase)
    else
      var rest := DeleteOccurrences(text[1..], phrase);
      assert Free(text, phrase) ==> Free(text[1..], phrase) by {
        forall i | OccursAt(text[1..], phrase, i)
          ensures OccursAt(text, phrase, i + 1)
        {
          OccursInSuffix(text, phrase, 1, i);
        }
      }
      [text[0]] + rest
  }

  /**
   * Splitting text that does not start with the separator: its first character
   * begins the first piece of the split of the rest.
   */
  lemma SplitCons(text: string, sep: string)
    requires 0 < |sep| <= |text| && text[..|sep|] != sep
    ensures Split(text, sep) == [[text[0]] + Split(text[1..], sep)[0]] + Split(text[1..], sep)[1..]
  {
    var tail := text[1..];
    var k := IndexOf(tail, sep);
    if k != -1 {
      var later := Split(text[k + 1 + |sep|..], sep);
      assert Split(text, sep) == [text[..k + 1]] + later by {
        assert IndexOf(text, sep) == k + 1;
      }
      assert Split(tail, sep) == [tail[..k]] + later by {
        assert tail[k + |sep|..] == text[k + 1 + |sep|..];
      }
      ConsTake(text, k + 1);
    } else {
      assert Split(text, sep) == [text] by {
        assert IndexOf(text, sep) == -1;
      }
      assert [text[0]] + tail == text;
    }
  }

  /** A prefix is its first character followed by a prefix of the rest; a step of `SplitCons`. */
  lemma ConsTake(text: string, j: int)
    requires 0 < j <= |text|
    ensures text[..j] == [text[0]] + text[1..][..j - 1]
  {
  }

  /** Joining with nothing between the pieces, a character in front of the first piece comes first. */
  lemma JoinCons(c: char, parts: seq<string>)
    requires |parts| > 0
    ensures Join([[c] + parts[0]] + parts[1..], "") == [c] + Join(parts, "")
  {
    var moved := [[c] + parts[0]] + parts[1..];
    if |parts| > 1 {
      var later := Join(parts[1..], "");
      assert moved[1..] == parts[1..];
      assert Join(moved, "") == ([c] + parts[0]) + "" + later;
      assert Join(parts, "") == parts[0] + "" + later;
      AppendAround([c], parts[0], later);
    }
  }

  /** Concatenation around an empty separator regroups freely; a step of `JoinCons`. */
  lemma AppendAround(a: string, b: string, x: string)
    ensures (a + b) + "" + x == a + (b + "" + x)
  {
    assert b + "" == b;
    assert (a + b) + "" == a + b;
  }

  /**
   * Deleting a non-empty phrase is splitting at it and joining the pieces with
   * nothing between them, Python's `s.replace(p, '') == ''.join(s.split(p))`.
   */
  lemma {:induction false} DeleteOccurrencesIsSplitJoin(text: string, phrase: string)
    requires |phrase| > 0
    ensures DeleteOccurrences(text, phrase) == Join(Split(text, phrase), "")
    decreases |text|
  {
    if |text| < |phrase| {
      assert IndexOf(text, phrase) == -1;
    } else if text[..|phrase|] == phrase {
      var rest := text[|phrase|..];
      assert IndexOf(text, phrase) == 0;
      var parts := Split(text, phrase);
      assert parts == [[]] + Split(rest, phrase);
      assert parts[1..] == Split(rest, phrase);
      DeleteOccurrencesIsSplitJoin(rest, phrase);
    } else {
      DeleteOccurrencesIsSplitJoin(text[1..], phrase);
      SplitCons(text, phrase);
      JoinCons(text[0], Split(text[1..], phrase));
    }
  }
}
