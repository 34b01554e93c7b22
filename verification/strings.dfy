/** String helpers shared by the character model (lord-marker removal) and
    the translation lookup (splitting on a separator). Strings are plain
    `seq<char>`; no encoding or normalisation is modelled. */
module Strings {

  /** Every occurrence of `c` removed from `s`, the other characters kept in order. */
  function RemoveChar(s: string, c: char): (r: string)
    ensures c !in r
    ensures |r| <= |s|
    ensures c in s ==> |r| < |s|
    ensures c !in s ==> r == s
    ensures forall x :: x != c ==> multiset(r)[x] == multiset(s)[x]
    ensures |s| == 1 ==> r == (if s[0] == c then [] else s)
  {
    if |s| == 0 then ""
    else
      var rest := RemoveChar(s[1..], c);
      assert s == [s[0]] + s[1..];
      if s[0] == c then rest else [s[0]] + rest
  }

  /** Removal works piece by piece; with the single-character case in
      `RemoveChar`'s contract this fixes the result, order included. */
  lemma {:induction false} RemoveCharAppend(a: string, b: string, c: char)
    ensures RemoveChar(a + b, c) == RemoveChar(a, c) + RemoveChar(b, c)
    decreases |a|
  {
    if |a| == 0 {
      assert a + b == b;
    } else {
      assert (a + b)[1..] == a[1..] + b;
      RemoveCharAppend(a[1..], b, c);
    }
  }

  /** Removing a character twice is the same as removing it once. */
  lemma RemoveCharIdempotent(s: string, c: char)
    ensures RemoveChar(RemoveChar(s, c), c) == RemoveChar(s, c)
  {
  }

  predicate EndsWith(s: string, c: char)
  {
    |s| > 0 && s[|s| - 1] == c
  }

  predicate StartsWith(s: string, c: char)
  {
    |s| > 0 && s[0] == c
  }

  /** `s` cut at every `sep`, keeping empty pieces: there is always one more
      piece than there are separators, so the empty string gives one empty piece. */
  function Split(s: string, sep: char): (pieces: seq<string>)
    ensures |pieces| >= 1
    ensures forall i :: 0 <= i < |pieces| ==> sep !in pieces[i]
    ensures sep !in s ==> pieces == [s]
  {
    if |s| == 0 then [""]
    else
      var tail := Split(s[1..], sep);
      assert s == [s[0]] + s[1..];
      if s[0] == sep then [""] + tail
      else [[s[0]] + tail[0]] + tail[1..]
  }

  /** The pieces glued back together with `sep` between neighbours. */
  function Join(pieces: seq<string>, sep: char): string
    requires |pieces| >= 1
  {
    if |pieces| == 1 then pieces[0]
    else pieces[0] + [sep] + Join(pieces[1..], sep)
  }

  /** The pieces concatenated with nothing in between. */
  function Concat(pieces: seq<string>): string
  {
    if |pieces| == 0 then "" else pieces[0] + Concat(pieces[1..])
  }

  /** Prepending a character to the first piece prepends it to the join. */
  lemma JoinPrependFirst(x: char, tail: seq<string>, sep: char)
    requires |tail| >= 1
    ensures Join([[x] + tail[0]] + tail[1..], sep) == [x] + Join(tail, sep)
  {
    var p := [[x] + tail[0]] + tail[1..];
    if |tail| > 1 {
      assert p[1..] == tail[1..];
      assert Join(p, sep) == p[0] + [sep] + Join(tail[1..], sep);
    }
  }

  /** Splitting loses nothing: joining the pieces restores the string. */
  lemma {:induction false} JoinSplit(s: string, sep: char)
    ensures Join(Split(s, sep), sep) == s
    decreases |s|
  {
    if |s| > 0 {
      var tail := Split(s[1..], sep);
      JoinSplit(s[1..], sep);
      assert s == [s[0]] + s[1..];
      if s[0] == sep {
        var pieces := [""] + tail;
        assert Split(s, sep) == pieces;
        assert pieces[0] == "" && pieces[1..] == tail;
        assert Join(pieces, sep) == "" + [sep] + Join(tail, sep);
      } else {
        assert Split(s, sep) == [[s[0]] + tail[0]] + tail[1..];
        JoinPrependFirst(s[0], tail, sep);
      }
    }
  }

  lemma PrependAssociates(x: char, a: string, b: string)
    ensures ([x] + a) + b == [x] + (a + b)
  {
    var l, r := ([x] + a) + b, [x] + (a + b);
    assert |l| == |r|;
    forall i | 0 <= i < |l|
      ensures l[i] == r[i]
    {
      if i > 0 {
        assert l[i] == (a + b)[i - 1];
      }
    }
  }

  lemma ConcatPrependFirst(x: char, tail: seq<string>)
    requires |tail| >= 1
    ensures Concat([[x] + tail[0]] + tail[1..]) == [x] + Concat(tail)
  {
    var p := [[x] + tail[0]] + tail[1..];
    assert p[0] == [x] + tail[0] && p[1..] == tail[1..];
    calc {
      Concat(p);
      p[0] + Concat(p[1..]);
      ([x] + tail[0]) + Concat(tail[1..]);
      { PrependAssociates(x, tail[0], Concat(tail[1..])); }
      [x] + (tail[0] + Concat(tail[1..]));
      [x] + Concat(tail);
    }
  }

  /** Concatenating the pieces drops exactly the separators. */
  lemma {:induction false} ConcatSplit(s: string, sep: char)
    ensures Concat(Split(s, sep)) == RemoveChar(s, sep)
    decreases |s|
  {
    if |s| > 0 {
      var tail := Split(s[1..], sep);
      ConcatSplit(s[1..], sep);
      assert s == [s[0]] + s[1..];
      if s[0] == sep {
        assert Split(s, sep) == [""] + tail;
        assert ([""] + tail)[1..] == tail;
        assert RemoveChar(s, sep) == RemoveChar(s[1..], sep);
      } else {
        assert Split(s, sep) == [[s[0]] + tail[0]] + tail[1..];
        ConcatPrependFirst(s[0], tail);
        assert RemoveChar(s, sep) == [s[0]] + RemoveChar(s[1..], sep);
      }
    }
  }

  /** Sequence concatenation is associative. */
  lemma AppendAssociates<T>(a: seq<T>, b: seq<T>, c: seq<T>)
    ensures a + b + c == a + (b + c)
  {
  }

  /** Gluing a character onto the first piece commutes with appending more
      pieces behind. */
  lemma ExtendFirstPiece(c: char, p: seq<string>, q: seq<string>)
    requires |p| >= 1
    ensures [[c] + (p + q)[0]] + (p + q)[1..] == [[c] + p[0]] + p[1..] + q
  {
    assert (p + q)[1..] == p[1..] + q;
  }

  /** Splitting at one separator splits the two sides independently. */
  lemma {:induction false} SplitAppend(a: string, b: string, sep: char)
    ensures Split(a + [sep] + b, sep) == Split(a, sep) + Split(b, sep)
    decreases |a|
  {
    if |a| == 0 {
      assert a + [sep] + b == [sep] + b;
      assert ([sep] + b)[1..] == b;
    } else {
      var s := a + [sep] + b;
      assert s[0] == a[0] && s[1..] == a[1..] + [sep] + b;
      SplitAppend(a[1..], b, sep);
      var ta := Split(a[1..], sep);
      if a[0] == sep {
        assert Split(a, sep) == [""] + ta;
        AppendAssociates([""], ta, Split(b, sep));
      } else {
        assert Split(a, sep) == [[a[0]] + ta[0]] + ta[1..];
        ExtendFirstPiece(a[0], ta, Split(b, sep));
      }
    }
  }

  /** Concatenation distributes over appending piece lists. */
  lemma {:induction false} ConcatAppend(p: seq<string>, q: seq<string>)
    ensures Concat(p + q) == Concat(p) + Concat(q)
    decreases |p|
  {
    if |p| == 0 {
      assert p + q == q;
    } else {
      assert (p + q)[0] == p[0] && (p + q)[1..] == p[1..] + q;
      ConcatAppend(p[1..], q);
      assert Concat(p + q) == p[0] + (Concat(p[1..]) + Concat(q));
    }
  }
}
