/**
 The handful of Python `str` operations that the last-name sort key is built
 from: `s.split(" ")`, `" ".join(parts)`, `s.lower()` (ASCII letters only)
 and the ordering `a <= b` that `list.sort` uses to compare keys.
 */
module PyStr {

  /** The separator passed to `split`. */
  const Space: char := ' '

  /** `s.split(" ")`: the pieces of `s` between single spaces. Unlike
      `split()` with no argument, consecutive, leading and trailing spaces
      give empty pieces, so the result is never empty. */
  function Split(s: string): (parts: seq<string>)
    ensures |parts| >= 1
  {
    if s == [] then [""]
    else
      var rest := Split(s[1..]);
      if s[0] == Space then [""] + rest
      else [[s[0]] + rest[0]] + rest[1..]
  }

  /** `" ".join(parts)`. */
  function Join(parts: seq<string>): string
  {
    if |parts| == 0 then ""
    else if |parts| == 1 then parts[0]
    else parts[0] + [Space] + Join(parts[1..])
  }

  /** Joining the pieces back with the separator restores the string. */
  lemma {:induction false} JoinSplit(s: string)
    ensures Join(Split(s)) == s
  {
    if s != [] {
      var rest := Split(s[1..]);
      JoinSplit(s[1..]);
      if s[0] == Space {
        assert Split(s) == [""] + rest;
        assert Join(Split(s)) == "" + [Space] + Join(rest);
        assert s == [s[0]] + s[1..];
      } else {
        var parts := Split(s);
        assert parts == [[s[0]] + rest[0]] + rest[1..];
        if |rest| == 1 {
          assert Join(parts) == [s[0]] + rest[0];
          assert s == [s[0]] + s[1..];
        } else {
          assert parts[1..] == rest[1..];
          assert Join(parts) == [s[0]] + rest[0] + [Space] + Join(rest[1..]);
          assert Join(rest) == rest[0] + [Space] + Join(rest[1..]);
          assert s == [s[0]] + s[1..];
        }
      }
    }
  }

  /** No piece contains the separator, and there is one piece more than
      there are spaces in `s`. */
  lemma {:induction false} SplitPieces(s: string)
    ensures forall i :: 0 <= i < |Split(s)| ==> Space !in Split(s)[i]
    ensures |Split(s)| == multiset(s)[Space] + 1
  {
    if s != [] {
      var rest := Split(s[1..]);
      SplitPieces(s[1..]);
      assert s == [s[0]] + s[1..];
      assert multiset(s) == multiset{s[0]} + multiset(s[1..]);
      if s[0] != Space {
        var parts := Split(s);
        assert parts[0] == [s[0]] + rest[0];
        forall i | 0 <= i < |parts| ensures Space !in parts[i] {
          if i > 0 {
            assert parts[i] == rest[i];
          }
        }
      }
    }
  }

  /** `s.split(" ")[-1]`: the last piece. */
  function LastPiece(s: string): string
  {
    var parts := Split(s);
    parts[|parts| - 1]
  }

  /** How the last piece of `s` follows from that of `s[1..]`: the first
      character joins it only when no space follows. */
  lemma LastPieceStep(s: string)
    requires s != []
    ensures s[0] != Space && Space !in s[1..] ==> LastPiece(s) == [s[0]] + LastPiece(s[1..])
    ensures s[0] == Space || Space in s[1..] ==> LastPiece(s) == LastPiece(s[1..])
  {
    var rest := Split(s[1..]);
    SplitPieces(s[1..]);
    assert |rest| == 1 <==> Space !in multiset(s[1..]);
  }

  /** The last piece is exactly the part of `s` after its last space (all of
      `s` when it has no space). */
  lemma {:induction false} LastPieceIsTail(s: string)
    ensures |LastPiece(s)| <= |s|
    ensures LastPiece(s) == s[|s| - |LastPiece(s)|..]
    ensures Space !in LastPiece(s)
    ensures |LastPiece(s)| == |s| || s[|s| - |LastPiece(s)| - 1] == Space
  {
    if s != [] {
      var tail := LastPiece(s[1..]);
      LastPieceIsTail(s[1..]);
      LastPieceStep(s);
      if s[0] != Space && Space !in s[1..] {
        assert forall i :: 0 <= i < |s| - 1 ==> s[1..][i] != Space;
        assert |tail| == |s| - 1;
        assert s == [s[0]] + s[1..];
      } else {
        assert s[1..][|s| - 1 - |tail|..] == s[|s| - |tail|..];
      }
    }
  }

  /** Conversely, the text after a space (or the whole string), when it
      holds no further space, is the last piece. */
  lemma LastPieceAt(s: string, k: nat)
    requires k <= |s| && (k == 0 || s[k - 1] == Space) && Space !in s[k..]
    ensures LastPiece(s) == s[k..]
  {
    LastPieceIsTail(s);
    var t := LastPiece(s);
    var m := |s| - |t|;
    assert forall i :: m <= i < |s| ==> s[i] == t[i - m] && s[i] != Space;
    assert forall i :: k <= i < |s| ==> s[i] == s[k..][i - k] && s[i] != Space;
  }

  /** A string without a space is its own last piece. */
  lemma LastPieceOfOneWord(s: string)
    requires Space !in s
    ensures LastPiece(s) == s
  {
    LastPieceIsTail(s);
    assert forall i :: 0 <= i < |s| ==> s[i] != Space;
  }

  /** A string that ends in a space has the empty string as its last piece. */
  lemma LastPieceAfterTrailingSpace(s: string)
    requires |s| > 0 && s[|s| - 1] == Space
    ensures LastPiece(s) == ""
  {
    LastPieceIsTail(s);
  }

  predicate IsUpper(c: char)
  {
    'A' <= c <= 'Z'
  }

  /** `c.lower()` for ASCII: `A`..`Z` become `a`..`z`, every other character
      is kept. */
  function LowerChar(c: char): (d: char)
  {
    if IsUpper(c) then (c as int - 'A' as int + 'a' as int) as char else c
  }

  /** `s.lower()`, restricted to ASCII letters. */
  function Lower(s: string): (r: string)
    ensures |r| == |s|
    ensures forall i :: 0 <= i < |s| ==> r[i] == LowerChar(s[i])
  {
    if s == [] then [] else [LowerChar(s[0])] + Lower(s[1..])
  }

  /** Lower-casing leaves no upper-case letter, and doing it twice is the
      same as doing it once. */
  lemma LowerIsLowerCase(s: string)
    ensures forall i :: 0 <= i < |Lower(s)| ==> !IsUpper(Lower(s)[i])
    ensures Lower(Lower(s)) == Lower(s)
  {
  }

  /** Two strings that differ only in the case of ASCII letters have the
      same lower-case form. */
  lemma LowerIgnoresCase(s: string, t: string)
    requires |s| == |t|
    requires forall i :: 0 <= i < |s| ==> LowerChar(s[i]) == LowerChar(t[i])
    ensures Lower(s) == Lower(t)
  {
  }

  /** Python's `a <= b` on `str`: lexicographic order of code points, with a
      proper prefix ordered first. */
  predicate LexLe(a: string, b: string)
  {
    if a == [] then true
    else if b == [] then false
    else if a[0] != b[0] then a[0] < b[0]
    else LexLe(a[1..], b[1..])
  }

  lemma {:induction false} LexLeReflexive(a: string)
    ensures LexLe(a, a)
  {
    if a != [] {
      LexLeReflexive(a[1..]);
    }
  }

  lemma {:induction false} LexLeTotal(a: string, b: string)
    ensures LexLe(a, b) || LexLe(b, a)
  {
    if a != [] && b != [] && a[0] == b[0] {
      LexLeTotal(a[1..], b[1..]);
    }
  }

  lemma {:induction false} LexLeAntisymmetric(a: string, b: string)
    requires LexLe(a, b) && LexLe(b, a)
    ensures a == b
  {
    if a != [] && b != [] {
      LexLeAntisymmetric(a[1..], b[1..]);
      assert a == [a[0]] + a[1..] && b == [b[0]] + b[1..];
    }
  }

  lemma {:induction false} LexLeTransitive(a: string, b: string, c: string)
    requires LexLe(a, b) && LexLe(b, c)
    ensures LexLe(a, c)
  {
    if a != [] && b != [] && c != [] && a[0] == b[0] == c[0] {
      LexLeTransitive(a[1..], b[1..], c[1..]);
    }
  }
}
