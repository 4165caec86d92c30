/**
 The three pieces of logic in the anonymous-functions notes: `compute`, the
 in-place sort of a list of full names by last name, and
 `build_quadratic_function`, whose returned closure is modelled as the
 coefficients it captures plus an evaluation function.
 */
module AnonymousFunctions {
  import opened PyStr
  import opened Options
  import opened KeySort

  // ---------------------------------------------------------------------
  // compute
  // ---------------------------------------------------------------------

  /** `compute(number)`: always odd, and the number can be read back from
      the result. */
  function Compute(number: int): (r: int)
    ensures r % 2 == 1
    ensures (r - 1) / 2 == number
  {
    number * 2 + 1
  }

  lemma ComputeOfFour()
    ensures Compute(4) == 9
  {
  }

  // ---------------------------------------------------------------------
  // The sort key and the order it induces
  // ---------------------------------------------------------------------

  /** `name.split(" ")[-1].lower()`. */
  function LastNameKey(name: string): string
  {
    Lower(LastPiece(name))
  }

  /** A name without a space is keyed by the whole name, lower-cased; a name
      that ends in a space is keyed by the empty string. */
  lemma LastNameKeyEdgeCases(name: string)
    ensures Space !in name ==> LastNameKey(name) == Lower(name)
    ensures |name| > 0 && name[|name| - 1] == Space ==> LastNameKey(name) == ""
  {
    if Space !in name {
      LastPieceOfOneWord(name);
    }
    if |name| > 0 && name[|name| - 1] == Space {
      LastPieceAfterTrailingSpace(name);
    }
  }

  /** The key is the lower-cased text after the last space of the name. */
  lemma LastNameKeyIsLoweredTail(name: string)
    ensures exists i :: 0 <= i <= |name| && (i == 0 || name[i - 1] == Space)
                        && Space !in name[i..] && LastNameKey(name) == Lower(name[i..])
  {
    LastPieceIsTail(name);
    var i := |name| - |LastPiece(name)|;
    assert name[i..] == LastPiece(name);
  }

  /** Conversely, the lower-cased text after the last space is the key. */
  lemma LastNameKeyAfterLastSpace(name: string, k: nat, key: string)
    requires k <= |name| && (k == 0 || name[k - 1] == Space) && Space !in name[k..]
    requires Lower(name[k..]) == key
    ensures LastNameKey(name) == key
  {
    LastPieceAt(name, k);
  }

  /** `scifi_authors.sort(key=lambda name: name.split(" ")[-1].lower())`:
      the array ends up in last-name order, a permutation of what it held,
      and the same list any stable sort by that key leaves. */
  method SortByLastName(a: array<string>)
    modifies a
    ensures a[..] == SortByKey(old(a[..]), LastNameKey)
    ensures multiset(a[..]) == multiset(old(a[..]))
    ensures SortedByKey(a[..], LastNameKey)
  {
    Sort(a, LastNameKey);
  }

  /** Keys of the sample names: the last word, lower-cased. */
  lemma SampleKeys()
    ensures LastNameKey("Bob Zed") == "zed"
    ensures LastNameKey("Ann Lee") == "lee"
    ensures LastNameKey("Cy lee") == "lee"
    ensures LastNameKey("Bob LEE") == "lee"
  {
    assert "Bob Zed"[4..] == "Zed" && Lower("Zed") == "zed";
    assert "Ann Lee"[4..] == "Lee" && Lower("Lee") == "lee";
    assert "Cy lee"[3..] == "lee" && Lower("lee") == "lee";
    assert "Bob LEE"[4..] == "LEE" && Lower("LEE") == "lee";
    LastNameKeyAfterLastSpace("Bob Zed", 4, "zed");
    LastNameKeyAfterLastSpace("Ann Lee", 4, "lee");
    LastNameKeyAfterLastSpace("Cy lee", 3, "lee");
    LastNameKeyAfterLastSpace("Bob LEE", 4, "lee");
  }

  /** Two names in reverse last-name order swap places. */
  lemma SortTwoNames()
    ensures SortByKey(["Bob Zed", "Ann Lee"], LastNameKey) == ["Ann Lee", "Bob Zed"]
  {
    SampleKeys();
    assert !LexLe("zed", "lee");
    SortTwo("Bob Zed", "Ann Lee", LastNameKey);
  }

  /** Last names that differ only in letter case tie, and the tied names
      keep their original order: "Cy lee" stays ahead of "Bob LEE", and both
      move ahead of "Bob Zed". */
  lemma SortTiedNames()
    ensures SortByKey(["Cy lee", "Bob Zed", "Bob LEE"], LastNameKey)
         == ["Cy lee", "Bob LEE", "Bob Zed"]
  {
    SampleKeys();
    assert LexLe("lee", "zed") && !LexLe("zed", "lee") && LexLe("lee", "lee");
    SortThree("Cy lee", "Bob Zed", "Bob LEE", LastNameKey);
  }

  // ---------------------------------------------------------------------
  // build_quadratic_function
  // ---------------------------------------------------------------------

  /** The closure returned by `build_quadratic_function(a, b, c)`: the three
      coefficients it captures, and what calling it computes. */
  datatype QuadraticFunction = QuadraticFunction(a: int, b: int, c: int)
  {
    /** `f(x)`, that is `a*x**2 + b*x + c`. */
    function Call(x: int): int
    {
      a * (x * x) + b * x + c
    }
  }

  /** `build_quadratic_function(a, b, c)`: the returned function computes
      `a*x*x + b*x + c` at every `x`. */
  function BuildQuadraticFunction(a: int, b: int, c: int): (f: QuadraticFunction)
    ensures forall x :: f.Call(x) == a * x * x + b * x + c
  {
    QuadraticFunction(a, b, c)
  }

  /** Recovers the coefficients from the values at 0, 1 and 2, when they
      are those of a quadratic with integer coefficients. */
  function FromSamples(f0: int, f1: int, f2: int): Option<QuadraticFunction>
  {
    var twiceA := f2 - 2 * f1 + f0;
    if twiceA % 2 != 0 then None
    else
      var a := twiceA / 2;
      Some(QuadraticFunction(a, f1 - f0 - a, f0))
  }

  /** The built function determines the coefficients it captured: they can
      be read back from three of its values. */
  lemma SamplesDetermineFunction(a: int, b: int, c: int)
    ensures var f := BuildQuadraticFunction(a, b, c);
            FromSamples(f.Call(0), f.Call(1), f.Call(2)) == Some(f)
  {
    var f := BuildQuadraticFunction(a, b, c);
    assert f == QuadraticFunction(a, b, c);
    assert f.Call(0) == c;
    assert f.Call(1) == a + b + c;
    assert f.Call(2) == 4 * a + 2 * b + c;
    var twiceA := f.Call(2) - 2 * f.Call(1) + f.Call(0);
    assert twiceA == 2 * a;
    assert twiceA % 2 == 0 && twiceA / 2 == a;
  }

  /** The second difference of the built function is `2a` everywhere. */
  lemma SecondDifference(a: int, b: int, c: int, x: int)
    ensures var f := BuildQuadraticFunction(a, b, c);
            f.Call(x + 1) - 2 * f.Call(x) + f.Call(x - 1) == 2 * a
  {
    var f := BuildQuadraticFunction(a, b, c);
    assert (x + 1) * (x + 1) == x * x + 2 * x + 1;
    assert (x - 1) * (x - 1) == x * x - 2 * x + 1;
    assert a * ((x + 1) * (x + 1)) + a * ((x - 1) * (x - 1)) == 2 * a * (x * x) + 2 * a;
  }

  /** The example in the notes: `f = build_quadratic_function(2, 3, -5)`. */
  lemma QuadraticExample()
    ensures BuildQuadraticFunction(2, 3, -5).Call(0) == -5
    ensures BuildQuadraticFunction(2, 3, -5).Call(1) == 0
    ensures BuildQuadraticFunction(2, 3, -5).Call(2) == 9
  {
  }
}
