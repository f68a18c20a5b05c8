/** Deriving the headquarters' system symbol from its waypoint symbol. The dashboard splits
    the symbol on '-' with JavaScript's `split`, destructures the first two pieces and joins
    them again with '-' to name the system it fetches. */
module Headquarters {

  const Separator := '-'

  /** True when `s` holds no separator. */
  predicate DashFree(s: string) {
    Separator !in s
  }

  /** The pieces joined with the separator between consecutive ones. */
  function Join(parts: seq<string>): string
    requires |parts| > 0
    decreases |parts|
  {
    if |parts| == 1 then parts[0]
    else parts[0] + [Separator] + Join(parts[1..])
  }

  /** `s.split("-")`: the maximal separator-free pieces, empty pieces kept, at least one. */
  function Split(s: string): (parts: seq<string>)
    ensures |parts| > 0
    ensures forall i :: 0 <= i < |parts| ==> DashFree(parts[i])
    ensures Join(parts) == s
    decreases |s|
  {
    if |s| == 0 then [""]
    else
      var rest := Split(s[1..]);
      if s[0] == Separator then [""] + rest
      else [[s[0]] + rest[0]] + rest[1..]
  }

  /** Splitting a separator-free string yields the string alone. */
  lemma {:induction false} SplitDashFree(a: string)
    requires DashFree(a)
    ensures Split(a) == [a]
    decreases |a|
  {
    if |a| > 0 {
      assert DashFree(a[1..]) by {
        assert forall k :: 0 <= k < |a[1..]| ==> a[1..][k] == a[k + 1];
      }
      SplitDashFree(a[1..]);
      assert [a[0]] + a[1..] == a;
    }
  }

  /** The first separator after a separator-free prefix ends the first piece. */
  lemma {:induction false} SplitAfterPiece(a: string, t: string)
    requires DashFree(a)
    ensures Split(a + [Separator] + t) == [a] + Split(t)
    decreases |a|
  {
    var s := a + [Separator] + t;
    if |a| == 0 {
      assert s[1..] == t;
    } else {
      assert s[1..] == a[1..] + [Separator] + t;
      assert DashFree(a[1..]) by {
        assert forall k :: 0 <= k < |a[1..]| ==> a[1..][k] == a[k + 1];
      }
      SplitAfterPiece(a[1..], t);
      assert [a[0]] + a[1..] == a;
    }
  }

  /** Split undoes Join on separator-free pieces, so the pair is a bijection between
      strings and non-empty lists of separator-free pieces. */
  lemma {:induction false} SplitJoin(parts: seq<string>)
    requires |parts| > 0
    requires forall i :: 0 <= i < |parts| ==> DashFree(parts[i])
    ensures Split(Join(parts)) == parts
    decreases |parts|
  {
    if |parts| == 1 {
      SplitDashFree(parts[0]);
    } else {
      SplitJoin(parts[1..]);
      SplitAfterPiece(parts[0], Join(parts[1..]));
      assert [parts[0]] + parts[1..] == parts;
    }
  }

  /** The text a template literal gives for `undefined`. */
  const UndefinedText := "undefined"

  /** A split has two or more pieces exactly when the string holds a separator. */
  lemma SplitHasTwoPieces(s: string)
    ensures |Split(s)| >= 2 <==> Separator in s
  {
    var parts := Split(s);
    if |parts| >= 2 {
      assert s == parts[0] + [Separator] + Join(parts[1..]);
      assert s[|parts[0]|] == Separator;
    }
  }

  /** A join starts with its first piece, followed by a separator when more text follows. */
  lemma JoinStartsWithFirst(parts: seq<string>)
    requires |parts| > 0
    ensures parts[0] <= Join(parts)
    ensures |parts[0]| < |Join(parts)| ==> Join(parts)[|parts[0]|] == Separator
  {
  }

  /** `${sector}-${system}` where `[sector, system]` destructures the split symbol; a missing
      second piece reads as `undefined`. With a separator in `hq` the result is the prefix of
      `hq` that ends just before its second separator, or all of `hq` when there is none. */
  function SystemSymbol(hq: string): (r: string)
    ensures Separator in hq ==> r <= hq && multiset(r)[Separator] == 1
    ensures Separator in hq && |r| < |hq| ==> hq[|r|] == Separator
    ensures Separator !in hq ==> r == hq + [Separator] + UndefinedText
  {
    var parts := Split(hq);
    SplitHasTwoPieces(hq);
    if |parts| >= 2 then
      JoinStartsWithFirst(parts[1..]);
      assert hq == parts[0] + [Separator] + Join(parts[1..]);
      assert DashFree(parts[0]) && DashFree(parts[1]);
      assert multiset(parts[0] + [Separator] + parts[1]) == multiset(parts[0]) + multiset{Separator} + multiset(parts[1]);
      parts[0] + [Separator] + parts[1]
    else
      parts[0] + [Separator] + UndefinedText
  }

  /** With two or more separators the system symbol is the first two pieces: "X1-AB12-C3"
      gives "X1-AB12". */
  lemma SystemOfWaypoint(sector: string, system: string, rest: string)
    requires DashFree(sector) && DashFree(system)
    ensures SystemSymbol(sector + [Separator] + system + [Separator] + rest) == sector + [Separator] + system
  {
    var hq := sector + [Separator] + system + [Separator] + rest;
    assert hq == sector + [Separator] + (system + [Separator] + rest);
    SplitAfterPiece(sector, system + [Separator] + rest);
    SplitAfterPiece(system, rest);
  }

  /** With exactly one separator the symbol already names a system and comes back whole. */
  lemma SystemOfSystem(sector: string, system: string)
    requires DashFree(sector) && DashFree(system)
    ensures SystemSymbol(sector + [Separator] + system) == sector + [Separator] + system
  {
    SplitAfterPiece(sector, system);
    SplitDashFree(system);
  }

  /** Without a separator the destructured system is `undefined`. */
  lemma SystemOfBareSymbol(hq: string)
    requires DashFree(hq)
    ensures SystemSymbol(hq) == hq + [Separator] + UndefinedText
  {
    SplitDashFree(hq);
  }

  /** Example from the game's symbol format. */
  lemma SystemOfExample()
    ensures SystemSymbol("X1-AB12-C3") == "X1-AB12"
  {
    var sector, system, rest := "X1", "AB12", "C3";
    assert DashFree(sector) && DashFree(system);
    SystemOfWaypoint(sector, system, rest);
    assert sector + [Separator] + system + [Separator] + rest == "X1-AB12-C3";
    assert sector + [Separator] + system == "X1-AB12";
  }
}
