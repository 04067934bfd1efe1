/**
 * State labels, the States container and the rendering of a state in
 * error messages (fsm.go:10-11, 59-89).
 */
module States {

  /** A state is its label; two states are the same exactly when their labels are. */
  type State = string

  /** True when no element of `s` occurs twice. */
  predicate NoRepeats<T(==)>(s: seq<T>) {
    forall i, j :: 0 <= i < j < |s| ==> s[i] != s[j]
  }

  lemma {:induction false} NoRepeatsSnoc<T>(s: seq<T>, x: T)
    ensures NoRepeats(s + [x]) <==> NoRepeats(s) && x !in s
  {
    var t := s + [x];
    assert t[..|s|] == s;
    if NoRepeats(t) {
      forall i, j | 0 <= i < j < |s| ensures s[i] != s[j] {
        assert s[i] == t[i] && s[j] == t[j];
      }
      forall k | 0 <= k < |s| ensures s[k] != x {
        assert t[k] == s[k] && t[|s|] == x;
      }
    }
  }

  // ---------------------------------------------------------------------
  // NewStates and Has
  // ---------------------------------------------------------------------

  /** NewStates: allocates a slice of the same length and fills it by index. */
  method NewStates(states: seq<State>) returns (r: seq<State>)
    ensures r == states
  {
    var a := new State[|states|];
    for i := 0 to |states|
      invariant a[..i] == states[..i]
    {
      a[i] := states[i];
    }
    assert a[..] == a[..|states|];
    r := a[..];
  }

  /** Has: a linear scan that stops at the first element equal to `s`. */
  method Has(states: seq<State>, s: State) returns (found: bool)
    ensures found <==> s in states
  {
    for i := 0 to |states|
      invariant s !in states[..i]
    {
      if states[i] == s {
        return true;
      }
    }
    assert states[..|states|] == states;
    return false;
  }

  // ---------------------------------------------------------------------
  // Ordering of strings and AsSortedStrings
  // ---------------------------------------------------------------------

  /**
   * Go orders strings byte by byte; for labels that are valid UTF-8 this
   * encoding preserves the order of code points, so it is the
   * lexicographic order on chars.
   */
  predicate LessEq(a: string, b: string)
    decreases |a|
  {
    a == [] || (b != [] && (a[0] < b[0] || (a[0] == b[0] && LessEq(a[1..], b[1..]))))
  }

  lemma {:induction false} LessEqReflexive(a: string)
    ensures LessEq(a, a)
    decreases |a|
  {
    if a != [] {
      LessEqReflexive(a[1..]);
    }
  }

  lemma {:induction false} LessEqTotal(a: string, b: string)
    ensures LessEq(a, b) || LessEq(b, a)
    decreases |a|
  {
    if a != [] && b != [] && a[0] == b[0] {
      LessEqTotal(a[1..], b[1..]);
    }
  }

  lemma {:induction false} LessEqAntisymmetric(a: string, b: string)
    requires LessEq(a, b) && LessEq(b, a)
    ensures a == b
    decreases |a|
  {
    if a != [] {
      LessEqAntisymmetric(a[1..], b[1..]);
      assert a == [a[0]] + a[1..] && b == [b[0]] + b[1..];
    }
  }

  lemma {:induction false} LessEqTransitive(a: string, b: string, c: string)
    requires LessEq(a, b) && LessEq(b, c)
    ensures LessEq(a, c)
    decreases |a|
  {
    if a != [] && a[0] == b[0] && b[0] == c[0] {
      LessEqTransitive(a[1..], b[1..], c[1..]);
    }
  }

  /** Every element is at most every later element. */
  predicate Sorted(s: seq<string>) {
    forall i, j :: 0 <= i < j < |s| ==> LessEq(s[i], s[j])
  }

  /** Every element is at most its successor. */
  predicate AdjacentSorted(s: seq<string>) {
    forall k :: 0 < k < |s| ==> LessEq(s[k - 1], s[k])
  }

  lemma {:induction false} AdjacentChain(s: seq<string>, i: nat, j: nat)
    requires AdjacentSorted(s) && i <= j < |s|
    ensures LessEq(s[i], s[j])
    decreases j - i
  {
    if i == j {
      LessEqReflexive(s[i]);
    } else {
      AdjacentChain(s, i, j - 1);
      LessEqTransitive(s[i], s[j - 1], s[j]);
    }
  }

  lemma AdjacentSortedIsSorted(s: seq<string>)
    requires AdjacentSorted(s)
    ensures Sorted(s)
  {
    forall i, j | 0 <= i < j < |s| ensures LessEq(s[i], s[j]) {
      AdjacentChain(s, i, j);
    }
  }

  lemma SortedHeadIsLeast(s: seq<string>, x: string)
    requires Sorted(s) && x in s
    ensures LessEq(s[0], x)
  {
    var k :| 0 <= k < |s| && s[k] == x;
    if k == 0 {
      LessEqReflexive(x);
    }
  }

  lemma SortedTail(s: seq<string>)
    requires Sorted(s) && s != []
    ensures Sorted(s[1..]) && multiset(s[1..]) == multiset(s) - multiset{s[0]}
  {
    assert forall i :: 0 <= i < |s| - 1 ==> s[1..][i] == s[i + 1];
    assert s == [s[0]] + s[1..];
  }

  /**
   * A sorted permutation is unique, so any correct sorting algorithm gives
   * the same result as sort.Strings.
   */
  lemma {:induction false} SortedPermutationUnique(a: seq<string>, b: seq<string>)
    requires Sorted(a) && Sorted(b) && multiset(a) == multiset(b)
    ensures a == b
    decreases |a|
  {
    assert |a| == |multiset(a)| == |multiset(b)| == |b|;
    if a != [] {
      assert a[0] in multiset(b) && b[0] in multiset(a);
      SortedHeadIsLeast(a, b[0]);
      SortedHeadIsLeast(b, a[0]);
      LessEqAntisymmetric(a[0], b[0]);
      SortedTail(a);
      SortedTail(b);
      SortedPermutationUnique(a[1..], b[1..]);
      assert a == [a[0]] + a[1..] && b == [b[0]] + b[1..];
    }
  }

  /** Exchanges two elements of `a` and leaves the others alone. */
  method Swap(a: array<string>, i: nat, j: nat)
    requires i < a.Length && j < a.Length
    modifies a
    ensures a[..] == old(a[..])[i := old(a[j])][j := old(a[i])]
    ensures multiset(a[..]) == multiset(old(a[..]))
  {
    a[i], a[j] := a[j], a[i];
  }

  /**
   * One pass of the insertion sort: moves a[i] left until a[..i + 1] is
   * sorted, given that a[..i] is.
   */
  method InsertAt(a: array<string>, i: nat)
    requires 0 < i < a.Length
    requires forall k :: 0 < k < i ==> LessEq(a[k - 1], a[k])
    modifies a
    ensures forall k :: 0 < k <= i ==> LessEq(a[k - 1], a[k])
    ensures multiset(a[..]) == multiset(old(a[..]))
  {
    var j := i;
    while j > 0 && !LessEq(a[j - 1], a[j])
      invariant 0 <= j <= i
      invariant forall k :: 0 < k < j ==> LessEq(a[k - 1], a[k])
      invariant forall k :: j + 1 < k <= i ==> LessEq(a[k - 1], a[k])
      invariant 0 < j < i ==> LessEq(a[j - 1], a[j + 1])
      invariant j < i ==> LessEq(a[j], a[j + 1])
      invariant multiset(a[..]) == multiset(old(a[..]))
      decreases j
    {
      LessEqTotal(a[j - 1], a[j]);
      Swap(a, j - 1, j);
      j := j - 1;
    }
  }

  /** sort.Strings: sorts the array in place (here an insertion sort). */
  method SortStrings(a: array<string>)
    modifies a
    ensures AdjacentSorted(a[..])
    ensures multiset(a[..]) == multiset(old(a[..]))
  {
    if a.Length == 0 {
      return;
    }
    for i := 1 to a.Length
      invariant forall k :: 0 < k < i ==> LessEq(a[k - 1], a[k])
      invariant multiset(a[..]) == multiset(old(a[..]))
    {
      InsertAt(a, i);
    }
  }

  /** AsSortedStrings: copies the labels into a new slice and sorts it. */
  method AsSortedStrings(states: seq<State>) returns (r: seq<string>)
    ensures Sorted(r)
    ensures multiset(r) == multiset(states)
  {
    var a := new string[|states|];
    for i := 0 to |states|
      invariant a[..i] == states[..i]
    {
      a[i] := states[i];
    }
    assert a[..] == a[..|states|] && states[..|states|] == states;
    SortStrings(a);
    r := a[..];
    AdjacentSortedIsSorted(r);
  }

  // ---------------------------------------------------------------------
  // Display form: State.String, i.e. strings.Title
  // ---------------------------------------------------------------------

  /** unicode.IsSpace: the Latin-1 spaces and the other White_Space code points. */
  predicate IsSpace(c: char) {
    c == '\t' || c == '\n' || c == '\U{B}' || c == '\U{C}' || c == '\r' || c == ' '
    || c == '\U{85}' || c == '\U{A0}' || c == '\U{1680}'
    || ('\U{2000}' <= c <= '\U{200A}') || c == '\U{2028}' || c == '\U{2029}'
    || c == '\U{202F}' || c == '\U{205F}' || c == '\U{3000}'
  }

  /**
   * The word boundary of strings.Title: an ASCII character is a separator
   * unless it is a letter, a digit or '_'; any other character is one
   * exactly when it is a space (no Unicode letter or digit is a space).
   */
  predicate IsSeparator(c: char) {
    if c <= '\U{7F}' then
      !(('0' <= c <= '9') || ('a' <= c <= 'z') || ('A' <= c <= 'Z') || c == '_')
    else
      IsSpace(c)
  }

  /** unicode.ToTitle restricted to ASCII: lower-case letters become upper-case. */
  function ToTitle(c: char): char {
    if 'a' <= c <= 'z' then (c as int - 32) as char else c
  }

  /** strings.Title with the previous character `prev` already seen. */
  function TitleAfter(prev: char, s: string): string
    decreases |s|
  {
    if s == [] then []
    else [if IsSeparator(prev) then ToTitle(s[0]) else s[0]] + TitleAfter(s[0], s[1..])
  }

  /** State.String: the label with the first letter of each word in title case. */
  function Display(s: State): string {
    TitleAfter(' ', s)
  }

  /** True when character i of `s` starts a word for strings.Title. */
  predicate StartsWord(s: string, i: int)
    requires 0 <= i < |s|
  {
    i == 0 || IsSeparator(s[i - 1])
  }

  lemma {:induction false} TitleAfterAt(prev: char, s: string)
    ensures |TitleAfter(prev, s)| == |s|
    ensures forall i :: 0 <= i < |s| ==>
      TitleAfter(prev, s)[i] == if (if i == 0 then IsSeparator(prev) else IsSeparator(s[i - 1])) then ToTitle(s[i]) else s[i]
    decreases |s|
  {
    if s != [] {
      TitleAfterAt(s[0], s[1..]);
      var r := TitleAfter(prev, s);
      forall i | 1 <= i < |s|
        ensures r[i] == if IsSeparator(s[i - 1]) then ToTitle(s[i]) else s[i]
      {
        assert r[i] == TitleAfter(s[0], s[1..])[i - 1];
        assert s[1..][i - 1] == s[i];
        if i > 1 {
          assert s[1..][i - 2] == s[i - 1];
        }
      }
    }
  }

  /** Display keeps the length and changes only the first character of each word. */
  lemma DisplayAt(s: State)
    ensures |Display(s)| == |s|
    ensures forall i :: 0 <= i < |s| ==> Display(s)[i] == if StartsWord(s, i) then ToTitle(s[i]) else s[i]
  {
    TitleAfterAt(' ', s);
  }

  /** Rendering an already rendered label changes nothing. */
  lemma DisplayIdempotent(s: State)
    ensures Display(Display(s)) == Display(s)
  {
    var d := Display(s);
    DisplayAt(s);
    DisplayAt(d);
    forall i | 0 <= i < |d| ensures Display(d)[i] == d[i] {
      if i > 0 {
        assert IsSeparator(d[i - 1]) == IsSeparator(s[i - 1]);
      }
    }
  }
}
