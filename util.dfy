/** The string-list helper of the command-line tool (util.go, StringList.Contains). */
module Util {

  /** A list of strings, as the command-line flags collect them. */
  type StringList = seq<string>

  /**
   * StringList.Contains: a linear search that stops at the first element
   * equal to s; `compared` counts the elements it looked at.
   */
  method Contains(l: StringList, s: string) returns (found: bool, ghost compared: nat)
    ensures found <==> s in l
    ensures found <==> exists i :: 0 <= i < |l| && l[i] == s
    ensures compared == if found then FirstMatch(l, s) + 1 else |l|
  {
    var i := 0;
    while i < |l|
      invariant 0 <= i <= |l|
      invariant s !in l[..i]
      invariant i <= FirstMatch(l, s)
    {
      if l[i] == s {
        assert l[i] in l;
        return true, i + 1;
      }
      i := i + 1;
    }
    assert l[..i] == l;
    return false, i;
  }

  /** The position of the first element equal to s, or the length when there is none. */
  function FirstMatch(l: StringList, s: string): (k: nat)
    ensures k <= |l|
    ensures s !in l[..k]
    ensures k < |l| ==> l[k] == s
  {
    if l == [] then 0
    else if l[0] == s then 0
    else
      var k := FirstMatch(l[1..], s);
      assert l[..k + 1] == [l[0]] + l[1..][..k];
      k + 1
  }

  /** The search stops at the first match: it has looked at no element past it. */
  lemma {:induction false} StopsAtFirstMatch(l: StringList, s: string, t: StringList)
    requires s in l
    ensures FirstMatch(l, s) < |l|
    ensures FirstMatch(l + t, s) == FirstMatch(l, s)
  {
    if l[0] != s {
      assert (l + t)[1..] == l[1..] + t;
      StopsAtFirstMatch(l[1..], s, t);
    }
  }

  /** The empty list contains nothing. */
  method ContainsEmpty(s: string) returns (found: bool)
    ensures !found
  {
    ghost var n;
    found, n := Contains([], s);
  }

  /** Every element of a list is found in it. */
  method ContainsOwnElement(l: StringList, k: nat) returns (found: bool)
    requires k < |l|
    ensures found
  {
    ghost var n;
    found, n := Contains(l, l[k]);
  }

  /** The answer does not depend on the order of the elements: a permutation gives the same result. */
  method ContainsOrderFree(l: StringList, m: StringList, s: string) returns (a: bool, b: bool)
    requires multiset(l) == multiset(m)
    ensures a == b
  {
    ghost var n;
    a, n := Contains(l, s);
    b, n := Contains(m, s);
    assert s in l <==> s in multiset(l);
    assert s in m <==> s in multiset(m);
  }
}
