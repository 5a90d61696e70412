/**
 * Sequence helpers shared by the server and the client models: the rows a SQL
 * filter selects, the first row a `.first()` returns, and JavaScript's
 * Array.prototype.filter and findIndex.
 */
module Lists {

  /** The elements of s that satisfy p, in their order in s. */
  function Filter<T>(s: seq<T>, p: T -> bool): (r: seq<T>)
    ensures |r| <= |s|
  {
    if |s| == 0 then []
    else if p(s[0]) then [s[0]] + Filter(s[1..], p)
    else Filter(s[1..], p)
  }

  /** The filter keeps exactly the elements that satisfy p. */
  lemma {:induction false} FilterMembers<T>(s: seq<T>, p: T -> bool)
    ensures forall x :: x in Filter(s, p) <==> x in s && p(x)
  {
    if |s| > 0 {
      FilterMembers(s[1..], p);
      assert s == [s[0]] + s[1..];
    }
  }

  /** The number of elements of s that satisfy p: what a bulk SQL DELETE reports. */
  function Count<T>(s: seq<T>, p: T -> bool): nat {
    |Filter(s, p)|
  }

  /** The elements of s that do not satisfy p, in their order in s: what a bulk SQL DELETE leaves. */
  function Remove<T>(s: seq<T>, p: T -> bool): (r: seq<T>)
    ensures |r| <= |s|
  {
    Filter(s, x => !p(x))
  }

  /** A DELETE leaves exactly the rows that do not satisfy its condition. */
  lemma RemoveMembers<T>(s: seq<T>, p: T -> bool)
    ensures forall x :: x in Remove(s, p) <==> x in s && !p(x)
  {
    FilterMembers(s, x => !p(x));
  }

  /** The rows a DELETE reports plus the rows it leaves are all the rows there were. */
  lemma {:induction false} RemoveCount<T>(s: seq<T>, p: T -> bool)
    ensures Count(s, p) + |Remove(s, p)| == |s|
  {
    if |s| > 0 {
      RemoveCount(s[1..], p);
      assert Remove(s, p) == (if p(s[0]) then [] else [s[0]]) + Remove(s[1..], p);
    }
  }

  /** The index of the first element satisfying p, or -1 when there is none. */
  function FirstIndex<T>(s: seq<T>, p: T -> bool): (i: int)
    ensures -1 <= i < |s|
    ensures i == -1 <==> forall j :: 0 <= j < |s| ==> !p(s[j])
    ensures 0 <= i ==> p(s[i]) && forall j :: 0 <= j < i ==> !p(s[j])
  {
    if |s| == 0 then -1
    else if p(s[0]) then 0
    else
      var k := FirstIndex(s[1..], p);
      if k == -1 then -1 else k + 1
  }
}
