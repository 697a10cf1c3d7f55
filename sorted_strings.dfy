/**
 * java.util.TreeSet<String> as the parser uses it: a strictly increasing
 * sequence under String.compareTo, grown by `add` and read back in order.
 */
module SortedStrings {
  import opened JavaText

  predicate StrictlySorted(s: seq<string>) {
    forall i, j :: 0 <= i < j < |s| ==> Less(s[i], s[j])
  }

  lemma SortedHeadLess(s: seq<string>)
    requires StrictlySorted(s) && |s| > 0
    ensures forall e :: e in s[1..] ==> Less(s[0], e)
  {
    forall e | e in s[1..]
      ensures Less(s[0], e)
    {
      var k :| 0 <= k < |s[1..]| && s[1..][k] == e;
      assert s[k + 1] == e;
    }
  }

  lemma ConsSorted(h: string, t: seq<string>)
    requires StrictlySorted(t)
    requires forall e :: e in t ==> Less(h, e)
    ensures StrictlySorted([h] + t)
  {
    var s := [h] + t;
    forall i, j | 0 <= i < j < |s|
      ensures Less(s[i], s[j])
    {
      if i == 0 {
        assert s[j] == t[j - 1];
      } else {
        assert s[i] == t[i - 1] && s[j] == t[j - 1];
      }
    }
  }

  /** TreeSet.add: an element already present leaves the set as it was;
      otherwise it goes in at its place in the order. */
  function Insert(s: seq<string>, x: string): (r: seq<string>)
    requires StrictlySorted(s)
    ensures StrictlySorted(r)
    ensures forall e :: e in r <==> e in s || e == x
    decreases |s|
  {
    if |s| == 0 then [x]
    else if x == s[0] then s
    else if Less(x, s[0]) then
      SortedHeadLess(s);
      assert forall e :: e in s[1..] ==> Less(x, e) by {
        forall e | e in s[1..] ensures Less(x, e) {
          LessTransitive(x, s[0], e);
        }
      }
      assert s == [s[0]] + s[1..];
      ConsSorted(x, s);
      [x] + s
    else
      LessTotal(x, s[0]);
      SortedHeadLess(s);
      assert StrictlySorted(s[1..]);
      var t := Insert(s[1..], x);
      ConsSorted(s[0], t);
      assert s == [s[0]] + s[1..];
      [s[0]] + t
  }

  /** Adds the elements of xs one after another, from first to last. */
  function InsertAll(s: seq<string>, xs: seq<string>): (r: seq<string>)
    requires StrictlySorted(s)
    ensures StrictlySorted(r)
    ensures forall e :: e in r <==> e in s || e in xs
    decreases |xs|
  {
    if |xs| == 0 then s
    else
      var init := xs[..|xs| - 1];
      assert xs == init + [xs[|xs| - 1]];
      Insert(InsertAll(s, init), xs[|xs| - 1])
  }

  /** No element occurs twice in a strictly sorted sequence. */
  lemma SortedDistinct(s: seq<string>)
    requires StrictlySorted(s)
    ensures forall i, j :: 0 <= i < j < |s| ==> s[i] != s[j]
  {
    forall i, j | 0 <= i < j < |s|
      ensures s[i] != s[j]
    {
      LessIrreflexive(s[i]);
    }
  }

  lemma FirstIsElement(s: seq<string>)
    ensures |s| > 0 ==> s[0] in s
  {
  }

  /** A strictly sorted sequence is determined by its elements: two with the
      same elements are equal. */
  lemma {:induction false} SortedUnique(a: seq<string>, b: seq<string>)
    requires StrictlySorted(a) && StrictlySorted(b)
    requires forall e :: e in a <==> e in b
    ensures a == b
    decreases |a|
  {
    FirstIsElement(b);
    if |a| > 0 {
      assert a[0] in b;
      assert b != [];
      assert b[0] in a;
      SortedHeadLess(a);
      SortedHeadLess(b);
      if a[0] != b[0] {
        assert a == [a[0]] + a[1..];
        assert b == [b[0]] + b[1..];
        assert b[0] in a[1..];
        assert a[0] in b[1..];
        LessAsymmetric(a[0], b[0]);
      }
      forall e
        ensures e in a[1..] <==> e in b[1..]
      {
        assert a == [a[0]] + a[1..];
        assert b == [b[0]] + b[1..];
        LessIrreflexive(a[0]);
        if e in a[1..] {
          assert Less(a[0], e) && e != a[0] && e in b;
          assert e in b[1..];
        }
        if e in b[1..] {
          assert Less(b[0], e) && e != b[0] && e in a;
          assert e in a[1..];
        }
      }
      SortedUnique(a[1..], b[1..]);
      assert a == [a[0]] + a[1..];
      assert b == [b[0]] + b[1..];
    }
  }
}
