/** sort.Strings: the byte-wise order of strings and the one sorted arrangement of a list. */
module Order {

  predicate Leq(a: string, b: string) {
    a == "" || (b != "" && (a[0] < b[0] || (a[0] == b[0] && Leq(a[1..], b[1..]))))
  }

  predicate Sorted(s: seq<string>) {
    forall i, j :: 0 <= i < j < |s| ==> Leq(s[i], s[j])
  }

  lemma {:induction false} LeqTotal(a: string, b: string)
    ensures Leq(a, b) || Leq(b, a)
  {
    if a != "" && b != "" && a[0] == b[0] { LeqTotal(a[1..], b[1..]); }
  }

  lemma {:induction false} LeqAntisymmetric(a: string, b: string)
    requires Leq(a, b) && Leq(b, a)
    ensures a == b
  {
    if a != "" {
      LeqAntisymmetric(a[1..], b[1..]);
      assert a == [a[0]] + a[1..] && b == [b[0]] + b[1..];
    }
  }

  lemma {:induction false} LeqTransitive(a: string, b: string, c: string)
    requires Leq(a, b) && Leq(b, c)
    ensures Leq(a, c)
  {
    if a != "" && a[0] == b[0] && b[0] == c[0] { LeqTransitive(a[1..], b[1..], c[1..]); }
  }

  function Insert(x: string, s: seq<string>): seq<string> {
    if s == [] then [x] else if Leq(x, s[0]) then [x] + s else [s[0]] + Insert(x, s[1..])
  }

  function Sort(s: seq<string>): seq<string> {
    if s == [] then [] else Insert(s[0], Sort(s[1..]))
  }

  lemma {:induction false} InsertMembers(x: string, s: seq<string>)
    ensures multiset(Insert(x, s)) == multiset{x} + multiset(s)
  {
    hide Leq;
    if s != [] {
      assert s == [s[0]] + s[1..];
      InsertMembers(x, s[1..]);
    }
  }

  lemma ConsSorted(x: string, s: seq<string>)
    requires Sorted(s) && forall j :: 0 <= j < |s| ==> Leq(x, s[j])
    ensures Sorted([x] + s)
  {}

  lemma {:induction false} InsertSorted(x: string, s: seq<string>)
    requires Sorted(s)
    ensures Sorted(Insert(x, s))
  {
    hide Leq;
    if s != [] {
      LeqTotal(x, s[0]);
      if Leq(x, s[0]) {
        forall j | 0 <= j < |s| ensures Leq(x, s[j]) {
          if j > 0 { LeqTransitive(x, s[0], s[j]); }
        }
        ConsSorted(x, s);
      } else {
        InsertSorted(x, s[1..]);
        var rest := Insert(x, s[1..]);
        forall j | 0 <= j < |rest| ensures Leq(s[0], rest[j]) {
          InsertMembers(x, s[1..]);
          assert rest[j] in multiset(rest);
          if rest[j] != x {
            var k := MemberAt(s[1..], rest[j]);
            assert s[k + 1] == rest[j];
          }
        }
        ConsSorted(s[0], rest);
      }
    }
  }

  lemma {:induction false} SortSorted(s: seq<string>)
    ensures Sorted(Sort(s))
    ensures multiset(Sort(s)) == multiset(s)
  {
    if s != [] {
      SortSorted(s[1..]);
      InsertSorted(s[0], Sort(s[1..]));
      InsertMembers(s[0], Sort(s[1..]));
      assert s == [s[0]] + s[1..];
    }
  }

  lemma SortMembers(s: seq<string>, x: string)
    ensures x in Sort(s) <==> x in s
  {
    SortSorted(s);
    assert x in Sort(s) <==> x in multiset(Sort(s));
    assert x in s <==> x in multiset(s);
  }

  lemma MemberAt(s: seq<string>, x: string) returns (i: nat)
    requires x in multiset(s)
    ensures i < |s| && s[i] == x
  {
    assert x in s;
    i :| 0 <= i < |s| && s[i] == x;
  }

  lemma SameHead(s: seq<string>, t: seq<string>)
    requires Sorted(s) && Sorted(t) && multiset(s) == multiset(t) && s != [] && t != []
    ensures s[0] == t[0]
  {
    hide Leq;
    assert s[0] in multiset(t) && t[0] in multiset(s);
    var i := MemberAt(t, s[0]);
    var j := MemberAt(s, t[0]);
    HeadLeq(s, j);
    HeadLeq(t, i);
    LeqAntisymmetric(s[0], t[0]);
  }

  lemma TailMultiset(s: seq<string>)
    requires s != []
    ensures s == [s[0]] + s[1..] && multiset(s[1..]) == multiset(s) - multiset{s[0]}
  {
    assert s == [s[0]] + s[1..];
  }

  /** A list has one sorted arrangement only. */
  lemma {:induction false} SortedUnique(s: seq<string>, t: seq<string>)
    requires Sorted(s) && Sorted(t) && multiset(s) == multiset(t)
    ensures s == t
  {
    hide Leq;
    assert |s| == |multiset(s)| == |multiset(t)| == |t|;
    if s != [] {
      SameHead(s, t);
      TailMultiset(s);
      TailMultiset(t);
      SortedUnique(s[1..], t[1..]);
    }
  }

  lemma HeadLeq(s: seq<string>, i: nat)
    requires Sorted(s) && i < |s|
    ensures Leq(s[0], s[i])
  {
    LeqTotal(s[0], s[0]);
  }

  /** Sorting forgets the order a directory was listed in. */
  lemma SortIgnoresOrder(s: seq<string>, t: seq<string>)
    requires multiset(s) == multiset(t)
    ensures Sort(s) == Sort(t)
  {
    SortSorted(s);
    SortSorted(t);
    SortedUnique(Sort(s), Sort(t));
  }

  /** The two agree up to a place, where the first has the smaller byte. */
  ghost predicate SmallerAt(a: string, b: string, k: nat) {
    k < |a| && k < |b| && a[..k] == b[..k] && a[k] < b[k]
  }

  lemma SmallerBehind(x: char, a: string, b: string, k: nat)
    ensures SmallerAt([x] + a, [x] + b, k + 1) <==> SmallerAt(a, b, k)
  {
    if k < |a| && k < |b| {
      assert ([x] + a)[..k + 1] == [x] + a[..k] && ([x] + b)[..k + 1] == [x] + b[..k];
      assert a[..k] == ([x] + a[..k])[1..] && b[..k] == ([x] + b[..k])[1..];
    }
  }

  lemma SmallerHead(a: string, b: string, k: nat)
    requires a != "" && b != "" && SmallerAt(a, b, k)
    ensures if k == 0 then a[0] < b[0] else a[0] == b[0]
  {
    if k > 0 { assert a[0] == a[..k][0] == b[..k][0] == b[0]; }
  }

  /** Strings are ordered by the first byte in which they differ; a prefix comes first. */
  lemma {:induction false} LeqMeaning(a: string, b: string)
    ensures Leq(a, b) <==> a <= b || exists k :: SmallerAt(a, b, k)
  {
    hide SmallerAt;
    if a != "" && b != "" && a[0] == b[0] {
      LeqMeaning(a[1..], b[1..]);
      assert a == [a[0]] + a[1..] && b == [a[0]] + b[1..];
      if Leq(a, b) && exists k :: SmallerAt(a[1..], b[1..], k) {
        var k :| SmallerAt(a[1..], b[1..], k);
        SmallerBehind(a[0], a[1..], b[1..], k);
      }
      forall k: nat | SmallerAt(a, b, k) ensures Leq(a, b) {
        SmallerHead(a, b, k);
        if k > 0 { SmallerBehind(a[0], a[1..], b[1..], k - 1); }
      }
    } else {
      HeadsDiffer(a, b);
    }
  }

  lemma HeadsDiffer(a: string, b: string)
    requires a == "" || b == "" || a[0] != b[0]
    ensures (exists k :: SmallerAt(a, b, k)) <==> a != "" && b != "" && a[0] < b[0]
    ensures a <= b <==> a == ""
  {
    if a != "" && b != "" && a[0] < b[0] { assert SmallerAt(a, b, 0); }
    forall k | SmallerAt(a, b, k) ensures a != "" && b != "" && a[0] < b[0] { SmallerHead(a, b, k); }
  }
}
