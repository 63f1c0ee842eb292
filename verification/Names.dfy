/** Directory listings: code-unit order on names and the sort that makes a listing independent of readdir order. */
module Names {
  import opened FileTree

  /** Strict lexicographic order by code unit, the order of JavaScript's default sort and of `<` on strings. */
  predicate Less(a: Name, b: Name) {
    b != "" && (a == "" || a[0] < b[0] || (a[0] == b[0] && Less(a[1..], b[1..])))
  }

  lemma {:induction false} LessTransitive(a: Name, b: Name, c: Name)
    requires Less(a, b) && Less(b, c)
    ensures Less(a, c)
  {
    if a != "" && a[0] == b[0] && b[0] == c[0] { LessTransitive(a[1..], b[1..], c[1..]); }
  }

  lemma {:induction false} LessTotal(a: Name, b: Name)
    ensures a == b || Less(a, b) || Less(b, a)
  {
    if a != "" && b != "" && a[0] == b[0] {
      LessTotal(a[1..], b[1..]);
      assert a == [a[0]] + a[1..] && b == [b[0]] + b[1..];
    }
  }

  lemma {:induction false} LessAsymmetric(a: Name, b: Name)
    requires Less(a, b)
    ensures !Less(b, a) && a != b
  {
    if a != "" && a[0] == b[0] { LessAsymmetric(a[1..], b[1..]); }
  }

  /** The first difference decides; a name that runs out first comes first. */
  lemma {:induction false} LessIs(a: Name, b: Name)
    ensures Less(a, b) <==>
            exists k :: 0 <= k <= |a| && k < |b| && a[..k] == b[..k] && (k == |a| || a[k] < b[k])
  {
    if a != "" && b != "" && a[0] == b[0] {
      LessIs(a[1..], b[1..]);
      if k :| 0 <= k < |a| && k + 1 < |b| && a[1..][..k] == b[1..][..k] && (k + 1 == |a| || a[k + 1] < b[k + 1]) {
        assert a[..k + 1] == [a[0]] + a[1..][..k] && b[..k + 1] == [b[0]] + b[1..][..k];
      }
      if k :| 0 <= k <= |a| && k < |b| && a[..k] == b[..k] && (k == |a| || a[k] < b[k]) {
        assert k > 0 && a[1..][..k - 1] == a[..k][1..] && b[1..][..k - 1] == b[..k][1..];
      }
    } else if b != "" && (a == "" || a[0] < b[0]) {
      assert a[..0] == b[..0];
    } else {
      assert forall k :: 0 < k <= |a| && k < |b| && a[..k] == b[..k] ==> a[..k][0] == b[..k][0];
    }
  }

  ghost predicate Sorted(s: seq<Name>) {
    forall i, j :: 0 <= i < j < |s| ==> Less(s[i], s[j])
  }

  ghost function Elements(s: seq<Name>): set<Name> {
    set n | n in s
  }

  ghost predicate Distinct<T>(s: seq<T>) {
    forall i, j :: 0 <= i < j < |s| ==> s[i] != s[j]
  }

  /** A sorted listing is determined by its contents. */
  lemma {:induction false} SortedIsUnique(a: seq<Name>, b: seq<Name>)
    requires Sorted(a) && Sorted(b) && Elements(a) == Elements(b)
    ensures a == b
  {
    assert forall i :: 0 <= i < |a| ==> a[i] in Elements(a);
    assert forall i :: 0 <= i < |b| ==> b[i] in Elements(b);
    if a == [] {
    } else {
      assert a[0] in Elements(a) && b != [];
      if a[0] != b[0] {
        var i :| 0 <= i < |b| && b[i] == a[0];
        var j :| 0 <= j < |a| && a[j] == b[0];
        assert Less(b[0], b[i]) && Less(a[0], a[j]);
        LessAsymmetric(a[0], b[0]);
        assert false;
      }
      TailElements(a);
      TailElements(b);
      SortedIsUnique(a[1..], b[1..]);
      assert a == [a[0]] + a[1..] && b == [b[0]] + b[1..];
    }
  }

  lemma TailElements(s: seq<Name>)
    requires Sorted(s) && s != []
    ensures Sorted(s[1..]) && Elements(s[1..]) == Elements(s) - {s[0]}
  {
    forall n | n in s[1..] ensures n != s[0] {
      var i :| 0 <= i < |s[1..]| && s[1..][i] == n;
      assert Less(s[0], s[i + 1]);
      LessAsymmetric(s[0], n);
    }
    forall n | n in s && n != s[0] ensures n in s[1..] {
      var i :| 0 <= i < |s| && s[i] == n;
      assert s[1..][i - 1] == n;
    }
  }

  function Insert(n: Name, s: seq<Name>): seq<Name> {
    if s == [] then [n]
    else if Less(n, s[0]) then [n] + s
    else [s[0]] + Insert(n, s[1..])
  }

  function Sort(s: seq<Name>): seq<Name> {
    if s == [] then [] else Insert(s[0], Sort(s[1..]))
  }

  lemma {:induction false} InsertSorts(n: Name, s: seq<Name>)
    requires Sorted(s) && n !in s
    ensures Sorted(Insert(n, s)) && Elements(Insert(n, s)) == Elements(s) + {n}
  {
    if s != [] {
      if Less(n, s[0]) {
        forall j | 0 < j < |s| ensures Less(n, s[j]) { LessTransitive(n, s[0], s[j]); }
        assert Elements([n] + s) == Elements(s) + {n};
      } else {
        LessTotal(n, s[0]);
        TailElements(s);
        InsertSorts(n, s[1..]);
        var rest := Insert(n, s[1..]);
        forall j | 0 <= j < |rest| ensures Less(s[0], rest[j]) {
          assert rest[j] in Elements(rest);
          if rest[j] != n {
            var k :| 0 <= k < |s[1..]| && s[1..][k] == rest[j];
            assert Less(s[0], s[k + 1]);
          }
        }
        assert Elements([s[0]] + rest) == Elements(rest) + {s[0]};
      }
    }
  }

  /** Sorting a listing without repeats orders exactly its names. */
  lemma {:induction false} SortSorts(s: seq<Name>)
    requires Distinct(s)
    ensures Sorted(Sort(s)) && Elements(Sort(s)) == Elements(s)
  {
    if s != [] {
      assert Distinct(s[1..]);
      SortSorts(s[1..]);
      assert s[0] !in s[1..];
      assert s[0] !in Elements(Sort(s[1..]));
      InsertSorts(s[0], Sort(s[1..]));
      assert s == [s[0]] + s[1..];
      assert Elements(s) == Elements(s[1..]) + {s[0]};
    }
  }

  predicate IsLeast(m: Name, s: set<Name>) {
    m in s && forall x :: x in s ==> x == m || Less(m, x)
  }

  lemma {:induction false} LeastExists(s: set<Name>)
    requires s != {}
    ensures exists m :: IsLeast(m, s)
  {
    var a :| a in s;
    var rest := s - {a};
    if rest == {} {
      assert s == {a};
      assert IsLeast(a, s);
    } else {
      LeastExists(rest);
      var m :| IsLeast(m, rest);
      LessTotal(a, m);
      if Less(a, m) {
        forall x | x in s ensures x == a || Less(a, x) {
          if x != a && x != m { LessTransitive(a, m, x); }
        }
        assert IsLeast(a, s);
      } else {
        assert IsLeast(m, s);
      }
    }
  }

  lemma LeastIsUnique(a: Name, b: Name, s: set<Name>)
    requires IsLeast(a, s) && IsLeast(b, s)
    ensures a == b
  {
    if a != b { LessAsymmetric(a, b); }
  }

  function Least(s: set<Name>): (m: Name)
    requires s != {}
    ensures IsLeast(m, s)
  {
    LeastExists(s);
    assert forall a, b :: IsLeast(a, s) && IsLeast(b, s) ==> a == b by {
      forall a, b | IsLeast(a, s) && IsLeast(b, s) ensures a == b { LeastIsUnique(a, b, s); }
    }
    assert exists m :: m in s && IsLeast(m, s);
    var m :| m in s && IsLeast(m, s);
    m
  }

  /** The listing of a set of names. */
  function Listing(s: set<Name>): (r: seq<Name>)
    ensures Sorted(r) && Elements(r) == s
  {
    if s == {} then []
    else
      var m := Least(s);
      var rest := Listing(s - {m});
      assert forall j :: 0 <= j < |rest| ==> rest[j] in Elements(rest);
      assert Elements([m] + rest) == Elements(rest) + {m};
      [m] + rest
  }

  /** readdir in any order, then sort, is the listing. */
  lemma AnyOrderListsTheSame(readdir: seq<Name>, s: set<Name>)
    requires Distinct(readdir) && Elements(readdir) == s
    ensures Sort(readdir) == Listing(s)
  {
    SortSorts(readdir);
    SortedIsUnique(Sort(readdir), Listing(s));
  }

  lemma SortedIsDistinct(s: seq<Name>)
    requires Sorted(s)
    ensures Distinct(s)
  {
    forall i, j | 0 <= i < j < |s| ensures s[i] != s[j] { LessAsymmetric(s[i], s[j]); }
  }
}
