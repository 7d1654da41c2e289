/** The order in which the layout constructor places objects: "desk"
    first, then every other type name in lexicographic (code point) order,
    i.e. sorting by the key (name != "desk", name). */
module PlacementOrder {

  /** Lexicographic order on strings by code point; a prefix comes first. */
  predicate LexLe(a: string, b: string)
    decreases |a|
  {
    |a| == 0 || (|b| > 0 && (a[0] < b[0] || (a[0] == b[0] && LexLe(a[1..], b[1..]))))
  }

  lemma {:induction false} LexLeTotal(a: string, b: string)
    ensures LexLe(a, b) || LexLe(b, a)
    decreases |a|
  {
    if |a| > 0 && |b| > 0 && a[0] == b[0] {
      LexLeTotal(a[1..], b[1..]);
    }
  }

  lemma {:induction false} LexLeAntisymmetric(a: string, b: string)
    requires LexLe(a, b) && LexLe(b, a)
    ensures a == b
    decreases |a|
  {
    if |a| > 0 {
      LexLeAntisymmetric(a[1..], b[1..]);
      assert a == [a[0]] + a[1..] && b == [b[0]] + b[1..];
    }
  }

  lemma {:induction false} LexLeTransitive(a: string, b: string, c: string)
    requires LexLe(a, b) && LexLe(b, c)
    ensures LexLe(a, c)
    decreases |a|
  {
    if |a| > 0 && a[0] == b[0] && b[0] == c[0] {
      LexLeTransitive(a[1..], b[1..], c[1..]);
    }
  }

  /** key(a) <= key(b) for key(s) = (s != "desk", s). */
  predicate KeyLe(a: string, b: string)
  {
    a == "desk" || (b != "desk" && LexLe(a, b))
  }

  /** The key order is a total order on type names. */
  lemma KeyLeTotalOrder(a: string, b: string, c: string)
    ensures KeyLe(a, b) || KeyLe(b, a)
    ensures KeyLe(a, b) && KeyLe(b, a) ==> a == b
    ensures KeyLe(a, b) && KeyLe(b, c) ==> KeyLe(a, c)
  {
    LexLeTotal(a, b);
    if LexLe(a, b) && LexLe(b, a) {
      LexLeAntisymmetric(a, b);
    }
    if LexLe(a, b) && LexLe(b, c) {
      LexLeTransitive(a, b, c);
    }
  }

  predicate Sorted(s: seq<string>)
  {
    forall i, j :: 0 <= i < j < |s| ==> KeyLe(s[i], s[j])
  }

  /** Inserts t into a sorted sequence, before the first element above it. */
  function Insert(t: string, s: seq<string>): (r: seq<string>)
    requires Sorted(s)
    ensures Sorted(r)
    ensures multiset(r) == multiset(s) + multiset{t}
  {
    if |s| == 0 then [t]
    else if KeyLe(t, s[0]) then
      forall j | 0 <= j < |s| ensures KeyLe(t, s[j]) {
        if j > 0 {
          KeyLeTotalOrder(t, s[0], s[j]);
        }
      }
      [t] + s
    else
      KeyLeTotalOrder(t, s[0], s[0]);
      var rest := Insert(t, s[1..]);
      assert multiset(s) == multiset{s[0]} + multiset(s[1..]) by {
        assert s == [s[0]] + s[1..];
      }
      forall j | 0 <= j < |rest| ensures KeyLe(s[0], rest[j]) {
        assert rest[j] in multiset(rest);
        if rest[j] != t {
          assert rest[j] in multiset(s[1..]);
          var k :| 0 <= k < |s[1..]| && s[1..][k] == rest[j];
          assert s[k + 1] == rest[j];
        }
      }
      [s[0]] + rest
  }

  /** The placement order: sorted by the key (name != "desk", name), so a
      desk comes first and the other names follow in code-point order. */
  function SortForPlacement(s: seq<string>): (r: seq<string>)
    ensures Sorted(r)
    ensures multiset(r) == multiset(s)
    ensures |r| == |s|
  {
    if |s| == 0 then []
    else
      var r := Insert(s[|s| - 1], SortForPlacement(s[..|s| - 1]));
      assert s == s[..|s| - 1] + [s[|s| - 1]];
      assert |r| == |multiset(r)| == |multiset(s)| == |s|;
      r
  }

  /** There is only one sorted arrangement of a multiset of names, so any
      sorting algorithm, stable or not, gives the same sequence as
      SortForPlacement. */
  lemma {:induction false} SortedUnique(a: seq<string>, b: seq<string>)
    requires Sorted(a) && Sorted(b) && multiset(a) == multiset(b)
    ensures a == b
    decreases |a|
  {
    assert |a| == |multiset(a)| == |multiset(b)| == |b|;
    if |a| > 0 {
      SortedHeads(a, b);
      assert a == [a[0]] + a[1..] && b == [b[0]] + b[1..];
      assert multiset(a[1..]) == multiset(b[1..]) by {
        assert multiset(a) == multiset{a[0]} + multiset(a[1..]);
        assert multiset(b) == multiset{b[0]} + multiset(b[1..]);
        assert multiset(a[1..]) == multiset(a) - multiset{a[0]};
        assert multiset(b[1..]) == multiset(b) - multiset{b[0]};
      }
      SortedUnique(a[1..], b[1..]);
    }
  }

  /** Two sorted arrangements of one multiset start with the same name. */
  lemma SortedHeads(a: seq<string>, b: seq<string>)
    requires Sorted(a) && Sorted(b) && multiset(a) == multiset(b) && |a| > 0 && |b| > 0
    ensures a[0] == b[0]
  {
    assert a[0] in multiset(b);
    var i :| 0 <= i < |b| && b[i] == a[0];
    assert b[0] in multiset(a);
    var j :| 0 <= j < |a| && a[j] == b[0];
    assert KeyLe(b[0], a[0]) by {
      if i > 0 { } else { KeyLeTotalOrder(a[0], a[0], a[0]); }
    }
    assert KeyLe(a[0], b[0]) by {
      if j > 0 { } else { KeyLeTotalOrder(b[0], b[0], b[0]); }
    }
    KeyLeTotalOrder(a[0], b[0], b[0]);
  }

  /** When a desk is requested, it is placed first. */
  lemma DeskFirst(s: seq<string>)
    requires "desk" in s
    ensures SortForPlacement(s)[0] == "desk"
  {
    var r := SortForPlacement(s);
    assert "desk" in multiset(r);
    var k :| 0 <= k < |r| && r[k] == "desk";
    if k > 0 {
      assert KeyLe(r[0], r[k]);
    }
  }
}
