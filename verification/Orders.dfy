/** Strictly ascending lists of numbers. */
module Orders {
  ghost predicate Ascending(s: seq<nat>) {
    forall i, j :: 0 <= i < j < |s| ==> s[i] < s[j]
  }

  lemma AscendingAppend(s: seq<nat>, x: nat)
    requires Ascending(s) && forall v :: v in s ==> v < x
    ensures Ascending(s + [x]) && forall v :: v in s + [x] <==> v in s || v == x
  {
    forall i, j | 0 <= i < j < |s + [x]| ensures (s + [x])[i] < (s + [x])[j] {
      assert (s + [x])[i] in s;
    }
  }

  lemma AscendingStep(s: seq<nat>, x: nat)
    requires Ascending(s)
    ensures Ascending(s + [x]) <==> s == [] || s[|s| - 1] < x
    ensures Ascending(s + [x]) ==> x !in s
  {
    if s == [] || s[|s| - 1] < x {
      forall i, j | 0 <= i < j < |s + [x]| ensures (s + [x])[i] < (s + [x])[j] {
      }
    } else {
      assert (s + [x])[|s| - 1] >= (s + [x])[|s|];
    }
  }

  lemma AscendingPrefix(s: seq<nat>, x: nat)
    requires Ascending(s + [x])
    ensures Ascending(s)
  {
    forall i, j | 0 <= i < j < |s| ensures s[i] < s[j] {
      assert (s + [x])[i] < (s + [x])[j];
    }
  }

  /** An ascending list is determined by its members. */
  lemma {:induction false} AscendingUnique(a: seq<nat>, b: seq<nat>)
    requires Ascending(a) && Ascending(b) && forall v :: v in a <==> v in b
    ensures a == b
    decreases |a|
  {
    if a != [] { SameEmptiness(b, a); }
    if b != [] {
      SameEmptiness(a, b);
      LastIsLargest(a, b);
      var a', b' := a[..|a| - 1], b[..|b| - 1];
      forall v ensures v in a' <==> v in b' {
        InitMembers(a, v);
        InitMembers(b, v);
      }
      AscendingUnique(a', b');
      assert a == a' + [a[|a| - 1]] && b == b' + [b[|b| - 1]];
    }
  }

  lemma SameEmptiness(a: seq<nat>, b: seq<nat>)
    requires (forall v :: v in a <==> v in b) && b != []
    ensures a != []
  {
    assert b[0] in a;
  }

  lemma LastIsLargest(a: seq<nat>, b: seq<nat>)
    requires Ascending(a) && Ascending(b) && (forall v :: v in a <==> v in b) && a != [] && b != []
    ensures a[|a| - 1] == b[|b| - 1]
  {
    assert a[|a| - 1] in b;
    var i :| 0 <= i < |b| && b[i] == a[|a| - 1];
    assert b[|b| - 1] in a;
    var j :| 0 <= j < |a| && a[j] == b[|b| - 1];
  }

  lemma InitMembers(s: seq<nat>, v: nat)
    requires Ascending(s) && s != []
    ensures v in s[..|s| - 1] <==> v in s && v != s[|s| - 1]
  {
    if v in s && v != s[|s| - 1] {
      var i :| 0 <= i < |s| && s[i] == v;
      assert s[..|s| - 1][i] == v;
    }
  }
}
