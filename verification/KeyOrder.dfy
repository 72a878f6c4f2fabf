/** The order in which a `std::map<string, T>` is walked: by key, comparing
    character by character. */
module KeyOrder {

  /** `operator<` on strings. */
  predicate Before(a: string, b: string) {
    b != "" && (a == "" || a[0] < b[0] || (a[0] == b[0] && Before(a[1..], b[1..])))
  }

  lemma {:induction false} Trichotomy(a: string, b: string)
    ensures a == b || Before(a, b) || Before(b, a)
    ensures !(Before(a, b) && Before(b, a)) && !Before(a, a)
  {
    if a != "" && b != "" && a[0] == b[0] {
      Trichotomy(a[1..], b[1..]);
      assert a == [a[0]] + a[1..] && b == [b[0]] + b[1..];
    }
    Irreflexive(a);
  }

  lemma {:induction false} Irreflexive(a: string)
    ensures !Before(a, a)
  {
    if a != "" { Irreflexive(a[1..]); }
  }

  lemma {:induction false} Transitive(a: string, b: string, c: string)
    requires Before(a, b) && Before(b, c)
    ensures Before(a, c)
  {
    if a != "" && a[0] == b[0] == c[0] {
      Transitive(a[1..], b[1..], c[1..]);
    }
  }

  /** The strings agree on their first k characters, and there a ends or has the
      smaller character. */
  predicate DiffersAt(a: string, b: string, k: nat) {
    && k <= |a| && k < |b| && a[..k] == b[..k]
    && (k == |a| || a[k] < b[k])
  }

  lemma {:induction false} BeforeAt(a: string, b: string, k: nat)
    requires DiffersAt(a, b, k)
    ensures Before(a, b)
  {
    if k > 0 {
      assert a[0] == a[..k][0] == b[..k][0] == b[0];
      assert a[1..][..k - 1] == a[..k][1..] == b[..k][1..] == b[1..][..k - 1];
      BeforeAt(a[1..], b[1..], k - 1);
    }
  }

  lemma {:induction false} BeforeWhere(a: string, b: string) returns (k: nat)
    requires Before(a, b)
    ensures DiffersAt(a, b, k)
  {
    if a == "" || a[0] < b[0] {
      k := 0;
    } else {
      var j := BeforeWhere(a[1..], b[1..]);
      k := j + 1;
      assert a[..k] == [a[0]] + a[1..][..j] && b[..k] == [b[0]] + b[1..][..j];
    }
  }

  /** The order is the lexicographic one. */
  lemma BeforeIff(a: string, b: string)
    ensures Before(a, b) <==> exists k :: DiffersAt(a, b, k)
  {
    if Before(a, b) {
      var k := BeforeWhere(a, b);
    }
    forall k | DiffersAt(a, b, k) ensures Before(a, b) { BeforeAt(a, b, k); }
  }

  predicate IsFirst(k: string, s: set<string>) {
    k in s && forall j :: j in s ==> j == k || Before(k, j)
  }

  lemma {:induction false} FirstExists(s: set<string>) returns (k: string)
    requires s != {}
    ensures IsFirst(k, s)
  {
    var x :| x in s;
    if s == {x} {
      k := x;
    } else {
      var rest := s - {x};
      assert s == rest + {x};
      k := FirstExists(rest);
      Trichotomy(x, k);
      if Before(x, k) {
        forall j | j in s ensures j == x || Before(x, j) {
          if j != x && j != k { Transitive(x, k, j); }
        }
        k := x;
      }
    }
  }

  lemma FirstUnique(s: set<string>)
    ensures forall a, b :: IsFirst(a, s) && IsFirst(b, s) ==> a == b
  {
    forall a, b | IsFirst(a, s) && IsFirst(b, s) ensures a == b { Trichotomy(a, b); }
  }

  /** `begin()` of a non-empty map. */
  function First(s: set<string>): (k: string)
    requires s != {}
    ensures IsFirst(k, s)
  {
    assert exists k :: IsFirst(k, s) by { var k := FirstExists(s); }
    FirstUnique(s);
    var k :| k in s && IsFirst(k, s);
    k
  }

  ghost predicate Ascending(ks: seq<string>) {
    forall i, j :: 0 <= i < j < |ks| ==> Before(ks[i], ks[j])
  }

  ghost predicate Distinct(ks: seq<string>) {
    forall i, j :: 0 <= i < j < |ks| ==> ks[i] != ks[j]
  }

  /** The keys in the order an iterator visits them: each exactly once. */
  function Keys(s: set<string>): (ks: seq<string>)
    ensures forall k :: k in ks <==> k in s
    ensures Ascending(ks) && Distinct(ks) && |ks| == |s|
  {
    if s == {} then []
    else
      var k := First(s);
      var rest := Keys(s - {k});
      assert Ascending([k] + rest) by {
        forall i, j | 0 <= i < j < |rest| + 1 ensures Before(([k] + rest)[i], ([k] + rest)[j]) {
          if i == 0 { assert rest[j - 1] in rest; }
        }
      }
      assert Distinct([k] + rest) by { AscendingDistinct([k] + rest); }
      [k] + rest
  }

  lemma AscendingDistinct(ks: seq<string>)
    requires Ascending(ks)
    ensures Distinct(ks)
  {
    forall i, j | 0 <= i < j < |ks| ensures ks[i] != ks[j] {
      Irreflexive(ks[i]);
    }
  }

  /** Ascending in the lexicographic order, as `operator<` has it. */
  lemma KeysAscend(s: set<string>, i: nat, j: nat)
    requires i < j < |Keys(s)|
    ensures exists k :: DiffersAt(Keys(s)[i], Keys(s)[j], k)
  {
    BeforeIff(Keys(s)[i], Keys(s)[j]);
  }
}
