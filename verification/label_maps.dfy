/** Label vocabularies: the label-to-id map built from a set of labels
    ({label: idx for idx, label in enumerate(sorted(labels))}) and the
    inversion of a label map ({v: k for k, v in m.items()}), used by the
    CoNLL-U dataset and by both annotation scripts. */
module LabelMaps {
  import opened Strings

  /** The number of labels of s that sort strictly before a: a's index in sorted(s). */
  function Rank(s: set<string>, a: string): nat {
    |set b | b in s && StrLess(b, a)|
  }

  lemma SubsetCard<T>(a: set<T>, b: set<T>)
    requires a <= b
    ensures |a| <= |b|
    ensures a < b ==> |a| < |b|
  {
    assert b == a + (b - a);
    assert a !! (b - a);
    assert a < b ==> b - a != {};
  }

  lemma {:induction false} RankFacts(s: set<string>)
    ensures forall a :: a in s ==> Rank(s, a) < |s|
    ensures forall a, b :: a in s && b in s && StrLess(a, b) ==> Rank(s, a) < Rank(s, b)
  {
    StrLessOrder();
    forall a | a in s ensures Rank(s, a) < |s| {
      SubsetCard((set b | b in s && StrLess(b, a)), s);
    }
    forall a, b | a in s && b in s && StrLess(a, b) ensures Rank(s, a) < Rank(s, b) {
      var below_a := set c | c in s && StrLess(c, a);
      var below_b := set c | c in s && StrLess(c, b);
      assert below_a <= below_b;
      assert a in below_b && a !in below_a;
      SubsetCard(below_a, below_b);
    }
  }

  /** The label map the dataset builds when none is supplied: sorted labels get 0, 1, 2, ... */
  function LabelMap(s: set<string>): (m: map<string, int>)
    ensures m.Keys == s
    ensures forall a :: a in m ==> 0 <= m[a] < |s|
  {
    RankFacts(s);
    map a | a in s :: Rank(s, a)
  }

  /** The ids follow the sorted order of the labels. */
  lemma LabelMapSorted(s: set<string>)
    ensures forall a, b :: a in s && b in s && StrLess(a, b) ==> LabelMap(s)[a] < LabelMap(s)[b]
  {
    RankFacts(s);
  }

  predicate Injective(m: map<string, int>) {
    forall a, b :: a in m && b in m && a != b ==> m[a] != m[b]
  }

  /** The ids 0 .. n-1. */
  function Ids(n: nat): (r: set<int>)
    ensures forall i :: i in r <==> 0 <= i < n
  {
    if n == 0 then {} else Ids(n - 1) + {n - 1}
  }

  lemma {:induction false} IdsCard(n: nat)
    ensures |Ids(n)| == n
  {
    if n > 0 {
      IdsCard(n - 1);
    }
  }

  lemma {:induction false} InjectiveCard(m: map<string, int>)
    requires Injective(m)
    ensures |m.Values| == |m.Keys|
    decreases |m.Keys|
  {
    if m.Keys != {} {
      var k :| k in m;
      var rest := m - {k};
      assert rest.Keys == m.Keys - {k};
      forall v | v in m.Values - {m[k]} ensures v in rest.Values {
        var k' :| k' in m && m[k'] == v;
        assert k' in rest;
      }
      assert rest.Values == m.Values - {m[k]};
      InjectiveCard(rest);
    }
  }

  lemma LabelMapInjective(s: set<string>)
    ensures Injective(LabelMap(s))
  {
    var m := LabelMap(s);
    LabelMapSorted(s);
    forall a, b | a in m && b in m && a != b ensures m[a] != m[b] {
      StrLessTotal(a, b);
    }
  }

  lemma LabelMapIdsBound(s: set<string>)
    ensures LabelMap(s).Values <= Ids(|s|)
  {
    var m := LabelMap(s);
    forall v | v in m.Values ensures v in Ids(|s|) {
      var k :| k in m && m[k] == v;
    }
  }

  /** A set of n ids below n holds every id below n. */
  lemma AllIds(vs: set<int>, n: nat)
    requires vs <= Ids(n) && |vs| == n
    ensures vs == Ids(n)
  {
    IdsCard(n);
    SubsetCard(vs, Ids(n));
  }

  /** The built label map is a bijection from the labels onto the ids 0 .. |s|-1. */
  lemma {:induction false} LabelMapBijective(s: set<string>)
    ensures Injective(LabelMap(s))
    ensures LabelMap(s).Values == Ids(|s|)
  {
    var m := LabelMap(s);
    LabelMapIdsBound(s);
    LabelMapInjective(s);
    InjectiveCard(m);
    assert |m.Values| == |s|;
    AllIds(m.Values, |s|);
  }

  // ---------------------------------------------------------------------------
  // {v: k for k, v in m.items()}

  /** k is the label that the inversion keeps for the id m[k]. */
  predicate KeptKey(m: map<string, int>, k: string)
    requires k in m
  {
    forall k' :: k' in m && m[k'] == m[k] ==> !StrLess(k', k)
  }

  lemma LeastExists(s: set<string>)
    requires s != {}
    ensures exists k :: k in s && forall k' :: k' in s ==> !StrLess(k', k)
  {
    StrLessOrder();
    LeastExistsBy(s, StrLess);
  }

  /** A finite non-empty set has a least element under any strict order. */
  lemma {:induction false} LeastExistsBy(s: set<string>, less: (string, string) -> bool)
    requires s != {}
    requires forall a :: !less(a, a)
    requires forall a, b, c :: less(a, b) && less(b, c) ==> less(a, c)
    ensures exists k :: k in s && forall k' :: k' in s ==> !less(k', k)
    decreases |s|
  {
    var x :| x in s;
    var rest := s - {x};
    if rest == {} {
      forall k' | k' in s ensures !less(k', x) {
        assert k' !in rest;
      }
    } else {
      LeastExistsBy(rest, less);
      var y :| y in rest && forall k' :: k' in rest ==> !less(k', y);
      if !less(x, y) {
        forall k' | k' in s ensures !less(k', y) {
          if k' != x {
            assert k' in rest;
          }
        }
      } else {
        forall k' | k' in s ensures !less(k', x) {
          if k' != x {
            assert k' in rest;
          }
        }
      }
    }
  }

  lemma InvertCovers(m: map<string, int>)
    ensures forall v :: v in m.Values ==> exists k :: k in m && m[k] == v && KeptKey(m, k)
  {
    forall v | v in m.Values ensures exists k :: k in m && m[k] == v && KeptKey(m, k) {
      var keys := set k | k in m && m[k] == v;
      var k0 :| k0 in m && m[k0] == v;
      assert k0 in keys;
      LeastExists(keys);
      var k :| k in keys && forall k' :: k' in keys ==> !StrLess(k', k);
      assert KeptKey(m, k);
    }
  }

  /** The inverse of a label map: every id it holds, mapped back to a label with that id.
      Where several labels share an id, the one that sorts first is kept. */
  function Invert(m: map<string, int>): (r: map<int, string>)
    ensures forall v :: v in r <==> v in m.Values
    ensures forall v :: v in r ==> r[v] in m && m[r[v]] == v
  {
    map v | v in m.Values :: KeptFor(m, v)
  }

  /** Two labels kept for the same id are the same label. */
  lemma KeptUnique(m: map<string, int>, k1: string, k2: string)
    requires k1 in m && k2 in m && m[k1] == m[k2] && KeptKey(m, k1) && KeptKey(m, k2)
    ensures k1 == k2
  {
    if k1 != k2 {
      StrLessTotal(k1, k2);
    }
  }

  /** The label kept for id v: among the labels with that id, the one that sorts first. */
  function KeptFor(m: map<string, int>, v: int): (k: string)
    requires v in m.Values
    ensures k in m && m[k] == v && KeptKey(m, k)
  {
    InvertCovers(m);
    assert forall k1, k2 :: k1 in m && m[k1] == v && KeptKey(m, k1) && k2 in m && m[k2] == v && KeptKey(m, k2) ==> k1 == k2 by {
      forall k1, k2 | k1 in m && m[k1] == v && KeptKey(m, k1) && k2 in m && m[k2] == v && KeptKey(m, k2) ensures k1 == k2 {
        KeptUnique(m, k1, k2);
      }
    }
    var k :| k in m && m[k] == v && KeptKey(m, k);
    k
  }

  /** For an injective map, Invert undoes the map exactly. */
  lemma InvertInjective(m: map<string, int>)
    requires Injective(m)
    ensures forall k :: k in m ==> m[k] in Invert(m) && Invert(m)[m[k]] == k
  {
  }

  /** The inverse of a bijection onto 0 .. n-1 is defined on exactly those ids and
      undoes the map in both directions. */
  lemma {:induction false} InvertBijection(m: map<string, int>, n: nat)
    requires Injective(m) && m.Values == Ids(n)
    ensures forall i :: i in Invert(m) <==> 0 <= i < n
    ensures forall a :: a in m ==> Invert(m)[m[a]] == a
    ensures forall i :: 0 <= i < n ==> Invert(m)[i] in m && m[Invert(m)[i]] == i
  {
    InvertInjective(m);
  }

  /** id2label built from a fresh label map: ids 0 .. n-1, each mapping back to its label. */
  lemma {:induction false} LabelMapInverse(s: set<string>)
    ensures var m := LabelMap(s);
      && (forall i :: i in Invert(m) <==> 0 <= i < |s|)
      && (forall a :: a in m ==> Invert(m)[m[a]] == a)
      && (forall i :: 0 <= i < |s| ==> Invert(m)[i] in m && m[Invert(m)[i]] == i)
  {
    LabelMapBijective(s);
    InvertBijection(LabelMap(s), |s|);
  }
}
