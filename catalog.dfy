/** `ordenar_produtos_customizado`: how the cashier's menu lists products.
    Products of a system category (the combos) come first, then the other
    products, then drinks, then desserts; each group is sorted by name with
    Python's stable sort. */
module Catalog {
  import opened Common
  import opened Models

  datatype Group = Combos | Others | Drinks | Desserts

  function Rank(g: Group): nat {
    match g
    case Combos => 0
    case Others => 1
    case Drinks => 2
    case Desserts => 3
  }

  /** `str.lower()` on the letters that matter here. Python's `lower` also
      maps other scripts, but no non-ASCII character lowers to a string that
      contains 'sobremesa' or 'bebida' where the original did not, so the two
      tests below give the same answers. */
  function Lower(s: string): (r: string)
    ensures |r| == |s|
    ensures forall i :: 0 <= i < |s| && 'A' <= s[i] <= 'Z' ==> r[i] as int == s[i] as int + 32
    ensures forall i :: 0 <= i < |s| && !('A' <= s[i] <= 'Z') ==> r[i] == s[i]
  {
    seq(|s|, i requires 0 <= i < |s| => if 'A' <= s[i] <= 'Z' then (s[i] as int + 32) as char else s[i])
  }

  /** Python's `w in s` on strings: `w` occurs somewhere in `s`. */
  predicate Contains(s: string, w: string) {
    exists i :: 0 <= i <= |s| - |w| && OccursAt(s, w, i)
  }

  predicate OccursAt(s: string, w: string, i: int) {
    0 <= i <= |s| - |w| && s[i..i + |w|] == w
  }

  /** The branch a product takes: a system category first, then
      'sobremesa' (checked before 'bebida') in the lower-cased category
      name; no category, or any other name, is "other". */
  function GroupOf(categories: map<CategoryId, Category>, p: Product): Group {
    if p.category.None? || p.category.value !in categories then Others
    else
      var c := categories[p.category.value];
      if c.isSystem then Combos
      else if Contains(Lower(c.name), "sobremesa") then Desserts
      else if Contains(Lower(c.name), "bebida") then Drinks
      else Others
  }

  /** A category whose name mentions both goes with the desserts. */
  lemma DessertBeatsDrink(categories: map<CategoryId, Category>, p: Product)
    requires p.category.Some? && p.category.value in categories
    requires !categories[p.category.value].isSystem
    requires Contains(Lower(categories[p.category.value].name), "sobremesa")
    ensures GroupOf(categories, p) == Desserts
  {
  }

  // ---------- the order on names ----------

  /** Python's `<=` on `str`: code point by code point, a prefix first. */
  predicate NameLe(a: string, b: string)
    decreases |a|
  {
    a == [] || (b != [] && (a[0] < b[0] || (a[0] == b[0] && NameLe(a[1..], b[1..]))))
  }

  lemma {:induction false} NameLeRefl(a: string)
    ensures NameLe(a, a)
    decreases |a|
  {
    if a != [] {
      NameLeRefl(a[1..]);
    }
  }

  lemma {:induction false} NameLeTotal(a: string, b: string)
    ensures NameLe(a, b) || NameLe(b, a)
    decreases |a|
  {
    if a != [] && b != [] && a[0] == b[0] {
      NameLeTotal(a[1..], b[1..]);
    }
  }

  lemma {:induction false} NameLeTrans(a: string, b: string, c: string)
    requires NameLe(a, b) && NameLe(b, c)
    ensures NameLe(a, c)
    decreases |a|
  {
    if a != [] && a[0] == b[0] && b[0] == c[0] {
      NameLeTrans(a[1..], b[1..], c[1..]);
    }
  }

  lemma {:induction false} NameLeAntisym(a: string, b: string)
    requires NameLe(a, b) && NameLe(b, a)
    ensures a == b
    decreases |a|
  {
    if a != [] {
      NameLeAntisym(a[1..], b[1..]);
      assert a == [a[0]] + a[1..] && b == [b[0]] + b[1..];
    }
  }

  // ---------- list.sort(key=lambda p: p.nome) ----------

  predicate SortedByName(s: seq<Product>) {
    forall i, j :: 0 <= i < j < |s| ==> NameLe(s[i].name, s[j].name)
  }

  /** Puts `x` before the first product whose name is not smaller. */
  function Insert(x: Product, s: seq<Product>): (r: seq<Product>)
    ensures multiset(r) == multiset(s) + multiset{x}
    decreases |s|
  {
    if s == [] then [x]
    else if NameLe(x.name, s[0].name) then [x] + s
    else
      var r := [s[0]] + Insert(x, s[1..]);
      assert s == [s[0]] + s[1..];
      r
  }

  function SortByName(s: seq<Product>): (r: seq<Product>)
    ensures multiset(r) == multiset(s)
    decreases |s|
  {
    if s == [] then []
    else
      var r := Insert(s[0], SortByName(s[1..]));
      assert s == [s[0]] + s[1..];
      r
  }

  lemma {:induction false} InsertSorted(x: Product, s: seq<Product>)
    requires SortedByName(s)
    ensures SortedByName(Insert(x, s))
    decreases |s|
  {
    if s != [] {
      if NameLe(x.name, s[0].name) {
        var r := [x] + s;
        forall i, j | 0 <= i < j < |r| ensures NameLe(r[i].name, r[j].name) {
          if i == 0 {
            if j > 1 {
              NameLeTrans(x.name, s[0].name, s[j - 1].name);
            }
          } else {
            assert r[i] == s[i - 1] && r[j] == s[j - 1];
          }
        }
      } else {
        NameLeTotal(x.name, s[0].name);
        assert SortedByName(s[1..]) by {
          assert forall k :: 0 <= k < |s[1..]| ==> s[1..][k] == s[k + 1];
        }
        InsertSorted(x, s[1..]);
        var t := Insert(x, s[1..]);
        forall k | 0 <= k < |t| ensures NameLe(s[0].name, t[k].name) {
          assert t[k] in multiset(t);
          assert t[k] == x || t[k] in multiset(s[1..]);
          if t[k] != x {
            var m :| 0 <= m < |s[1..]| && s[1..][m] == t[k];
            assert s[m + 1] == t[k];
          }
        }
        ConsSorted(s[0], t);
      }
    }
  }

  lemma ConsSorted(x: Product, t: seq<Product>)
    requires SortedByName(t)
    requires forall k :: 0 <= k < |t| ==> NameLe(x.name, t[k].name)
    ensures SortedByName([x] + t)
  {
    var r := [x] + t;
    forall i, j | 0 <= i < j < |r| ensures NameLe(r[i].name, r[j].name) {
      assert r[j] == t[j - 1];
      if i > 0 {
        assert r[i] == t[i - 1];
      }
    }
  }

  /** The sort orders by name. */
  lemma {:induction false} SortSorted(s: seq<Product>)
    ensures SortedByName(SortByName(s))
    decreases |s|
  {
    if s != [] {
      SortSorted(s[1..]);
      InsertSorted(s[0], SortByName(s[1..]));
    }
  }

  /** The products named `n`, in their order. */
  function Named(s: seq<Product>, n: string): seq<Product>
    decreases |s|
  {
    if s == [] then [] else (if s[0].name == n then [s[0]] else []) + Named(s[1..], n)
  }

  lemma NamedCons(x: Product, s: seq<Product>, n: string)
    ensures Named([x] + s, n) == (if x.name == n then [x] else []) + Named(s, n)
  {
    assert ([x] + s)[1..] == s;
  }

  lemma InsertStableStep(x: Product, y: Product, t: seq<Product>, rest: seq<Product>, n: string)
    requires y.name != x.name
    requires Named(t, n) == (if x.name == n then [x] else []) + Named(rest, n)
    ensures Named([y] + t, n) == (if x.name == n then [x] else []) + Named([y] + rest, n)
  {
    NamedCons(y, t, n);
    NamedCons(y, rest, n);
    if x.name == n {
      assert y.name != n;
    }
  }

  lemma {:induction false} InsertStable(x: Product, s: seq<Product>, n: string)
    ensures Named(Insert(x, s), n) == (if x.name == n then [x] else []) + Named(s, n)
    decreases |s|
  {
    if s == [] {
      assert Insert(x, s) == [x];
      assert Named([x], n) == (if x.name == n then [x] else []) + Named([], n);
    } else if NameLe(x.name, s[0].name) {
      assert Insert(x, s) == [x] + s;
      NamedCons(x, s, n);
    } else {
      NameLeRefl(x.name);
      InsertStable(x, s[1..], n);
      InsertStableStep(x, s[0], Insert(x, s[1..]), s[1..], n);
      assert [s[0]] + s[1..] == s;
    }
  }

  /** The sort is stable: products with the same name keep their order. */
  lemma {:induction false} SortStable(s: seq<Product>, n: string)
    ensures Named(SortByName(s), n) == Named(s, n)
    decreases |s|
  {
    if s != [] {
      SortStable(s[1..], n);
      InsertStable(s[0], SortByName(s[1..]), n);
    }
  }

  // ---------- the four groups ----------

  /** The products of one group, in the order they were read. */
  function Bucket(categories: map<CategoryId, Category>, ps: seq<Product>, g: Group): (r: seq<Product>)
    decreases |ps|
  {
    if ps == [] then []
    else
      var rest := Bucket(categories, ps[1..], g);
      (if GroupOf(categories, ps[0]) == g then [ps[0]] else []) + rest
  }

  lemma BucketCons(categories: map<CategoryId, Category>, ps: seq<Product>, g: Group)
    requires ps != []
    ensures Bucket(categories, ps, g) ==
            (if GroupOf(categories, ps[0]) == g then [ps[0]] else []) + Bucket(categories, ps[1..], g)
  {
  }

  /** What `ordenar_produtos_customizado` returns. */
  function Arranged(categories: map<CategoryId, Category>, ps: seq<Product>): seq<Product> {
    SortByName(Bucket(categories, ps, Combos)) + SortByName(Bucket(categories, ps, Others))
    + SortByName(Bucket(categories, ps, Drinks)) + SortByName(Bucket(categories, ps, Desserts))
  }

  /** Each product is dealt into its own group's list, as often as it
      occurs, and into no other. */
  lemma {:induction false} BucketCount(categories: map<CategoryId, Category>, ps: seq<Product>, g: Group, y: Product)
    ensures multiset(Bucket(categories, ps, g))[y] == if GroupOf(categories, y) == g then multiset(ps)[y] else 0
    decreases |ps|
  {
    if ps != [] {
      BucketCount(categories, ps[1..], g, y);
      BucketCons(categories, ps, g);
      assert ps == [ps[0]] + ps[1..];
    }
  }

  /** The listing holds each product as often as the query returned it. */
  lemma ArrangedPermutation(categories: map<CategoryId, Category>, ps: seq<Product>)
    ensures multiset(Arranged(categories, ps)) == multiset(ps)
  {
    var c := Bucket(categories, ps, Combos);
    var o := Bucket(categories, ps, Others);
    var d := Bucket(categories, ps, Drinks);
    var s := Bucket(categories, ps, Desserts);
    forall y ensures multiset(c)[y] + multiset(o)[y] + multiset(d)[y] + multiset(s)[y] == multiset(ps)[y] {
      BucketCount(categories, ps, Combos, y);
      BucketCount(categories, ps, Others, y);
      BucketCount(categories, ps, Drinks, y);
      BucketCount(categories, ps, Desserts, y);
    }
    FourPieces(SortByName(c), SortByName(o), SortByName(d), SortByName(s), c, o, d, s, ps);
  }

  lemma FourPieces(a: seq<Product>, b: seq<Product>, c: seq<Product>, d: seq<Product>,
                   a0: seq<Product>, b0: seq<Product>, c0: seq<Product>, d0: seq<Product>, ps: seq<Product>)
    requires multiset(a) == multiset(a0) && multiset(b) == multiset(b0)
    requires multiset(c) == multiset(c0) && multiset(d) == multiset(d0)
    requires forall y :: multiset(a0)[y] + multiset(b0)[y] + multiset(c0)[y] + multiset(d0)[y] == multiset(ps)[y]
    ensures multiset(a + b + c + d) == multiset(ps)
  {
    assert multiset(a + b + c + d) == multiset(a0) + multiset(b0) + multiset(c0) + multiset(d0);
  }

  /** A product's place among the groups. */
  function RankIn(categories: map<CategoryId, Category>): Product -> nat {
    p => Rank(GroupOf(categories, p))
  }

  /** Ranks never decrease along `r`, and names ascend among products of
      equal rank. */
  predicate ListedBy(rank: Product -> nat, r: seq<Product>) {
    forall i, j :: 0 <= i < j < |r| ==>
      rank(r[i]) < rank(r[j]) || (rank(r[i]) == rank(r[j]) && NameLe(r[i].name, r[j].name))
  }

  /** Groups come in rank order, and within a group (ranks are distinct per
      group) names ascend. */
  predicate Listed(categories: map<CategoryId, Category>, r: seq<Product>) {
    ListedBy(RankIn(categories), r)
  }

  /** One sorted bucket is listed, and its ranks are its group's. */
  lemma PieceListed(categories: map<CategoryId, Category>, ps: seq<Product>, g: Group)
    ensures ListedBy(RankIn(categories), SortByName(Bucket(categories, ps, g)))
    ensures forall k :: 0 <= k < |SortByName(Bucket(categories, ps, g))| ==>
              RankIn(categories)(SortByName(Bucket(categories, ps, g))[k]) == Rank(g)
  {
    var b := Bucket(categories, ps, g);
    var s := SortByName(b);
    SortSorted(b);
    forall k | 0 <= k < |s| ensures RankIn(categories)(s[k]) == Rank(g) {
      assert s[k] in multiset(s);
      BucketCount(categories, ps, g, s[k]);
    }
  }

  /** Two listed runs, the first of lower rank throughout, list together. */
  lemma ConcatListed(rank: Product -> nat, a: seq<Product>, b: seq<Product>, bound: nat)
    requires ListedBy(rank, a) && ListedBy(rank, b)
    requires forall k :: 0 <= k < |a| ==> rank(a[k]) < bound
    requires forall k :: 0 <= k < |b| ==> rank(b[k]) >= bound
    ensures ListedBy(rank, a + b)
  {
    var r := a + b;
    forall i, j | 0 <= i < j < |r|
      ensures rank(r[i]) < rank(r[j]) || (rank(r[i]) == rank(r[j]) && NameLe(r[i].name, r[j].name))
    {
      if j < |a| {
        assert r[i] == a[i] && r[j] == a[j];
      } else if i >= |a| {
        assert r[i] == b[i - |a|] && r[j] == b[j - |a|];
      } else {
        assert r[i] == a[i] && r[j] == b[j - |a|];
      }
    }
  }

  lemma ConcatRanks(rank: Product -> nat, a: seq<Product>, b: seq<Product>, bound: nat)
    requires forall k :: 0 <= k < |a| ==> rank(a[k]) < bound
    requires forall k :: 0 <= k < |b| ==> rank(b[k]) < bound
    ensures forall k :: 0 <= k < |a + b| ==> rank((a + b)[k]) < bound
  {
    forall k | 0 <= k < |a + b| ensures rank((a + b)[k]) < bound {
      if k >= |a| {
        assert (a + b)[k] == b[k - |a|];
      }
    }
  }

  /** The listing puts the combos first, then the others, the drinks and the
      desserts, each group in name order. */
  lemma ArrangedListed(categories: map<CategoryId, Category>, ps: seq<Product>)
    ensures Listed(categories, Arranged(categories, ps))
  {
    var c := SortByName(Bucket(categories, ps, Combos));
    var o := SortByName(Bucket(categories, ps, Others));
    var d := SortByName(Bucket(categories, ps, Drinks));
    var s := SortByName(Bucket(categories, ps, Desserts));
    PieceListed(categories, ps, Combos);
    PieceListed(categories, ps, Others);
    PieceListed(categories, ps, Drinks);
    PieceListed(categories, ps, Desserts);
    FourListed(RankIn(categories), c, o, d, s);
  }

  /** Four listed runs of ranks 0, 1, 2 and 3 list together in that order. */
  lemma FourListed(f: Product -> nat, c: seq<Product>, o: seq<Product>, d: seq<Product>, s: seq<Product>)
    requires ListedBy(f, c) && ListedBy(f, o) && ListedBy(f, d) && ListedBy(f, s)
    requires forall k :: 0 <= k < |c| ==> f(c[k]) == Rank(Combos)
    requires forall k :: 0 <= k < |o| ==> f(o[k]) == Rank(Others)
    requires forall k :: 0 <= k < |d| ==> f(d[k]) == Rank(Drinks)
    requires forall k :: 0 <= k < |s| ==> f(s[k]) == Rank(Desserts)
    ensures ListedBy(f, c + o + d + s)
  {
    ConcatListed(f, c, o, 1);
    ConcatRanks(f, c, o, 2);
    ConcatListed(f, c + o, d, 2);
    ConcatRanks(f, c + o, d, 3);
    ConcatListed(f, c + o + d, s, 3);
  }

  /** Within each group, products of the same name keep the order in which
      the query returned them. */
  lemma ArrangedStable(categories: map<CategoryId, Category>, ps: seq<Product>, g: Group, n: string)
    ensures Named(SortByName(Bucket(categories, ps, g)), n) == Named(Bucket(categories, ps, g), n)
  {
    SortStable(Bucket(categories, ps, g), n);
  }

  /** One step of the dealing loop, for the list of group `g`. */
  lemma Dealt(categories: map<CategoryId, Category>, ps: seq<Product>, k: nat, g: Group, pile: seq<Product>)
    requires k < |ps| && Bucket(categories, ps, g) == pile + Bucket(categories, ps[k..], g)
    ensures Bucket(categories, ps, g) ==
            (if GroupOf(categories, ps[k]) == g then pile + [ps[k]] else pile) + Bucket(categories, ps[k + 1..], g)
  {
    assert ps[k..][1..] == ps[k + 1..];
    BucketCons(categories, ps[k..], g);
  }

  /** The loop of `ordenar_produtos_customizado` that deals the products
      into the four lists, followed by the four sorts and the concatenation. */
  method Arrange(categories: map<CategoryId, Category>, ps: seq<Product>) returns (r: seq<Product>)
    ensures r == Arranged(categories, ps)
  {
    var combos, others, drinks, desserts := [], [], [], [];
    var k := 0;
    while k < |ps|
      invariant 0 <= k <= |ps|
      invariant Bucket(categories, ps, Combos) == combos + Bucket(categories, ps[k..], Combos)
      invariant Bucket(categories, ps, Others) == others + Bucket(categories, ps[k..], Others)
      invariant Bucket(categories, ps, Drinks) == drinks + Bucket(categories, ps[k..], Drinks)
      invariant Bucket(categories, ps, Desserts) == desserts + Bucket(categories, ps[k..], Desserts)
    {
      var p := ps[k];
      var g := GroupOf(categories, p);
      Dealt(categories, ps, k, Combos, combos);
      Dealt(categories, ps, k, Others, others);
      Dealt(categories, ps, k, Drinks, drinks);
      Dealt(categories, ps, k, Desserts, desserts);
      if g == Combos {
        combos := combos + [p];
      } else if g == Desserts {
        desserts := desserts + [p];
      } else if g == Drinks {
        drinks := drinks + [p];
      } else {
        others := others + [p];
      }
      k := k + 1;
    }
    assert ps[k..] == [];
    assert Bucket(categories, [], Combos) == [] && Bucket(categories, [], Others) == [];
    assert Bucket(categories, [], Drinks) == [] && Bucket(categories, [], Desserts) == [];
    assert combos + [] == combos && others + [] == others && drinks + [] == drinks && desserts + [] == desserts;
    assert combos == Bucket(categories, ps, Combos) && others == Bucket(categories, ps, Others);
    assert drinks == Bucket(categories, ps, Drinks) && desserts == Bucket(categories, ps, Desserts);
    r := SortByName(combos) + SortByName(others) + SortByName(drinks) + SortByName(desserts);
  }
}
