/**
 * The relation table `updateRelations` writes: one relation for every
 * ordered pair of distinct shop keys, (a, b) and (b, a) separately.
 */
module RelationTable {
  import opened Shops

  type Pair = (string, string)

  /** The ordered pairs (a, b) with a drawn from `from`, b from `to`, and a != b. */
  function PairsFrom(from: set<string>, to: set<string>): set<Pair> {
    set a, b | a in from && b in to && a != b :: (a, b)
  }

  /** The relations for the pairs of `PairsFrom(from, to)`, each built from the two current shops. */
  function Table(shops: map<string, Shop>, from: set<string>, to: set<string>): (t: map<Pair, Relation>)
    requires from <= shops.Keys && to <= shops.Keys
    ensures t.Keys == PairsFrom(from, to)
    ensures forall a, b :: a in from && b in to && a != b ==> (a, b) in t && t[(a, b)] == Relation(shops[a], shops[b])
    ensures forall a :: (a, a) !in t
  {
    map p | p in PairsFrom(from, to) :: Relation(shops[p.0], shops[p.1])
  }

  /** Every ordered pair of distinct keys of the registry, related. */
  function FullTable(shops: map<string, Shop>): map<Pair, Relation> {
    Table(shops, shops.Keys, shops.Keys)
  }

  /** One more inner-loop step: the pair (a, b) joins the table. */
  lemma TableAddTo(shops: map<string, Shop>, a: string, to: set<string>, b: string)
    requires a in shops && to <= shops.Keys && b in shops && a != b
    ensures Table(shops, {a}, to)[(a, b) := Relation(shops[a], shops[b])] == Table(shops, {a}, to + {b})
  {
    var lhs := Table(shops, {a}, to)[(a, b) := Relation(shops[a], shops[b])];
    var rhs := Table(shops, {a}, to + {b});
    assert lhs.Keys == rhs.Keys;
  }

  /** The self-pair (a, a) is skipped: the table does not change. */
  lemma TableAddSelf(shops: map<string, Shop>, a: string, to: set<string>)
    requires a in shops && to <= shops.Keys
    ensures Table(shops, {a}, to) == Table(shops, {a}, to + {a})
  {
    assert PairsFrom({a}, to) == PairsFrom({a}, to + {a});
  }

  /** One more outer-loop step: the pairs from `a` join the table. */
  lemma TableAddFrom(shops: map<string, Shop>, from: set<string>, a: string, to: set<string>)
    requires from <= shops.Keys && a in shops && to <= shops.Keys
    ensures Table(shops, from, to) + Table(shops, {a}, to) == Table(shops, from + {a}, to)
  {
    var lhs := Table(shops, from, to) + Table(shops, {a}, to);
    var rhs := Table(shops, from + {a}, to);
    assert lhs.Keys == rhs.Keys;
  }

  /** The pairs (x, b) for b in `s`: as many as `s` has elements. */
  lemma {:induction false} RowSize(x: string, s: set<string>)
    ensures |set b | b in s :: (x, b)| == |s|
    decreases |s|
  {
    if s != {} {
      var y :| y in s;
      var rest := s - {y};
      RowSize(x, rest);
      assert (set b | b in s :: (x, b)) == (set b | b in rest :: (x, b)) + {(x, y)};
    }
  }

  /** The pairs (a, x) for a in `s`: as many as `s` has elements. */
  lemma {:induction false} ColumnSize(x: string, s: set<string>)
    ensures |set a | a in s :: (a, x)| == |s|
    decreases |s|
  {
    if s != {} {
      var y :| y in s;
      var rest := s - {y};
      ColumnSize(x, rest);
      assert (set a | a in s :: (a, x)) == (set a | a in rest :: (a, x)) + {(y, x)};
    }
  }

  /** The pairs over `keys` are those over `keys - {x}`, those leaving `x` and those entering `x`. */
  lemma PairsSplit(keys: set<string>, x: string)
    requires x in keys
    ensures PairsFrom(keys, keys) ==
            PairsFrom(keys - {x}, keys - {x}) + (set b | b in keys - {x} :: (x, b)) + (set a | a in keys - {x} :: (a, x))
  {
    var rest := keys - {x};
    var row := set b | b in rest :: (x, b);
    var column := set a | a in rest :: (a, x);
    forall p | p in PairsFrom(keys, keys)
      ensures p in PairsFrom(rest, rest) + row + column
    {
      if p.0 == x {
        assert p == (x, p.1);
      } else if p.1 == x {
        assert p == (p.0, x);
      } else {
        assert p == (p.0, p.1);
      }
    }
  }

  /** The three parts of `PairsSplit` do not overlap. */
  lemma PairsSplitDisjoint(keys: set<string>, x: string)
    requires x in keys
    ensures PairsFrom(keys - {x}, keys - {x}) !! (set b | b in keys - {x} :: (x, b))
    ensures PairsFrom(keys - {x}, keys - {x}) + (set b | b in keys - {x} :: (x, b)) !! (set a | a in keys - {x} :: (a, x))
  {
    var rest := keys - {x};
    forall p | p in PairsFrom(rest, rest) ensures p.0 != x && p.1 != x { }
  }

  /** The size of a set split into three pairwise disjoint parts. */
  lemma SplitSize<T>(all: set<T>, a: set<T>, b: set<T>, c: set<T>)
    requires all == a + b + c
    requires a !! b && (a + b) !! c
    ensures |all| == |a| + |b| + |c|
  {
  }

  /** Adding a key `x` to `keys - {x}` adds 2 * |keys - {x}| ordered pairs. */
  lemma PairsSizeStep(keys: set<string>, x: string)
    requires x in keys
    ensures |PairsFrom(keys, keys)| == |PairsFrom(keys - {x}, keys - {x})| + 2 * |keys - {x}|
  {
    var rest := keys - {x};
    RowSize(x, rest);
    ColumnSize(x, rest);
    PairsSplit(keys, x);
    PairsSplitDisjoint(keys, x);
    SplitSize(PairsFrom(keys, keys), PairsFrom(rest, rest),
              set b | b in rest :: (x, b), set a | a in rest :: (a, x));
  }

  lemma StepArithmetic(m: int)
    ensures m * (m - 1) + 2 * m == (m + 1) * m
  {
  }

  /** Over n keys there are exactly n * (n - 1) ordered pairs of distinct keys. */
  lemma {:induction false} PairsSize(keys: set<string>)
    ensures |PairsFrom(keys, keys)| == |keys| * (|keys| - 1)
    decreases |keys|
  {
    if keys != {} {
      var x :| x in keys;
      PairsSize(keys - {x});
      PairsSizeStep(keys, x);
      StepArithmetic(|keys - {x}|);
    }
  }

  /** The full table over n shops holds exactly n * (n - 1) relations. */
  lemma FullTableSize(shops: map<string, Shop>)
    ensures |FullTable(shops)| == |shops| * (|shops| - 1)
  {
    PairsSize(shops.Keys);
    assert |FullTable(shops).Keys| == |FullTable(shops)|;
  }
}
