/** `most_similar_magnitude` (database.py:1159-1185): the other stars of the
    database, closest instrumental magnitude first, that have a light curve in
    a filter. The generator is modelled by what it yields before it is
    exhausted or raises. */
module Similarity {
  import opened Records
  import opened Schema
  import Seqs

  function Abs(x: real): (r: real)
    ensures r >= 0.0 && (r == x || r == -x)
  {
    if x < 0.0 then -x else x
  }

  /** The sort key of the source's lambda: distance to the reference magnitude. */
  function Distance(rmag: real): ((int, real)) -> real
  {
    (x: (int, real)) => Abs(rmag - x.1)
  }

  function IsNot(star: int): int -> bool
  {
    (id: int) => id != star
  }

  predicate IdBefore(a: (int, real), b: (int, real))
  {
    a.0 < b.0
  }

  predicate IntLess(a: int, b: int)
  {
    a < b
  }

  /** The list the source builds first: each ID other than `star`, by
      ascending ID, with its instrumental magnitude. */
  function OtherMagnitudes(t: Tables, star: int): (r: seq<(int, real)>)
    ensures forall x :: x in r ==> x.0 in t.stars && x.0 != star && x.1 == t.stars[x.0].imag
    ensures forall id :: id in t.stars && id != star ==> (id, t.stars[id].imag) in r
    ensures forall a, b :: 0 <= a < b < |r| ==> r[a].0 < r[b].0
  {
    var others := Seqs.Filter(StarIds(t), IsNot(star));
    OthersKnown(t.stars.Keys, StarIds(t), star, others);
    var r := WithMagnitudes(t.stars, others);
    OthersListed(t, star, others, r);
    r
  }

  /** Each ID paired with its star's instrumental magnitude. */
  function WithMagnitudes(stars: map<int, StarRow>, ids: seq<int>): (r: seq<(int, real)>)
    requires forall i :: 0 <= i < |ids| ==> ids[i] in stars
    ensures |r| == |ids|
    ensures forall i :: 0 <= i < |ids| ==> r[i] == (ids[i], stars[ids[i]].imag)
  {
    seq(|ids|, i requires 0 <= i < |ids| => (ids[i], stars[ids[i]].imag))
  }

  lemma OthersAre(keys: set<int>, star: int, ids: seq<int>, others: seq<int>)
    requires forall i :: i in ids <==> i in keys
    requires forall a, b :: 0 <= a < b < |ids| ==> ids[a] < ids[b]
    requires others == Seqs.Filter(ids, IsNot(star))
    ensures forall id :: id in others ==> id in keys && id != star
    ensures forall id :: id in keys && id != star ==> id in others
    ensures forall a, b :: 0 <= a < b < |others| ==> others[a] < others[b]
  {
    OthersInclude(keys, star, ids, others);
    OthersAscending(star, ids, others);
  }

  lemma OthersInclude(keys: set<int>, star: int, ids: seq<int>, others: seq<int>)
    requires forall i :: i in ids <==> i in keys
    requires others == Seqs.Filter(ids, IsNot(star))
    ensures forall id :: id in keys && id != star ==> id in others
  {
    forall id | id in keys && id != star ensures id in others {
      assert id in ids;
      assert IsNot(star)(id);
      assert multiset(others)[id] == multiset(ids)[id];
    }
  }

  lemma OthersAscending(star: int, ids: seq<int>, others: seq<int>)
    requires forall a, b :: 0 <= a < b < |ids| ==> ids[a] < ids[b]
    requires others == Seqs.Filter(ids, IsNot(star))
    ensures forall a, b :: 0 <= a < b < |others| ==> others[a] < others[b]
  {
    assert Seqs.Pairwise(ids, IntLess);
    Seqs.FilterKeepsPairwise(ids, IsNot(star), IntLess);
    assert forall a, b :: 0 <= a < b < |others| ==> IntLess(others[a], others[b]);
  }

  lemma OthersKnown(keys: set<int>, ids: seq<int>, star: int, others: seq<int>)
    requires forall i :: i in ids ==> i in keys
    requires others == Seqs.Filter(ids, IsNot(star))
    ensures forall i :: 0 <= i < |others| ==> others[i] in keys
  {
    forall i | 0 <= i < |others| ensures others[i] in keys {
      assert others[i] in others;
    }
  }

  lemma OthersListed(t: Tables, star: int, others: seq<int>, r: seq<(int, real)>)
    requires others == Seqs.Filter(StarIds(t), IsNot(star))
    requires forall i :: 0 <= i < |others| ==> others[i] in t.stars
    requires r == WithMagnitudes(t.stars, others)
    ensures forall x :: x in r ==> x.0 in t.stars && x.0 != star && x.1 == t.stars[x.0].imag
    ensures forall id :: id in t.stars && id != star ==> (id, t.stars[id].imag) in r
    ensures forall a, b :: 0 <= a < b < |r| ==> r[a].0 < r[b].0
  {
    OthersAre(t.stars.Keys, star, StarIds(t), others);
    PairedListed(t, star, others, r);
  }

  lemma PairedListed(t: Tables, star: int, others: seq<int>, r: seq<(int, real)>)
    requires forall id :: id in others ==> id in t.stars && id != star
    requires forall id :: id in t.stars && id != star ==> id in others
    requires forall a, b :: 0 <= a < b < |others| ==> others[a] < others[b]
    requires |r| == |others| && forall i :: 0 <= i < |others| ==> r[i] == (others[i], t.stars[others[i]].imag)
    ensures forall x :: x in r ==> x.0 in t.stars && x.0 != star && x.1 == t.stars[x.0].imag
    ensures forall id :: id in t.stars && id != star ==> (id, t.stars[id].imag) in r
    ensures forall a, b :: 0 <= a < b < |r| ==> r[a].0 < r[b].0
  {
    forall id | id in t.stars && id != star ensures (id, t.stars[id].imag) in r {
      var i :| 0 <= i < |others| && others[i] == id;
      assert r[i] == (id, t.stars[id].imag);
    }
    forall x | x in r ensures x.0 in t.stars && x.0 != star && x.1 == t.stars[x.0].imag {
      var i :| 0 <= i < |r| && r[i] == x;
      assert others[i] in others;
    }
  }

  /** The candidates by increasing distance; `list.sort` is stable, so equally
      distant stars stay in ascending ID order. */
  function Ranked(t: Tables, star: int): (r: seq<(int, real)>)
    requires star in t.stars
    ensures multiset(r) == multiset(OtherMagnitudes(t, star))
    ensures Seqs.SortedBy(r, Distance(t.stars[star].imag))
  {
    Seqs.SortBy(OtherMagnitudes(t, star), Distance(t.stars[star].imag))
  }

  /** get_light_curve in filter `w`, as a function of the star ID. */
  function CurveReader(t: Tables, w: int): int -> Result<Option<StoredCurve>, DbError>
  {
    (id: int) => ReadCurve(t, id, w)
  }

  /** `x` has a light curve: reading it returns one. */
  function HasCurve(read: int -> Result<Option<StoredCurve>, DbError>): ((int, real)) -> bool
  {
    (x: (int, real)) => read(x.0).Success? && read(x.0).value.Some?
  }

  /** The loop of the generator: yields the candidates whose curve is found,
      skips those without one, and stops at the first read that raises. */
  function Walk(read: int -> Result<Option<StoredCurve>, DbError>, ranked: seq<(int, real)>)
    : (r: (seq<(int, real)>, Option<DbError>))
    ensures |r.0| <= |ranked|
    decreases |ranked|
  {
    if ranked == [] then ([], None)
    else
      var c := read(ranked[0].0);
      if c.Failure? then ([], Some(c.error))
      else
        var rest := Walk(read, ranked[1..]);
        if c.value.Some? then ([ranked[0]] + rest.0, rest.1) else rest
  }

  /** What the walk yields is the filter of a prefix of the candidates: all of
      them when no read fails, and those before the failing one otherwise. */
  lemma {:induction false} WalkIsFilteredPrefix(read: int -> Result<Option<StoredCurve>, DbError>,
                                                ranked: seq<(int, real)>) returns (k: nat)
    ensures k <= |ranked|
    ensures Walk(read, ranked).0 == Seqs.Filter(ranked[..k], HasCurve(read))
    ensures Walk(read, ranked).1.None? <==> k == |ranked|
    ensures Walk(read, ranked).1.Some? ==> read(ranked[k].0) == Failure(Walk(read, ranked).1.value)
    decreases |ranked|
  {
    if ranked == [] {
      k := 0;
    } else if read(ranked[0].0).Failure? {
      k := 0;
      assert ranked[..0] == [];
    } else {
      var j := WalkIsFilteredPrefix(read, ranked[1..]);
      k := j + 1;
      WalkStep(read, ranked, j);
      if Walk(read, ranked).1.Some? {
        assert ranked[1..][j] == ranked[k];
      }
    }
  }

  /** The inductive step of WalkIsFilteredPrefix, after a first read that
      does not raise. */
  lemma WalkStep(read: int -> Result<Option<StoredCurve>, DbError>, ranked: seq<(int, real)>, j: nat)
    requires ranked != [] && read(ranked[0].0).Success?
    requires j < |ranked|
    requires Walk(read, ranked[1..]).0 == Seqs.Filter(ranked[1..][..j], HasCurve(read))
    ensures Walk(read, ranked).0 == Seqs.Filter(ranked[..j + 1], HasCurve(read))
    ensures Walk(read, ranked).1 == Walk(read, ranked[1..]).1
  {
    var pre := ranked[..j + 1];
    assert pre[0] == ranked[0];
    assert pre[1..] == ranked[1..][..j];
  }

  /** `most_similar_magnitude`: KeyError, before anything is yielded, for an
      unknown star; otherwise the walk over the ranked candidates. */
  function MostSimilarMagnitude(t: Tables, star: int, w: int): (r: (seq<(int, real)>, Option<DbError>))
    ensures star !in t.stars ==> r == ([], Some(NotFound))
  {
    if star !in t.stars then ([], Some(NotFound)) else Walk(CurveReader(t, w), Ranked(t, star))
  }

  /** Pairs in non-decreasing distance from `rmag`. */
  function NoFarther(rmag: real): ((int, real), (int, real)) -> bool
  {
    (a: (int, real), b: (int, real)) => Distance(rmag)(a) <= Distance(rmag)(b)
  }

  /** Equally distant pairs in ascending ID order. */
  function TieByIds(rmag: real): ((int, real), (int, real)) -> bool
  {
    (a: (int, real), b: (int, real)) => Distance(rmag)(a) == Distance(rmag)(b) ==> a.0 < b.0
  }

  /** Sorting candidates listed by ascending ID ranks them by distance, and
      equally distant ones by ascending ID. */
  lemma {:induction false} RankingOrder(others: seq<(int, real)>, rmag: real)
    requires forall a, b :: 0 <= a < b < |others| ==> others[a].0 < others[b].0
    ensures Seqs.Pairwise(Seqs.SortBy(others, Distance(rmag)), NoFarther(rmag))
    ensures Seqs.Pairwise(Seqs.SortBy(others, Distance(rmag)), TieByIds(rmag))
  {
    var d := Distance(rmag);
    assert Seqs.TiesOrdered(others, d, IdBefore);
    Seqs.SortByKeepsTies(others, d, IdBefore);
    var r := Seqs.SortBy(others, d);
    assert Seqs.TiesOrdered(r, d, IdBefore);
    assert Seqs.SortedBy(r, d);
  }

  /** A walk yields, in order, some of the candidates that have a curve, so
      it keeps every pairwise relation among them. */
  lemma WalkKeepsOrder(read: int -> Result<Option<StoredCurve>, DbError>, ranked: seq<(int, real)>,
                       R: ((int, real), (int, real)) -> bool)
    requires Seqs.Pairwise(ranked, R)
    ensures Seqs.Pairwise(Walk(read, ranked).0, R)
    ensures forall x :: x in Walk(read, ranked).0 ==> x in ranked && HasCurve(read)(x)
  {
    var k := WalkIsFilteredPrefix(read, ranked);
    PrefixPairwise(ranked, k, R);
    Seqs.FilterKeepsPairwise(ranked[..k], HasCurve(read), R);
    forall x | x in Walk(read, ranked).0 ensures x in ranked && HasCurve(read)(x) {
      assert x in ranked[..k];
    }
  }

  /** A prefix keeps the pairwise relations of the whole. */
  lemma PrefixPairwise<T>(s: seq<T>, k: nat, R: (T, T) -> bool)
    requires k <= |s| && Seqs.Pairwise(s, R)
    ensures Seqs.Pairwise(s[..k], R)
  {
    assert forall i :: 0 <= i < k ==> s[..k][i] == s[i];
  }

  /** The stars yielded come by non-decreasing distance from the reference
      magnitude, and equally distant ones by ascending ID. */
  lemma MostSimilarOrdered(t: Tables, star: int, w: int)
    requires star in t.stars
    ensures var y := MostSimilarMagnitude(t, star, w).0;
            var d := Distance(t.stars[star].imag);
            && (forall i, j :: 0 <= i < j < |y| ==> d(y[i]) <= d(y[j]))
            && (forall i, j :: 0 <= i < j < |y| && d(y[i]) == d(y[j]) ==> y[i].0 < y[j].0)
  {
    var rmag := t.stars[star].imag;
    var read := CurveReader(t, w);
    var ranked := Ranked(t, star);
    RankingOrder(OtherMagnitudes(t, star), rmag);
    WalkKeepsOrder(read, ranked, NoFarther(rmag));
    WalkKeepsOrder(read, ranked, TieByIds(rmag));
    UnfoldOrder(Walk(read, ranked).0, rmag);
  }

  lemma UnfoldOrder(y: seq<(int, real)>, rmag: real)
    requires Seqs.Pairwise(y, NoFarther(rmag)) && Seqs.Pairwise(y, TieByIds(rmag))
    ensures forall i, j :: 0 <= i < j < |y| ==> Distance(rmag)(y[i]) <= Distance(rmag)(y[j])
    ensures forall i, j :: 0 <= i < j < |y| && Distance(rmag)(y[i]) == Distance(rmag)(y[j]) ==> y[i].0 < y[j].0
  {
    assert forall i, j :: 0 <= i < j < |y| ==> NoFarther(rmag)(y[i], y[j]);
    assert forall i, j :: 0 <= i < j < |y| ==> TieByIds(rmag)(y[i], y[j]);
  }

  /** Each star yielded is another star of the database, with its own
      magnitude, and has a light curve in the filter. */
  lemma MostSimilarYields(t: Tables, star: int, w: int)
    requires star in t.stars
    ensures forall x :: x in MostSimilarMagnitude(t, star, w).0 ==>
              && x.0 in t.stars && x.0 != star && x.1 == t.stars[x.0].imag
              && HasCurve(CurveReader(t, w))(x)
  {
    var read := CurveReader(t, w);
    var others := OtherMagnitudes(t, star);
    var ranked := Ranked(t, star);
    WalkKeepsOrder(read, ranked, NoFarther(t.stars[star].imag));
    forall x | x in Walk(read, ranked).0
      ensures x.0 in t.stars && x.0 != star && x.1 == t.stars[x.0].imag
    {
      assert x in multiset(others);
    }
  }

  /** A walk that ends without an error yields every candidate that has a curve. */
  lemma WalkComplete(read: int -> Result<Option<StoredCurve>, DbError>, ranked: seq<(int, real)>)
    requires Walk(read, ranked).1.None?
    ensures forall x :: x in ranked && HasCurve(read)(x) ==> x in Walk(read, ranked).0
  {
    var k := WalkIsFilteredPrefix(read, ranked);
    assert ranked[..k] == ranked;
    forall x | x in ranked && HasCurve(read)(x) ensures x in Walk(read, ranked).0 {
      assert multiset(Walk(read, ranked).0)[x] == multiset(ranked)[x];
    }
  }

  /** When no read fails, every other star with a light curve in the filter
      is yielded. */
  lemma MostSimilarComplete(t: Tables, star: int, w: int)
    requires star in t.stars
    requires MostSimilarMagnitude(t, star, w).1.None?
    ensures forall id :: id in t.stars && id != star && HasCurve(CurveReader(t, w))((id, t.stars[id].imag)) ==>
              (id, t.stars[id].imag) in MostSimilarMagnitude(t, star, w).0
  {
    var read := CurveReader(t, w);
    var others := OtherMagnitudes(t, star);
    var ranked := Ranked(t, star);
    WalkComplete(read, ranked);
    forall id | id in t.stars && id != star && HasCurve(read)((id, t.stars[id].imag))
      ensures (id, t.stars[id].imag) in Walk(read, ranked).0
    {
      var x := (id, t.stars[id].imag);
      assert x in others;
      assert x in multiset(ranked);
    }
  }

  /** A generator that raises does so because reading some other star's
      curve raised, or, before anything is yielded, for an unknown star. */
  lemma MostSimilarFailure(t: Tables, star: int, w: int)
    requires MostSimilarMagnitude(t, star, w).1.Some?
    ensures star !in t.stars ==> MostSimilarMagnitude(t, star, w) == ([], Some(NotFound))
    ensures star in t.stars ==>
              exists id :: id in t.stars && id != star &&
                ReadCurve(t, id, w) == Failure(MostSimilarMagnitude(t, star, w).1.value)
  {
    if star in t.stars {
      var ranked := Ranked(t, star);
      var k := WalkIsFilteredPrefix(CurveReader(t, w), ranked);
      var x := ranked[k];
      assert x in multiset(OtherMagnitudes(t, star));
      assert x in OtherMagnitudes(t, star);
    }
  }
}
