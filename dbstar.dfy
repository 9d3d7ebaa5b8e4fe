/** DBStar (database.py:43-186): the instrumental photometry of one star in
    one filter, kept as a 3 x n array (row 0 the Unix times, row 1 the
    magnitudes, row 2 the SNRs) plus a map from each Unix time to its column,
    for O(1) lookups when one star is aligned to another. */
module Photometry {
  import opened Records
  import Seqs

  /** Every time of `ts` is a key of `index`. */
  predicate Covers(ts: seq<real>, index: map<real, int>)
  {
    forall i :: 0 <= i < |ts| ==> ts[i] in index
  }

  class DbStar {
    const id: int
    const pfilter: Passband
    const phot: array2<real>
    const timeIndexes: map<real, int>

    /** The shape check of the constructor, and the consistency the source
        trusts blindly: each indexed time sits at its column, and every column's
        time is indexed. */
    ghost predicate Valid()
      reads phot
    {
      && phot.Length0 == 3
      && (forall t :: t in timeIndexes ==>
            0 <= timeIndexes[t] < phot.Length1 && phot[0, timeIndexes[t]] == t)
      && (forall i :: 0 <= i < phot.Length1 ==> phot[0, i] in timeIndexes)
    }

    constructor (id: int, pfilter: Passband, phot: array2<real>, timeIndexes: map<real, int>)
      requires phot.Length0 == 3
      ensures this.id == id && this.pfilter == pfilter
      ensures this.phot == phot && this.timeIndexes == timeIndexes
    {
      this.id := id;
      this.pfilter := pfilter;
      this.phot := phot;
      this.timeIndexes := timeIndexes;
    }

    /** `len(star)`: the number of records. */
    function Length(): nat
    {
      phot.Length1
    }

    /** The row of Unix times, in column order. */
    function Times(): (ts: seq<real>)
      reads phot
      requires phot.Length0 == 3
      ensures |ts| == Length()
      ensures forall i :: 0 <= i < Length() ==> ts[i] == phot[0, i]
    {
      seq(phot.Length1, i requires 0 <= i < phot.Length1 reads phot => phot[0, i])
    }

    /** Column of a NumPy index, which counts from the end when negative. */
    function Column(index: int): nat
      requires 0 <= index + Length() && index < Length()
    {
      if index < 0 then index + Length() else index
    }

    /** `time(index)`: the Unix time of a record, always one the index map knows. */
    function Time(index: int): (t: real)
      reads phot
      requires Valid()
      requires 0 <= index + Length() && index < Length()
      ensures t in timeIndexes && phot[0, timeIndexes[t]] == t
    {
      phot[0, Column(index)]
    }

    /** `mag(index)`: the magnitude of the record whose time `Time(index)` is. */
    function Mag(index: int): (m: real)
      reads phot
      requires Valid()
      requires 0 <= index + Length() && index < Length()
      ensures 0 <= index ==> m == phot[1, index]
      ensures index < 0 ==> m == phot[1, Length() + index]
    {
      phot[1, Column(index)]
    }

    /** `snr(index)`: the SNR of the record whose time `Time(index)` is. */
    function Snr(index: int): (r: real)
      reads phot
      requires Valid()
      requires 0 <= index + Length() && index < Length()
      ensures 0 <= index ==> r == phot[2, index]
      ensures index < 0 ==> r == phot[2, Length() + index]
    {
      phot[2, Column(index)]
    }

    /** `_time_index(t)`: the column at which this Unix time was observed. */
    function TimeIndex(t: real): (k: int)
      reads phot
      requires Valid()
      requires t in timeIndexes
      ensures 0 <= k < Length() && Time(k) == t
    {
      timeIndexes[t]
    }

    /** What `issubset` decides: every time of this star is a key of `other`'s index. */
    ghost predicate SubsetOf(other: DbStar)
      reads phot
      requires phot.Length0 == 3
    {
      Covers(Times(), other.timeIndexes)
    }

    /** `issubset` (database.py:117-124). */
    method IsSubset(other: DbStar) returns (b: bool)
      requires Valid()
      ensures b <==> SubsetOf(other)
      ensures Length() == 0 ==> b
    {
      var i := 0;
      while i < phot.Length1
        invariant 0 <= i <= phot.Length1
        invariant forall k :: 0 <= k < i ==> phot[0, k] in other.timeIndexes
      {
        if phot[0, i] !in other.timeIndexes {
          return false;
        }
        i := i + 1;
      }
      return true;
    }

    /** `make_star` (database.py:156-186): column i holds row i, and the index
        map sends each time to the LAST row observed at it. */
    static method MakeStar(id: int, pfilter: Passband, rows: seq<Point>) returns (s: DbStar)
      ensures s.Valid()
      ensures s.id == id && s.pfilter == pfilter && s.Length() == |rows|
      ensures forall i :: 0 <= i < |rows| ==>
                s.phot[0, i] == rows[i].time && s.phot[1, i] == rows[i].mag && s.phot[2, i] == rows[i].snr
      ensures forall i :: 0 <= i < |rows| ==> rows[i].time in s.timeIndexes
      ensures forall t :: t in s.timeIndexes ==>
                var k := s.timeIndexes[t];
                0 <= k < |rows| && rows[k].time == t && forall j :: k < j < |rows| ==> rows[j].time != t
    {
      var phot := new real[3, |rows|];
      var index: map<real, int> := map[];
      var i := 0;
      while i < |rows|
        invariant 0 <= i <= |rows|
        invariant forall k :: 0 <= k < i ==>
                    phot[0, k] == rows[k].time && phot[1, k] == rows[k].mag && phot[2, k] == rows[k].snr
        invariant index == LastColumns(rows[..i])
      {
        var row := rows[i];
        phot[0, i] := row.time;
        phot[1, i] := row.mag;
        phot[2, i] := row.snr;
        assert rows[..i + 1][..i] == rows[..i];
        index := index[row.time := i];
        i := i + 1;
      }
      assert rows[..i] == rows;
      LastColumnsAre(rows);
      ColumnsIndexed(phot, rows);
      s := new DbStar(id, pfilter, phot, index);
    }

    /** `_trim_to(other)` (database.py:126-139): this star's records at
        `other`'s times, in `other`'s order, sharing `other`'s index. Every time
        of `other` must be one of this star's (the lookup raises KeyError
        otherwise; the docstring states this condition the other way round). */
    method TrimTo(other: DbStar) returns (r: DbStar)
      requires Valid() && other.Valid()
      requires other.SubsetOf(this)
      ensures TrimmedTo(r, this, other)
      ensures fresh(r.phot)
    {
      var n := other.phot.Length1;
      var phot := new real[3, n];
      var oindex := 0;
      while oindex < n
        invariant 0 <= oindex <= n
        invariant forall i :: 0 <= i < oindex ==>
                    var k := timeIndexes[other.phot[0, i]];
                    phot[0, i] == other.phot[0, i] && phot[1, i] == this.phot[1, k] && phot[2, i] == this.phot[2, k]
      {
        var utime := other.phot[0, oindex];
        assert utime == other.Times()[oindex];
        var sindex := TimeIndex(utime);
        phot[0, oindex] := this.phot[0, sindex];
        phot[1, oindex] := this.phot[1, sindex];
        phot[2, oindex] := this.phot[2, sindex];
        oindex := oindex + 1;
      }
      r := new DbStar(id, pfilter, phot, other.timeIndexes);
    }

    /** `complete_for` (database.py:141-154): the candidates that are not this
        very object and of which this star is a subset, in input order, each
        trimmed to this star's times. */
    method CompleteFor(stars: seq<DbStar>) returns (r: seq<DbStar>)
      requires Valid()
      requires forall s :: s in stars ==> s.Valid()
      ensures var chosen := Candidates(this, Times(), stars);
              |r| == |chosen| && forall k :: 0 <= k < |r| ==> TrimmedTo(r[k], chosen[k], this)
    {
      var ts := Times();
      r := [];
      ghost var chosen: seq<DbStar> := [];
      var i := 0;
      while i < |stars|
        invariant 0 <= i <= |stars|
        invariant chosen == Candidates(this, ts, stars[..i])
        invariant |r| == |chosen|
        invariant forall k :: 0 <= k < |r| ==> TrimmedTo(r[k], chosen[k], this)
      {
        var star := stars[i];
        assert stars[..i + 1][..i] == stars[..i];
        if star != this {
          var isSubset := IsSubset(star);
          if isSubset {
            var trimmed := star.TrimTo(this);
            r := r + [trimmed];
            chosen := chosen + [star];
          }
        }
        i := i + 1;
      }
      assert stars[..i] == stars;
    }
  }

  /** The index map of `make_star`: each time sent to the last row observed at it. */
  function LastColumns(rows: seq<Point>): map<real, int>
  {
    if rows == [] then map[]
    else LastColumns(rows[..|rows| - 1])[rows[|rows| - 1].time := |rows| - 1]
  }

  /** Every time of `rows` is a key, and the key's column is the last row at that time. */
  lemma {:induction false} LastColumnsAre(rows: seq<Point>)
    ensures forall i :: 0 <= i < |rows| ==> rows[i].time in LastColumns(rows)
    ensures forall t :: t in LastColumns(rows) ==>
              var k := LastColumns(rows)[t];
              0 <= k < |rows| && rows[k].time == t && forall j :: k < j < |rows| ==> rows[j].time != t
  {
    if rows != [] {
      var init := rows[..|rows| - 1];
      LastColumnsAre(init);
      assert forall i :: 0 <= i < |init| ==> init[i] == rows[i];
    }
  }

  /** An array whose row 0 holds the times of `rows` is indexed by LastColumns(rows). */
  lemma ColumnsIndexed(phot: array2<real>, rows: seq<Point>)
    requires phot.Length0 == 3 && phot.Length1 == |rows|
    requires forall k :: 0 <= k < |rows| ==> phot[0, k] == rows[k].time
    requires forall i :: 0 <= i < |rows| ==> rows[i].time in LastColumns(rows)
    requires forall t :: t in LastColumns(rows) ==>
               0 <= LastColumns(rows)[t] < |rows| && rows[LastColumns(rows)[t]].time == t
    ensures forall t :: t in LastColumns(rows) ==>
              0 <= LastColumns(rows)[t] < phot.Length1 && phot[0, LastColumns(rows)[t]] == t
    ensures forall i :: 0 <= i < phot.Length1 ==> phot[0, i] in LastColumns(rows)
  {
  }

  /** The stars `complete_for` keeps, in input order: those other than `self`
      whose index covers every time of `ts`. */
  ghost function Candidates(self: DbStar, ts: seq<real>, stars: seq<DbStar>): seq<DbStar>
  {
    if stars == [] then []
    else
      var last := stars[|stars| - 1];
      Candidates(self, ts, stars[..|stars| - 1])
        + (if last != self && Covers(ts, last.timeIndexes) then [last] else [])
  }

  /** A star is a candidate exactly when it is one of `stars`, is not `self`
      and its index covers `ts`. */
  lemma {:induction false} CandidatesAre(self: DbStar, ts: seq<real>, stars: seq<DbStar>)
    ensures forall s :: s in Candidates(self, ts, stars) ==> s in stars && s != self && Covers(ts, s.timeIndexes)
    ensures forall s :: s in stars && s != self && Covers(ts, s.timeIndexes) ==> s in Candidates(self, ts, stars)
  {
    if stars != [] {
      var init := stars[..|stars| - 1];
      CandidatesAre(self, ts, init);
      assert stars == init + [stars[|stars| - 1]];
    }
  }

  /** The candidates keep their input order: any relation between earlier
      and later stars of the input holds between earlier and later candidates. */
  lemma {:induction false} CandidatesKeepOrder(self: DbStar, ts: seq<real>, stars: seq<DbStar>,
                                               R: (DbStar, DbStar) -> bool)
    requires Seqs.Pairwise(stars, R)
    ensures Seqs.Pairwise(Candidates(self, ts, stars), R)
  {
    if stars != [] {
      var init := stars[..|stars| - 1];
      var last := stars[|stars| - 1];
      assert Seqs.Pairwise(init, R);
      CandidatesKeepOrder(self, ts, init, R);
      CandidatesAre(self, ts, init);
      var c := Candidates(self, ts, init);
      var r := Candidates(self, ts, stars);
      if last != self && Covers(ts, last.timeIndexes) {
        assert r == c + [last];
        forall i, j | 0 <= i < j < |r| ensures R(r[i], r[j]) {
          if j == |c| {
            assert r[i] == c[i] && c[i] in c;
            assert c[i] in init;
            var a :| 0 <= a < |init| && init[a] == r[i];
            assert stars[a] == r[i];
          } else {
            assert r[i] == c[i] && r[j] == c[j];
          }
        }
      }
    }
  }

  /** `r` is `src` trimmed to `target`: `src`'s ID and filter, `target`'s
      times, order and index, and `src`'s magnitude and SNR at each time. */
  ghost predicate TrimmedTo(r: DbStar, src: DbStar, target: DbStar)
    reads r.phot, src.phot, target.phot
  {
    && r.Valid() && src.Valid() && target.Valid()
    && r.id == src.id && r.pfilter == src.pfilter
    && r.timeIndexes == target.timeIndexes
    && r.Length() == target.Length()
    && forall i :: 0 <= i < r.Length() ==>
         var t := target.phot[0, i];
         && t in src.timeIndexes
         && r.phot[0, i] == t
         && r.phot[1, i] == src.phot[1, src.timeIndexes[t]]
         && r.phot[2, i] == src.phot[2, src.timeIndexes[t]]
  }

  /** A star whose columns are `rows`, as make_star builds it, reads back the
      record at any NumPy index, a negative one counting from the end. */
  lemma RecordRead(s: DbStar, rows: seq<Point>, index: int)
    requires s.Valid() && s.Length() == |rows|
    requires forall i :: 0 <= i < |rows| ==>
               s.phot[0, i] == rows[i].time && s.phot[1, i] == rows[i].mag && s.phot[2, i] == rows[i].snr
    requires -|rows| <= index < |rows|
    ensures Point(s.Time(index), s.Mag(index), s.Snr(index)) == rows[if index < 0 then index + |rows| else index]
  {
  }

  /** Such a star's magnitude and SNR at the column of a time are those of a
      row observed at that time, the last one when several were. */
  lemma RecordAtTime(s: DbStar, rows: seq<Point>, t: real)
    requires s.Valid() && s.Length() == |rows|
    requires forall i :: 0 <= i < |rows| ==>
               s.phot[0, i] == rows[i].time && s.phot[1, i] == rows[i].mag && s.phot[2, i] == rows[i].snr
    requires t in s.timeIndexes
    ensures Point(t, s.Mag(s.TimeIndex(t)), s.Snr(s.TimeIndex(t))) in rows
  {
    var k := s.TimeIndex(t);
    assert rows[k] == Point(t, s.Mag(k), s.Snr(k));
  }
}
