/** LEMONdB (database.py:346-1185): the database of a photometry campaign,
    one field per table. Each write runs the source's steps on the fields
    (a savepoint is a copy of the state, rolling back to it restores that
    copy) and ends in the state, and with the outcome, that the matching
    function of Schema describes; every write keeps Schema.Integrity. */
module Database {
  import opened Records
  import opened Schema
  import SchemaFacts
  import Seqs
  import Photometry
  import Curves
  import Phase

  class LemonDb {
    var stars: map<int, StarRow>
    var filters: map<int, string>
    var pparams: map<int, PhotometricParameters>
    var rimage: Option<RImageRow>
    var images: map<real, ImageRow>
    var photometry: map<(int, real), Measurement>
    var curves: map<(int, real), Measurement>
    var cmpStars: seq<CmpRow>
    var periods: map<(int, int), PeriodRow>

    /** All the tables, as a value. */
    function State(): Tables
      reads this
    {
      Tables(stars, filters, pparams, rimage, images, photometry, curves, cmpStars, periods)
    }

    ghost predicate Valid()
      reads this
    {
      Integrity(State())
    }

    /** A new database: `_create_tables` on an empty file. */
    constructor ()
      ensures State() == Empty() && Valid()
    {
      stars, filters, pparams, rimage := map[], map[], map[], None;
      images, photometry, curves, cmpStars, periods := map[], map[], map[], [], map[];
    }

    /** `_rollback_to` (database.py:402-404): back to the state saved at `mark`. */
    method RollbackTo(mark: Tables)
      modifies this
      ensures State() == mark
    {
      stars, filters, pparams, rimage := mark.stars, mark.filters, mark.pparams, mark.rimage;
      images, photometry, curves := mark.images, mark.photometry, mark.curves;
      cmpStars, periods := mark.cmpStars, mark.periods;
    }

    /** `_add_pfilter` (database.py:537-543). */
    method AddPfilter(pf: Passband)
      modifies this
      ensures State() == Schema.AddPfilter(old(State()), pf)
    {
      if pf.wavelength !in filters && pf.name !in filters.Values {
        filters := filters[pf.wavelength := pf.name];
      }
    }

    /** `_add_pparams` (database.py:567-582). */
    method AddPparams(p: PhotometricParameters) returns (id: int)
      modifies this
      ensures (State(), id) == Schema.AddPparams(old(State()), p)
    {
      var ids := ParamsIds(pparams, p);
      if ids != {} {
        id := Least(ids);
      } else {
        id := NextRowId(pparams.Keys);
        pparams := pparams[id := p];
      }
    }

    /** The `rimage` setter (database.py:599-606). */
    method SetRimage(ri: ReferenceImage) returns (o: Outcome<DbError>)
      requires Valid()
      modifies this
      ensures (State(), o) == Schema.SetRimage(old(State()), ri)
      ensures Valid()
    {
      SchemaFacts.SetRimageKeepsIntegrity(State(), ri);
      AddPfilter(ri.pfilter);
      rimage := None;
      if ri.pfilter.wavelength in filters {
        rimage := Some(RImageRow(ri.path, ri.pfilter.wavelength, ri.unixTime, ri.airmass, ri.gain));
        o := Pass;
      } else {
        o := Fail(IntegrityError);
      }
    }

    /** `add_image` (database.py:608-639). */
    method AddImage(img: Image) returns (o: Outcome<DbError>)
      requires Valid()
      modifies this
      ensures (State(), o) == Schema.AddImage(old(State()), img)
      ensures Valid()
    {
      SchemaFacts.AddImageKeepsIntegrity(State(), img);
      var mark := State();
      AddPfilter(img.pfilter);
      var id := AddPparams(img.pparams);
      if img.unixTime in images || img.pfilter.wavelength !in filters {
        RollbackTo(mark);
        o := Fail(DuplicateImage);
      } else {
        images := images[img.unixTime := ImageRow(img.path, img.pfilter.wavelength, id, img.airmass, img.gain,
                                                  img.xoffset, img.xoverlap, img.yoffset, img.yoverlap)];
        o := Pass;
      }
    }

    /** `add_star` (database.py:666-686). */
    method AddStar(id: int, row: StarRow) returns (o: Outcome<DbError>)
      requires Valid()
      modifies this
      ensures (State(), o) == Schema.AddStar(old(State()), id, row)
      ensures Valid()
    {
      if id in stars {
        o := Fail(DuplicateStar);
      } else {
        stars := stars[id := row];
        o := Pass;
      }
    }

    /** `add_photometry` (database.py:718-749). */
    method AddPhotometry(star: int, p: Point) returns (o: Outcome<DbError>)
      requires Valid()
      modifies this
      ensures (State(), o) == Schema.AddPhotometry(old(State()), star, p)
      ensures Valid()
    {
      SchemaFacts.AddPhotometryKeepsIntegrity(State(), star, p);
      if star in stars && p.time in images && (star, p.time) !in photometry {
        photometry := photometry[(star, p.time) := Measurement(p.mag, p.snr)];
        o := Pass;
      } else if star !in stars {
        o := Fail(UnknownStar(star));
      } else if p.time !in images {
        o := Fail(UnknownImage(p.time));
      } else {
        o := Fail(DuplicatePhotometry);
      }
    }

    /** `get_photometry` (database.py:751-774): the star's records in the
        filter, by Unix time, as a DBStar. */
    method GetPhotometry(star: int, pf: Passband) returns (r: Result<Photometry.DbStar, DbError>)
      ensures r.Failure? <==> star !in stars
      ensures r.Failure? ==> r.error == NotFound
      ensures r.Success? ==>
                var s := r.value;
                var points := Readings(photometry, images, star, pf.wavelength);
                && s.Valid() && s.id == star && s.pfilter == pf && s.Length() == |points|
                && forall i :: 0 <= i < |points| ==>
                     s.phot[0, i] == points[i].time && s.phot[1, i] == points[i].mag && s.phot[2, i] == points[i].snr
    {
      if star !in stars {
        return Failure(NotFound);
      }
      var points := Readings(photometry, images, star, pf.wavelength);
      var s := Photometry.DbStar.MakeStar(star, pf, points);
      r := Success(s);
    }

    /** `_add_curve_point` (database.py:829-861). */
    method AddCurvePoint(star: int, p: Point) returns (o: Outcome<DbError>)
      requires Valid()
      modifies this
      ensures (State(), o) == Schema.AddCurvePoint(old(State()), star, p)
      ensures Valid()
    {
      SchemaFacts.AddCurvePointKeepsIntegrity(State(), star, p);
      if star in stars && p.time in images && (star, p.time) !in curves {
        curves := curves[(star, p.time) := Measurement(p.mag, p.snr)];
        o := Pass;
      } else if star !in stars {
        o := Fail(UnknownStar(star));
      } else if p.time !in images {
        o := Fail(UnknownImage(p.time));
      } else {
        o := Fail(DuplicateCurvePoint);
      }
    }

    /** `_add_cmp_star` (database.py:863-899). */
    method AddCmpStar(star: int, pf: Passband, cstar: int, weight: real) returns (o: Outcome<DbError>)
      requires Valid()
      modifies this
      ensures (State(), o) == Schema.AddCmpStar(old(State()), star, pf, cstar, weight)
      ensures Valid()
    {
      SchemaFacts.AddCmpStarKeepsIntegrity(State(), star, pf, cstar, weight);
      if star == cstar {
        return Fail(SelfComparison(star));
      }
      var mark := State();
      AddPfilter(pf);
      if star in stars && cstar in stars && pf.wavelength in filters {
        cmpStars := cmpStars + [CmpRow(star, pf.wavelength, cstar, weight)];
        o := Pass;
      } else {
        RollbackTo(mark);
        o := Fail(UnknownStar(if star !in stars then star else cstar));
      }
    }

    /** `add_light_curve` (database.py:901-937): the points in chronological
        order, then each comparison star with its weight, all inside one
        savepoint; the first error rolls everything back and is raised. */
    method AddLightCurve(star: int, curve: Curves.LightCurve) returns (o: Outcome<DbError>)
      requires Valid() && curve.Valid()
      modifies this
      ensures (State(), o) == Schema.AddLightCurve(old(State()), star, curve.pfilter, curve.Chronological(), curve.Weights())
      ensures Valid()
    {
      var mark := State();
      var points := curve.Chronological();
      var weights := curve.Weights();
      SchemaFacts.AddLightCurveKeepsIntegrity(mark, star, curve.pfilter, points, weights);
      o := AddCurvePoints(star, points);
      if o.Fail? {
        RollbackTo(mark);
        return;
      }
      o := AddCmpStars(star, curve.pfilter, weights);
      if o.Fail? {
        RollbackTo(mark);
      }
    }

    /** The first loop of add_light_curve (database.py:928-929). */
    method AddCurvePoints(star: int, points: seq<Point>) returns (o: Outcome<DbError>)
      requires Valid()
      modifies this
      ensures (State(), o) == InsertPoints(old(State()), star, points)
      ensures Valid()
    {
      ghost var start := State();
      o := Pass;
      var i := 0;
      while i < |points|
        invariant 0 <= i <= |points|
        invariant Valid()
        invariant InsertPoints(start, star, points[..i]) == (State(), Pass) && o == Pass
      {
        SchemaFacts.InsertPointsSnoc(start, star, points[..i], points[i]);
        assert points[..i + 1] == points[..i] + [points[i]];
        o := AddCurvePoint(star, points[i]);
        if o.Fail? {
          SchemaFacts.InsertPointsStops(start, star, points, i + 1);
          return;
        }
        i := i + 1;
      }
      assert points[..i] == points;
    }

    /** The second loop of add_light_curve (database.py:930-931). */
    method AddCmpStars(star: int, pf: Passband, weights: seq<(int, real)>) returns (o: Outcome<DbError>)
      requires Valid()
      modifies this
      ensures (State(), o) == InsertCmpStars(old(State()), star, pf, weights)
      ensures Valid()
    {
      ghost var start := State();
      o := Pass;
      var j := 0;
      while j < |weights|
        invariant 0 <= j <= |weights|
        invariant Valid()
        invariant InsertCmpStars(start, star, pf, weights[..j]) == (State(), Pass) && o == Pass
      {
        SchemaFacts.InsertCmpStarsSnoc(start, star, pf, weights[..j], weights[j]);
        assert weights[..j + 1] == weights[..j] + [weights[j]];
        o := AddCmpStar(star, pf, weights[j].0, weights[j].1);
        if o.Fail? {
          SchemaFacts.InsertCmpStarsStops(start, star, pf, weights, j + 1);
          return;
        }
        j := j + 1;
      }
      assert weights[..j] == weights;
    }

    /** `get_light_curve` (database.py:939-996): the stored curve, rebuilt as
        a new LightCurve whose points are added in chronological order. */
    method GetLightCurve(star: int, pf: Passband) returns (r: Result<Option<Curves.LightCurve>, DbError>)
      ensures var c := ReadCurve(State(), star, pf.wavelength);
              && (r.Failure? <==> c.Failure?)
              && (r.Failure? ==> r.error == c.error)
              && (r == Success(None) <==> c == Success(None))
              && (r.Success? && r.value.Some? ==>
                    && fresh(r.value.value) && r.value.value.Valid() && r.value.value.pfilter == pf
                    && c == Success(Some(StoredCurve(r.value.value.data, r.value.value.cstars, r.value.value.cweights))))
    {
      var c := ReadCurve(State(), star, pf.wavelength);
      if c.Failure? {
        return Failure(c.error);
      }
      if c.value.None? {
        return Success(None);
      }
      var stored := c.value.value;
      assert |stored.cstars| == |stored.cweights| && stored.cstars != [];
      var curve := NewCurve(pf, stored.cstars, stored.cweights, stored.points);
      r := Success(Some(curve));
    }

    /** `add_period` (database.py:998-1032). */
    method AddPeriod(star: int, pf: Passband, period: real, step: real) returns (o: Outcome<DbError>)
      requires Valid()
      modifies this
      ensures (State(), o) == Schema.AddPeriod(old(State()), star, pf, period, step)
      ensures Valid()
    {
      SchemaFacts.AddPeriodKeepsIntegrity(State(), star, pf, period, step);
      var mark := State();
      AddPfilter(pf);
      if star in stars && pf.wavelength in filters && (star, pf.wavelength) !in periods {
        periods := periods[(star, pf.wavelength) := PeriodRow(step, period)];
        o := Pass;
      } else {
        RollbackTo(mark);
        o := Fail(if star !in stars then UnknownStar(star) else DuplicatePeriod);
      }
    }

    /** `get_phase_diagram` (database.py:1104-1157): the star's light curve
        folded at `period` and repeated `repeat` times, as a new LightCurve
        with the same comparison stars; the errors of get_light_curve, and
        None for a star without a curve, come first. */
    method GetPhaseDiagram(star: int, pf: Passband, period: real, repeat: int)
      returns (r: Result<Option<Curves.LightCurve>, DbError>)
      ensures var c := ReadCurve(State(), star, pf.wavelength);
              && (c.Failure? ==> r == Failure(c.error))
              && (c == Success(None) ==> r == Success(None))
              && (c.Success? && c.value.Some? ==>
                    var phased := Phase.PhaseDiagram(c.value.value.points, period, repeat);
                    && (phased.Failure? ==> r == Failure(phased.error))
                    && (phased.Success? ==>
                          && r.Success? && r.value.Some? && fresh(r.value.value) && r.value.value.Valid()
                          && r.value.value.data == phased.value && r.value.value.pfilter == pf
                          && r.value.value.cstars == c.value.value.cstars
                          && r.value.value.cweights == c.value.value.cweights))
    {
      var got := GetLightCurve(star, pf);
      if got.Failure? {
        return Failure(got.error);
      }
      if got.value.None? {
        return Success(None);
      }
      var curve := got.value.value;
      var chrono := curve.Chronological();
      Seqs.SortBySorted(curve.data, Curves.PointTime);
      var phased := Phase.PhaseDiagram(chrono, period, repeat);
      if phased.Failure? {
        return Failure(phased.error);
      }
      var phase := NewCurve(pf, curve.cstars, curve.cweights, phased.value);
      r := Success(Some(phase));
    }
  }

  /** A new LightCurve with these comparison stars, to which the points are
      added one by one, as get_light_curve and get_phase_diagram build theirs. */
  method NewCurve(pf: Passband, cstars: seq<int>, cweights: seq<real>, points: seq<Point>)
    returns (curve: Curves.LightCurve)
    requires |cstars| == |cweights| && cstars != []
    ensures fresh(curve) && curve.Valid()
    ensures curve.data == points && curve.pfilter == pf && curve.cstars == cstars && curve.cweights == cweights
  {
    curve := new Curves.LightCurve(pf, cstars, cweights);
    var i := 0;
    while i < |points|
      invariant 0 <= i <= |points|
      invariant fresh(curve) && curve.Valid()
      invariant curve.data == points[..i] && curve.pfilter == pf && curve.cstars == cstars && curve.cweights == cweights
    {
      curve.Add(points[i]);
      i := i + 1;
    }
    assert points[..i] == points;
  }
}
