/** What the operations of LEMONdB promise about the tables: every write
    keeps the schema's constraints, every read returns what the matching
    write stored, and a light curve is stored whole or not at all. */
module SchemaFacts {
  import opened Records
  import opened Schema
  import Seqs

  // ---------------------------------------------------------------------
  // The constraints survive every write

  lemma AddPfilterKeepsIntegrity(t: Tables, pf: Passband)
    requires Integrity(t)
    ensures Integrity(AddPfilter(t, pf))
  {
  }

  lemma AddPparamsKeepsIntegrity(t: Tables, p: PhotometricParameters)
    requires Integrity(t)
    ensures Integrity(AddPparams(t, p).0)
  {
  }

  lemma SetRimageKeepsIntegrity(t: Tables, ri: ReferenceImage)
    requires Integrity(t)
    ensures Integrity(SetRimage(t, ri).0)
  {
    AddPfilterKeepsIntegrity(t, ri.pfilter);
  }

  lemma AddImageKeepsIntegrity(t: Tables, img: Image)
    requires Integrity(t)
    ensures Integrity(AddImage(t, img).0)
  {
    var t1 := AddPfilter(t, img.pfilter);
    AddPfilterKeepsIntegrity(t, img.pfilter);
    var (t2, id) := AddPparams(t1, img.pparams);
    AddPparamsKeepsIntegrity(t1, img.pparams);
    if AddImage(t, img).1.Pass? {
      var row := ImageRow(img.path, img.pfilter.wavelength, id, img.airmass, img.gain,
                          img.xoffset, img.xoverlap, img.yoffset, img.yoverlap);
      assert AddImage(t, img).0 == t2.(images := t2.images[img.unixTime := row]);
      InsertImageKeepsIntegrity(t2, img.unixTime, row);
    }
  }

  /** A new image row whose filter and parameters exist keeps every constraint. */
  lemma InsertImageKeepsIntegrity(t: Tables, u: real, row: ImageRow)
    requires Integrity(t)
    requires row.wavelength in t.filters && row.pparamsId in t.pparams
    ensures Integrity(t.(images := t.images[u := row]))
  {
  }

  lemma AddStarKeepsIntegrity(t: Tables, id: int, row: StarRow)
    requires Integrity(t)
    ensures Integrity(AddStar(t, id, row).0)
  {
  }

  lemma AddPhotometryKeepsIntegrity(t: Tables, star: int, p: Point)
    requires Integrity(t)
    ensures Integrity(AddPhotometry(t, star, p).0)
  {
  }

  lemma AddCurvePointKeepsIntegrity(t: Tables, star: int, p: Point)
    requires Integrity(t)
    ensures Integrity(AddCurvePoint(t, star, p).0)
  {
  }

  lemma AddCmpStarKeepsIntegrity(t: Tables, star: int, pf: Passband, cstar: int, weight: real)
    requires Integrity(t)
    ensures Integrity(AddCmpStar(t, star, pf, cstar, weight).0)
  {
    AddPfilterKeepsIntegrity(t, pf);
  }

  lemma {:induction false} InsertPointsKeepIntegrity(t: Tables, star: int, points: seq<Point>)
    requires Integrity(t)
    ensures Integrity(InsertPoints(t, star, points).0)
    decreases |points|
  {
    if points != [] {
      AddCurvePointKeepsIntegrity(t, star, points[0]);
      InsertPointsKeepIntegrity(AddCurvePoint(t, star, points[0]).0, star, points[1..]);
    }
  }

  lemma {:induction false} InsertCmpStarsKeepIntegrity(t: Tables, star: int, pf: Passband, weights: seq<(int, real)>)
    requires Integrity(t)
    ensures Integrity(InsertCmpStars(t, star, pf, weights).0)
    decreases |weights|
  {
    if weights != [] {
      AddCmpStarKeepsIntegrity(t, star, pf, weights[0].0, weights[0].1);
      InsertCmpStarsKeepIntegrity(AddCmpStar(t, star, pf, weights[0].0, weights[0].1).0, star, pf, weights[1..]);
    }
  }

  lemma AddLightCurveKeepsIntegrity(t: Tables, star: int, pf: Passband, points: seq<Point>, weights: seq<(int, real)>)
    requires Integrity(t)
    ensures Integrity(AddLightCurve(t, star, pf, points, weights).0)
  {
    InsertPointsKeepIntegrity(t, star, points);
    InsertCmpStarsKeepIntegrity(InsertPoints(t, star, points).0, star, pf, weights);
  }

  lemma AddPeriodKeepsIntegrity(t: Tables, star: int, pf: Passband, period: real, step: real)
    requires Integrity(t)
    ensures Integrity(AddPeriod(t, star, pf, period, step).0)
  {
    AddPfilterKeepsIntegrity(t, pf);
  }

  // ---------------------------------------------------------------------
  // Reads return what writes stored

  /** Adding a filter twice is adding it once. */
  lemma AddPfilterIdempotent(t: Tables, pf: Passband)
    ensures AddPfilter(AddPfilter(t, pf), pf) == AddPfilter(t, pf)
  {
  }

  lemma AddPparamsRoundTrip(t: Tables, p: PhotometricParameters)
    ensures GetPparams(AddPparams(t, p).0, AddPparams(t, p).1) == Success(p)
  {
  }

  /** The reference image reads back as set, except that a filter stored
      before keeps its stored name. */
  lemma SetRimageRoundTrip(t: Tables, ri: ReferenceImage)
    requires SetRimage(t, ri).1.Pass?
    ensures var w := ri.pfilter.wavelength;
            Rimage(SetRimage(t, ri).0) ==
              Some(ri.(pfilter := Passband(w, if w in t.filters then t.filters[w] else ri.pfilter.name)))
  {
  }

  lemma AddImageRoundTrip(t: Tables, img: Image)
    requires AddImage(t, img).1.Pass?
    requires img.pfilter.wavelength in t.filters ==> t.filters[img.pfilter.wavelength] == img.pfilter.name
    ensures GetImage(AddImage(t, img).0, img.unixTime) == Success(img)
  {
    var t1 := AddPfilter(t, img.pfilter);
    var (t2, id) := AddPparams(t1, img.pparams);
    assert t2.filters == t1.filters;
  }

  lemma AddStarRoundTrip(t: Tables, id: int, row: StarRow)
    requires AddStar(t, id, row).1.Pass?
    ensures GetStar(AddStar(t, id, row).0, id) == Success(row)
    ensures StarIds(AddStar(t, id, row).0) != [] && id in StarIds(AddStar(t, id, row).0)
  {
  }

  lemma AddPeriodRoundTrip(t: Tables, star: int, pf: Passband, period: real, step: real)
    requires AddPeriod(t, star, pf, period, step).1.Pass?
    ensures GetPeriod(AddPeriod(t, star, pf, period, step).0, star, pf.wavelength) == Success(Some(PeriodRow(step, period)))
    ensures GetPeriods(AddPeriod(t, star, pf, period, step).0, star).Success?
    ensures period in GetPeriods(AddPeriod(t, star, pf, period, step).0, star).value
  {
    var r := AddPeriod(t, star, pf, period, step).0;
    assert (star, pf.wavelength) in r.periods;
  }

  /** A record stored by add_photometry is among those get_photometry returns
      in the filter of its image. */
  lemma AddPhotometryRoundTrip(t: Tables, star: int, p: Point)
    requires AddPhotometry(t, star, p).1.Pass?
    ensures var r := AddPhotometry(t, star, p).0;
            PhotometryOf(r, star, r.images[p.time].wavelength).Success?
            && p in PhotometryOf(r, star, r.images[p.time].wavelength).value
  {
    var r := AddPhotometry(t, star, p).0;
    var w := r.images[p.time].wavelength;
    var l := Readings(r.photometry, r.images, star, w);
    assert (star, p.time) in r.photometry;
    var i :| 0 <= i < |l| && l[i].time == p.time;
    assert l[i] == p;
  }

  /** `pfilters` lists the filters of every star: each filter `_star_pfilters`
      gives for a known star is among them. */
  lemma StarPfiltersInPfilters(t: Tables, star: int)
    requires star in t.stars
    ensures forall p :: p in StarPfilters(t, star).value ==> p in Pfilters(t)
  {
    var l := StarPfilters(t, star).value;
    forall p | p in l ensures p in Pfilters(t) {
      var w := p.wavelength;
      assert w in StarWavelengths(t, star);
      var u :| u in t.images && (star, u) in t.photometry && t.images[u].wavelength == w;
      assert (star, u).1 == u;
      assert w in AllWavelengths(t);
    }
  }

  /** ... and nothing else: in a database that keeps its constraints, every
      filter `pfilters` lists is one of some stored star. */
  lemma PfiltersOfStars(t: Tables)
    requires Integrity(t)
    ensures forall p :: p in Pfilters(t) ==> exists star :: star in t.stars && p in StarPfilters(t, star).value
  {
    forall p | p in Pfilters(t) ensures exists star :: star in t.stars && p in StarPfilters(t, star).value {
      var i :| 0 <= i < |Pfilters(t)| && Pfilters(t)[i] == p;
      var star := WavelengthOwner(t, p.wavelength);
      assert p == Passband(p.wavelength, t.filters[p.wavelength]);
      assert p in StarPfilters(t, star).value;
    }
  }

  /** A filter with photometry is one of a stored star's filters. */
  lemma WavelengthOwner(t: Tables, w: int) returns (star: int)
    requires Integrity(t)
    requires w in AllWavelengths(t)
    ensures star in t.stars && w in StarWavelengths(t, star)
  {
    var k :| k in t.photometry && k.1 in t.images && t.images[k.1].wavelength == w;
    star := k.0;
    assert (star, k.1) == k;
  }

  // ---------------------------------------------------------------------
  // Light curves: all or nothing

  /** Every point can be inserted: the star is known, each Unix time is an
      image's and not yet in the star's curve, and no two points share one. */
  ghost predicate PointsInsertable(t: Tables, star: int, points: seq<Point>)
  {
    points == [] ||
    (&& star in t.stars
     && (forall i :: 0 <= i < |points| ==> points[i].time in t.images && (star, points[i].time) !in t.curves)
     && (forall i, j :: 0 <= i < j < |points| ==> points[i].time != points[j].time))
  }

  /** `m` is `prior` plus the points of `star`. */
  ghost predicate PointsAdded(m: map<(int, real), Measurement>, prior: map<(int, real), Measurement>, star: int, points: seq<Point>)
  {
    && (forall k :: k in prior ==> k in m && m[k] == prior[k])
    && (forall i :: 0 <= i < |points| ==>
          (star, points[i].time) in m && m[(star, points[i].time)] == Measurement(points[i].mag, points[i].snr))
    && (forall k :: k in m && k !in prior ==> k.0 == star && exists i :: 0 <= i < |points| && points[i].time == k.1)
  }

  lemma {:induction false} InsertPointsSpec(t: Tables, star: int, points: seq<Point>)
    ensures InsertPoints(t, star, points).1.Pass? <==> PointsInsertable(t, star, points)
    ensures InsertPoints(t, star, points).1.Pass? ==>
              var r := InsertPoints(t, star, points).0;
              r == t.(curves := r.curves) && PointsAdded(r.curves, t.curves, star, points)
    decreases |points|
  {
    if points != [] {
      var (t1, o) := AddCurvePoint(t, star, points[0]);
      if o.Pass? {
        var tail := points[1..];
        assert InsertPoints(t, star, points) == InsertPoints(t1, star, tail);
        InsertPointsSpec(t1, star, tail);
        InsertableStep(t, star, points);
        if InsertPoints(t1, star, tail).1.Pass? {
          AddedStep(t.curves, t1.curves, InsertPoints(t1, star, tail).0.curves, star, points);
        }
      }
    }
  }

  /** After the first point went in, the rest can go in exactly when all of them could. */
  lemma InsertableStep(t: Tables, star: int, points: seq<Point>)
    requires points != [] && AddCurvePoint(t, star, points[0]).1.Pass?
    ensures PointsInsertable(t, star, points) <==> PointsInsertable(AddCurvePoint(t, star, points[0]).0, star, points[1..])
  {
    var p := points[0];
    var tail := points[1..];
    var t1 := AddCurvePoint(t, star, p).0;
    assert star in t.stars && p.time in t.images && (star, p.time) !in t.curves;
    assert t1 == t.(curves := t.curves[(star, p.time) := Measurement(p.mag, p.snr)]);
    assert forall i :: 0 <= i < |tail| ==> tail[i] == points[i + 1];
    if PointsInsertable(t, star, points) {
      forall i | 0 <= i < |tail| ensures (star, tail[i].time) !in t1.curves {
        assert points[0].time != points[i + 1].time;
      }
    }
    if PointsInsertable(t1, star, tail) {
      forall i, j | 0 <= i < j < |points| ensures points[i].time != points[j].time {
        assert points[j] == tail[j - 1];
        if i > 0 {
          assert points[i] == tail[i - 1];
        } else {
          assert (star, tail[j - 1].time) !in t1.curves;
        }
      }
      forall i | 0 <= i < |points| ensures points[i].time in t.images && (star, points[i].time) !in t.curves {
        if i > 0 {
          assert points[i] == tail[i - 1];
        }
      }
    }
  }

  /** The first point followed by the rest adds all of them. */
  lemma AddedStep(prior: map<(int, real), Measurement>, m1: map<(int, real), Measurement>,
                  m: map<(int, real), Measurement>, star: int, points: seq<Point>)
    requires points != []
    requires m1 == prior[(star, points[0].time) := Measurement(points[0].mag, points[0].snr)]
    requires (star, points[0].time) !in prior
    requires PointsAdded(m, m1, star, points[1..])
    ensures PointsAdded(m, prior, star, points)
  {
    var tail := points[1..];
    forall k | k in m && k !in prior
      ensures k.0 == star && exists i :: 0 <= i < |points| && points[i].time == k.1
    {
      if k !in m1 {
        var i :| 0 <= i < |tail| && tail[i].time == k.1;
        assert points[i + 1].time == k.1;
      } else {
        assert points[0].time == k.1;
      }
    }
    forall i | 0 <= i < |points|
      ensures (star, points[i].time) in m && m[(star, points[i].time)] == Measurement(points[i].mag, points[i].snr)
    {
      if i > 0 {
        assert points[i] == tail[i - 1];
      }
    }
  }

  /** Every comparison star can be recorded: none is the star itself, the
      star and each of them are known, and the filter is stored or can be. */
  ghost predicate CmpStarsInsertable(t: Tables, star: int, pf: Passband, weights: seq<(int, real)>)
  {
    weights == [] ||
    (&& star in t.stars
     && pf.wavelength in AddPfilter(t, pf).filters
     && forall i :: 0 <= i < |weights| ==> weights[i].0 != star && weights[i].0 in t.stars)
  }

  /** The cmp_stars rows of `star`'s curve in filter `w`, in insertion order. */
  function CmpRows(star: int, w: int, weights: seq<(int, real)>): (rows: seq<CmpRow>)
    ensures |rows| == |weights|
    ensures forall i :: 0 <= i < |weights| ==> rows[i] == CmpRow(star, w, weights[i].0, weights[i].1)
  {
    seq(|weights|, i requires 0 <= i < |weights| => CmpRow(star, w, weights[i].0, weights[i].1))
  }

  /** Up to the first failure, the points of add_light_curve keep every
      stored reading of light_curves. */
  lemma {:induction false} InsertPointsKeeps(t: Tables, star: int, points: seq<Point>)
    ensures var r := InsertPoints(t, star, points).0;
            forall k :: k in t.curves ==> k in r.curves && r.curves[k] == t.curves[k]
    decreases |points|
  {
    if points != [] {
      var (t1, o) := AddCurvePoint(t, star, points[0]);
      if o.Pass? {
        InsertPointsKeeps(t1, star, points[1..]);
      }
    }
  }

  /** Up to the first failure, the comparison stars of add_light_curve keep
      every stored filter and row and append at most one row each. */
  lemma {:induction false} InsertCmpStarsKeeps(t: Tables, star: int, pf: Passband, weights: seq<(int, real)>)
    ensures var r := InsertCmpStars(t, star, pf, weights).0;
            && (forall w :: w in t.filters ==> w in r.filters && r.filters[w] == t.filters[w])
            && |t.cmpStars| <= |r.cmpStars| <= |t.cmpStars| + |weights|
            && r.cmpStars[..|t.cmpStars|] == t.cmpStars
    decreases |weights|
  {
    if weights != [] {
      var (t1, o) := AddCmpStar(t, star, pf, weights[0].0, weights[0].1);
      if o.Pass? {
        InsertCmpStarsKeeps(t1, star, pf, weights[1..]);
        var r := InsertCmpStars(t1, star, pf, weights[1..]).0;
        assert r.cmpStars[..|t1.cmpStars|][..|t.cmpStars|] == r.cmpStars[..|t.cmpStars|];
      }
    }
  }

  lemma {:induction false} InsertCmpStarsSpec(t: Tables, star: int, pf: Passband, weights: seq<(int, real)>)
    ensures InsertCmpStars(t, star, pf, weights).1.Pass? <==> CmpStarsInsertable(t, star, pf, weights)
    ensures weights == [] ==> InsertCmpStars(t, star, pf, weights).0 == t
    ensures weights != [] && InsertCmpStars(t, star, pf, weights).1.Pass? ==>
              InsertCmpStars(t, star, pf, weights).0
                == AddPfilter(t, pf).(cmpStars := t.cmpStars + CmpRows(star, pf.wavelength, weights))
    decreases |weights|
  {
    if weights != [] {
      var tail := weights[1..];
      var row := CmpRow(star, pf.wavelength, weights[0].0, weights[0].1);
      var (t1, o) := AddCmpStar(t, star, pf, weights[0].0, weights[0].1);
      if o.Pass? {
        assert t1 == AddPfilter(t, pf).(cmpStars := t.cmpStars + [row]);
        InsertCmpStarsSpec(t1, star, pf, tail);
        CmpStarsStep(t, t1, star, pf, weights, row);
      }
    }
  }

  /** The inductive step of InsertCmpStarsSpec, after a first row was added. */
  lemma CmpStarsStep(t: Tables, t1: Tables, star: int, pf: Passband, weights: seq<(int, real)>, row: CmpRow)
    requires weights != [] && row == CmpRow(star, pf.wavelength, weights[0].0, weights[0].1)
    requires weights[0].0 != star && star in t.stars && weights[0].0 in t.stars
    requires pf.wavelength in AddPfilter(t, pf).filters
    requires t1 == AddPfilter(t, pf).(cmpStars := t.cmpStars + [row])
    ensures CmpStarsInsertable(t1, star, pf, weights[1..]) <==> CmpStarsInsertable(t, star, pf, weights)
    ensures AddPfilter(t1, pf).(cmpStars := t1.cmpStars + CmpRows(star, pf.wavelength, weights[1..]))
              == AddPfilter(t, pf).(cmpStars := t.cmpStars + CmpRows(star, pf.wavelength, weights))
  {
    assert AddPfilter(t1, pf) == t1;
    CmpStarsStepInsertable(t, t1, star, pf, weights);
    CmpRowsStep(t.cmpStars, row, star, pf.wavelength, weights);
  }

  lemma CmpStarsStepInsertable(t: Tables, t1: Tables, star: int, pf: Passband, weights: seq<(int, real)>)
    requires weights != [] && weights[0].0 != star && star in t.stars && weights[0].0 in t.stars
    requires t1.stars == t.stars && pf.wavelength in t1.filters
    requires pf.wavelength in AddPfilter(t, pf).filters
    ensures CmpStarsInsertable(t1, star, pf, weights[1..]) <==> CmpStarsInsertable(t, star, pf, weights)
  {
    var tail := weights[1..];
    assert forall i :: 0 <= i < |tail| ==> tail[i] == weights[i + 1];
    if CmpStarsInsertable(t1, star, pf, tail) {
      forall i | 0 <= i < |weights| ensures weights[i].0 != star && weights[i].0 in t.stars {
        if i > 0 {
          assert weights[i] == tail[i - 1];
        }
      }
    }
  }

  lemma CmpRowsStep(rows: seq<CmpRow>, row: CmpRow, star: int, w: int, weights: seq<(int, real)>)
    requires weights != [] && row == CmpRow(star, w, weights[0].0, weights[0].1)
    ensures rows + [row] + CmpRows(star, w, weights[1..]) == rows + CmpRows(star, w, weights)
  {
    assert CmpRows(star, w, weights) == [row] + CmpRows(star, w, weights[1..]);
  }

  /** Inserting one more point after a run of insertions that all passed. */
  lemma {:induction false} InsertPointsSnoc(t: Tables, star: int, points: seq<Point>, p: Point)
    ensures InsertPoints(t, star, points + [p]) ==
              if InsertPoints(t, star, points).1.Fail? then InsertPoints(t, star, points)
              else AddCurvePoint(InsertPoints(t, star, points).0, star, p)
    decreases |points|
  {
    if points == [] {
      assert points + [p] == [p];
    } else {
      assert (points + [p])[0] == points[0] && (points + [p])[1..] == points[1..] + [p];
      var t1 := AddCurvePoint(t, star, points[0]).0;
      InsertPointsSnoc(t1, star, points[1..], p);
    }
  }

  /** Recording one more comparison star after a run that all passed. */
  lemma {:induction false} InsertCmpStarsSnoc(t: Tables, star: int, pf: Passband, weights: seq<(int, real)>, x: (int, real))
    ensures InsertCmpStars(t, star, pf, weights + [x]) ==
              if InsertCmpStars(t, star, pf, weights).1.Fail? then InsertCmpStars(t, star, pf, weights)
              else AddCmpStar(InsertCmpStars(t, star, pf, weights).0, star, pf, x.0, x.1)
    decreases |weights|
  {
    if weights == [] {
      assert weights + [x] == [x];
    } else {
      assert (weights + [x])[0] == weights[0] && (weights + [x])[1..] == weights[1..] + [x];
      var t1 := AddCmpStar(t, star, pf, weights[0].0, weights[0].1).0;
      InsertCmpStarsSnoc(t1, star, pf, weights[1..], x);
    }
  }

  /** Once an insertion fails, the later ones are not attempted. */
  lemma {:induction false} InsertPointsStops(t: Tables, star: int, points: seq<Point>, k: nat)
    requires k <= |points| && InsertPoints(t, star, points[..k]).1.Fail?
    ensures InsertPoints(t, star, points) == InsertPoints(t, star, points[..k])
    decreases |points| - k
  {
    if k < |points| {
      InsertPointsSnoc(t, star, points[..k], points[k]);
      assert points[..k + 1] == points[..k] + [points[k]];
      InsertPointsStops(t, star, points, k + 1);
    } else {
      assert points[..k] == points;
    }
  }

  lemma {:induction false} InsertCmpStarsStops(t: Tables, star: int, pf: Passband, weights: seq<(int, real)>, k: nat)
    requires k <= |weights| && InsertCmpStars(t, star, pf, weights[..k]).1.Fail?
    ensures InsertCmpStars(t, star, pf, weights) == InsertCmpStars(t, star, pf, weights[..k])
    decreases |weights| - k
  {
    if k < |weights| {
      InsertCmpStarsSnoc(t, star, pf, weights[..k], weights[k]);
      assert weights[..k + 1] == weights[..k] + [weights[k]];
      InsertCmpStarsStops(t, star, pf, weights, k + 1);
    } else {
      assert weights[..k] == weights;
    }
  }

  /** `add_light_curve` stores the curve exactly when every point and every
      comparison star can be stored: the points then extend the star's
      curve, the comparison stars follow the rows already in cmp_stars, and
      nothing else changes but the filter, which is added if it can be. */
  lemma AddLightCurveSpec(t: Tables, star: int, pf: Passband, points: seq<Point>, weights: seq<(int, real)>)
    ensures AddLightCurve(t, star, pf, points, weights).1.Pass? <==>
              PointsInsertable(t, star, points) && CmpStarsInsertable(t, star, pf, weights)
    ensures AddLightCurve(t, star, pf, points, weights).1.Pass? ==>
              var r := AddLightCurve(t, star, pf, points, weights).0;
              && PointsAdded(r.curves, t.curves, star, points)
              && r.cmpStars == t.cmpStars + CmpRows(star, pf.wavelength, weights)
              && r.filters == (if weights == [] then t.filters else AddPfilter(t, pf).filters)
              && r == t.(curves := r.curves, cmpStars := r.cmpStars, filters := r.filters)
  {
    InsertPointsSpec(t, star, points);
    var t1 := InsertPoints(t, star, points).0;
    InsertCmpStarsSpec(t1, star, pf, weights);
    if InsertPoints(t, star, points).1.Pass? {
      assert CmpStarsInsertable(t1, star, pf, weights) <==> CmpStarsInsertable(t, star, pf, weights);
    }
  }

  /** A curve of an unknown star is refused, naming the star. */
  lemma AddLightCurveUnknownStar(t: Tables, star: int, pf: Passband, points: seq<Point>, weights: seq<(int, real)>)
    requires star !in t.stars && points != []
    ensures AddLightCurve(t, star, pf, points, weights) == (t, Fail(UnknownStar(star)))
  {
  }

  /** A curve with two points at the same Unix time is refused as a whole. */
  lemma AddLightCurveRepeatedTime(t: Tables, star: int, pf: Passband, points: seq<Point>, weights: seq<(int, real)>,
                                  i: nat, j: nat)
    requires i < j < |points| && points[i].time == points[j].time
    ensures AddLightCurve(t, star, pf, points, weights).1.Fail?
    ensures AddLightCurve(t, star, pf, points, weights).0 == t
  {
    AddLightCurveSpec(t, star, pf, points, weights);
  }

  /** A stored reading taken in filter `w` is among the readings listed for `w`. */
  lemma PointRead(m: map<(int, real), Measurement>, images: map<real, ImageRow>, star: int, w: int, p: Point)
    requires (star, p.time) in m && m[(star, p.time)] == Measurement(p.mag, p.snr)
    requires p.time in images && images[p.time].wavelength == w
    ensures p in Readings(m, images, star, w)
  {
    var l := Readings(m, images, star, w);
    var i :| 0 <= i < |l| && l[i].time == p.time;
    assert l[i] == p;
  }

  /** A stored comparison row is among those listed for its star and filter. */
  lemma CmpRead(t: Tables, row: CmpRow)
    requires row in t.cmpStars
    ensures row in CmpFor(t, row.star, row.wavelength)
  {
    var rows := Seqs.Filter(t.cmpStars, IsCmpOf(row.star, row.wavelength));
    assert multiset(rows)[row] == multiset(t.cmpStars)[row];
    assert row in multiset(CmpFor(t, row.star, row.wavelength));
  }

  /** Comparison star `cstar` is listed in `c` with this weight. */
  ghost predicate HasWeight(c: StoredCurve, cstar: int, weight: real)
  {
    exists j :: 0 <= j < |c.cstars| && j < |c.cweights| && c.cstars[j] == cstar && c.cweights[j] == weight
  }

  /** `c` is a curve that was read and holds these points and comparison stars. */
  ghost predicate ReadBack(c: Result<Option<StoredCurve>, DbError>, points: seq<Point>, weights: seq<(int, real)>)
  {
    && c.Success? && c.value.Some?
    && (forall i :: 0 <= i < |points| ==> points[i] in c.value.value.points)
    && (forall i :: 0 <= i < |weights| ==> HasWeight(c.value.value, weights[i].0, weights[i].1))
  }

  /** The light curve read back after add_light_curve, in a filter in which
      every point's image was taken, holds every point and every comparison
      star with its weight. */
  lemma LightCurveReadBack(t: Tables, star: int, pf: Passband, points: seq<Point>, weights: seq<(int, real)>)
    requires AddLightCurve(t, star, pf, points, weights).1.Pass?
    requires points != [] && weights != []
    requires forall i :: 0 <= i < |points| ==> points[i].time in t.images && t.images[points[i].time].wavelength == pf.wavelength
    ensures ReadBack(ReadCurve(AddLightCurve(t, star, pf, points, weights).0, star, pf.wavelength), points, weights)
  {
    var r := AddLightCurve(t, star, pf, points, weights).0;
    AddLightCurveSpec(t, star, pf, points, weights);
    CurveStored(r, star, pf.wavelength, points, weights);
  }

  lemma CurveStored(r: Tables, star: int, w: int, points: seq<Point>, weights: seq<(int, real)>)
    requires points != [] && weights != []
    requires forall i :: 0 <= i < |points| ==> points[i].time in r.images && r.images[points[i].time].wavelength == w
    requires forall i :: 0 <= i < |points| ==>
               (star, points[i].time) in r.curves && r.curves[(star, points[i].time)] == Measurement(points[i].mag, points[i].snr)
    requires forall row :: row in CmpRows(star, w, weights) ==> row in r.cmpStars
    ensures ReadBack(ReadCurve(r, star, w), points, weights)
  {
    var readings := Readings(r.curves, r.images, star, w);
    forall i | 0 <= i < |points| ensures points[i] in readings {
      PointRead(r.curves, r.images, star, w, points[i]);
    }
    var cmp := CmpFor(r, star, w);
    var rows := CmpRows(star, w, weights);
    forall i | 0 <= i < |weights| ensures rows[i] in cmp {
      assert rows[i] in rows;
      CmpRead(r, rows[i]);
    }
    assert points[0] in readings;
    assert rows[0] in cmp;
    var c := ReadCurve(r, star, w);
    assert c.Success? && c.value.Some?;
    WeightsStored(c.value.value, readings, cmp, star, w, weights);
  }

  lemma WeightsStored(c: StoredCurve, points: seq<Point>, cmp: seq<CmpRow>, star: int, w: int, weights: seq<(int, real)>)
    requires Stores(c, points, cmp)
    requires forall i :: 0 <= i < |weights| ==> CmpRows(star, w, weights)[i] in cmp
    ensures forall i :: 0 <= i < |weights| ==> HasWeight(c, weights[i].0, weights[i].1)
  {
    forall i | 0 <= i < |weights| ensures HasWeight(c, weights[i].0, weights[i].1) {
      var row := CmpRows(star, w, weights)[i];
      var j :| 0 <= j < |cmp| && cmp[j] == row;
      assert c.cstars[j] == weights[i].0 && c.cweights[j] == weights[i].1;
    }
  }
}
