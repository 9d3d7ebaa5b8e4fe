/** The tables of a LEMONdB (database.py:411-528) as values, and what each
    operation of LEMONdB (database.py:346-1185) does to them or reads from
    them. SQLite is abstracted away: a table with a primary key is a map from
    the key, `cmp_stars` (which has no key but its row ID) is a sequence, and
    the foreign keys and UNIQUE constraints become the predicate Integrity. */
module Schema {
  import opened Records
  import Seqs

  datatype Tables = Tables(
    stars: map<int, StarRow>,                    // stars, by ID
    filters: map<int, string>,                   // photometric_filters: wavelength -> name
    pparams: map<int, PhotometricParameters>,    // photometric_parameters, by ID
    rimage: Option<RImageRow>,                   // rimage, which holds at most one row
    images: map<real, ImageRow>,                 // images, by Unix time
    photometry: map<(int, real), Measurement>,   // photometry, by (star ID, Unix time)
    curves: map<(int, real), Measurement>,       // light_curves, by (star ID, Unix time)
    cmpStars: seq<CmpRow>,                       // cmp_stars, in row-ID order
    periods: map<(int, int), PeriodRow>)         // periods, by (star ID, wavelength)

  /** The database right after `_create_tables` on a new file. */
  function Empty(): (t: Tables)
    ensures Integrity(t)
  {
    Tables(map[], map[], map[], None, map[], map[], map[], [], map[])
  }

  /** `name TEXT UNIQUE` of photometric_filters. */
  ghost predicate NamesUnique(filters: map<int, string>)
  {
    forall a, b :: a in filters && b in filters && filters[a] == filters[b] ==> a == b
  }

  ghost predicate ImagesLinked(t: Tables)
  {
    forall u :: u in t.images ==> t.images[u].wavelength in t.filters && t.images[u].pparamsId in t.pparams
  }

  /** The foreign keys of a table of readings: the star and the image exist. */
  ghost predicate ReadingsLinked(m: map<(int, real), Measurement>, t: Tables)
  {
    forall k :: k in m ==> k.0 in t.stars && k.1 in t.images
  }

  ghost predicate CmpLinked(t: Tables)
  {
    forall c :: c in t.cmpStars ==> c.star in t.stars && c.cstar in t.stars && c.wavelength in t.filters
  }

  ghost predicate PeriodsLinked(t: Tables)
  {
    forall k :: k in t.periods ==> k.0 in t.stars && k.1 in t.filters
  }

  /** Every constraint of the schema that SQLite enforces with foreign key
      support on (the primary keys and UNIQUE (star_id, unix_time) and
      UNIQUE (star_id, wavelength) are the maps' keys). */
  ghost predicate Integrity(t: Tables)
  {
    && NamesUnique(t.filters)
    && (t.rimage.Some? ==> t.rimage.value.wavelength in t.filters)
    && ImagesLinked(t)
    && ReadingsLinked(t.photometry, t)
    && ReadingsLinked(t.curves, t)
    && CmpLinked(t)
    && PeriodsLinked(t)
  }

  // ---------------------------------------------------------------------
  // Row IDs

  /** The least of a nonempty set of integers. */
  function Least(s: set<int>): (m: int)
    requires s != {}
    ensures m in s && forall x :: x in s ==> m <= x
  {
    var l := Ascending(s);
    assert l[0] in s;
    forall x | x in s ensures l[0] <= x {
      var i :| 0 <= i < |l| && l[i] == x;
      assert i == 0 || l[0] < l[i];
    }
    l[0]
  }

  /** The integers of a set in ascending order. */
  function Ascending(s: set<int>): (l: seq<int>)
    ensures |l| == |s|
    ensures forall x :: x in l <==> x in s
    ensures forall a, b :: 0 <= a < b < |l| ==> l[a] < l[b]
  {
    IntKeyInjective(s);
    var l := Seqs.AscendingBy(s, Seqs.IntKey);
    IntKeyAscending(l);
    l
  }

  lemma IntKeyInjective(s: set<int>)
    ensures Seqs.KeyInjective(s, Seqs.IntKey)
  {
  }

  lemma IntKeyAscending(l: seq<int>)
    requires forall a, b :: 0 <= a < b < |l| ==> Seqs.IntKey(l[a]) < Seqs.IntKey(l[b])
    ensures forall a, b :: 0 <= a < b < |l| ==> l[a] < l[b]
  {
    forall a, b | 0 <= a < b < |l| ensures l[a] < l[b] {
      assert Seqs.IntKey(l[a]) < Seqs.IntKey(l[b]);
    }
  }

  /** The greatest of a nonempty set of integers. */
  function Greatest(s: set<int>): (m: int)
    requires s != {}
    ensures m in s && forall x :: x in s ==> x <= m
  {
    var l := Ascending(s);
    assert l[|l| - 1] in s;
    forall x | x in s ensures x <= l[|l| - 1] {
      var i :| 0 <= i < |l| && l[i] == x;
      assert i == |l| - 1 || l[i] < l[|l| - 1];
    }
    l[|l| - 1]
  }

  /** The row ID SQLite gives a row inserted with a NULL INTEGER PRIMARY KEY:
      one more than the largest in use, or 1 in an empty table. */
  function NextRowId(used: set<int>): (id: int)
    ensures id !in used
    ensures used == {} ==> id == 1
    ensures used != {} ==> id - 1 in used && forall x :: x in used ==> x < id
  {
    if used == {} then 1 else Greatest(used) + 1
  }

  // ---------------------------------------------------------------------
  // Filters and photometric parameters

  /** `_add_pfilter` (database.py:537-543): INSERT OR IGNORE, so a filter
      whose wavelength or whose name is already stored leaves the table as it
      is. */
  function AddPfilter(t: Tables, pf: Passband): (r: Tables)
    ensures r == t.(filters := r.filters)
    ensures forall w :: w in t.filters ==> w in r.filters && r.filters[w] == t.filters[w]
    ensures forall w :: w in r.filters && w !in t.filters ==> w == pf.wavelength && r.filters[w] == pf.name
    ensures pf.wavelength in r.filters <==> pf.wavelength in t.filters || pf.name !in t.filters.Values
  {
    if pf.wavelength in t.filters || pf.name in t.filters.Values then t
    else t.(filters := t.filters[pf.wavelength := pf.name])
  }

  /** The IDs of the stored parameters equal to `p`. */
  function ParamsIds(pparams: map<int, PhotometricParameters>, p: PhotometricParameters): (ids: set<int>)
    ensures forall i :: i in ids <==> i in pparams && pparams[i] == p
  {
    set i | i in pparams.Keys && pparams[i] == p
  }

  /** `_add_pparams` (database.py:567-582): the ID of a stored row equal to
      `pparams` (the first in row order: the query scans the table), or else
      a new row with a new ID. */
  function AddPparams(t: Tables, p: PhotometricParameters): (r: (Tables, int))
    ensures r.1 in r.0.pparams && r.0.pparams[r.1] == p
    ensures r.0 == t.(pparams := r.0.pparams)
    ensures ParamsIds(t.pparams, p) != {} ==> r.0 == t && r.1 == Least(ParamsIds(t.pparams, p))
    ensures ParamsIds(t.pparams, p) == {} ==>
              r.1 !in t.pparams && r.0.pparams == t.pparams[r.1 := p] && r.1 == NextRowId(t.pparams.Keys)
  {
    var ids := ParamsIds(t.pparams, p);
    if ids != {} then (t, Least(ids))
    else
      var id := NextRowId(t.pparams.Keys);
      (t.(pparams := t.pparams[id := p]), id)
  }

  /** `_get_pparams` (database.py:552-565). */
  function GetPparams(t: Tables, id: int): (r: Result<PhotometricParameters, DbError>)
    ensures r.Success? <==> id in t.pparams
    ensures r.Success? ==> r.value == t.pparams[id]
    ensures r.Failure? ==> r.error == NotFound
  {
    if id in t.pparams then Success(t.pparams[id]) else Failure(NotFound)
  }

  // ---------------------------------------------------------------------
  // Reference image and images

  /** The `rimage` setter (database.py:599-606): the filter is added, the
      table emptied and the row inserted, with no savepoint. When the filter
      was ignored because its name is stored under another wavelength, the
      insertion breaks the foreign key: the table stays empty and
      IntegrityError propagates. */
  function SetRimage(t: Tables, ri: ReferenceImage): (r: (Tables, Outcome<DbError>))
    ensures var t1 := AddPfilter(t, ri.pfilter);
            r.0.filters == t1.filters && r.0 == t.(filters := t1.filters, rimage := r.0.rimage)
    ensures r.1.Pass? <==> ri.pfilter.wavelength in t.filters || ri.pfilter.name !in t.filters.Values
    ensures r.1.Pass? ==> r.0.rimage == Some(RImageRow(ri.path, ri.pfilter.wavelength, ri.unixTime, ri.airmass, ri.gain))
    ensures r.1.Fail? ==> r.0.rimage == None && r.1.error == IntegrityError
  {
    var t1 := AddPfilter(t, ri.pfilter).(rimage := None);
    if ri.pfilter.wavelength in t1.filters then
      (t1.(rimage := Some(RImageRow(ri.path, ri.pfilter.wavelength, ri.unixTime, ri.airmass, ri.gain))), Pass)
    else
      (t1, Fail(IntegrityError))
  }

  /** The `rimage` getter (database.py:584-597): the row joined with its
      filter's name, or None. */
  function Rimage(t: Tables): (r: Option<ReferenceImage>)
    ensures r.Some? <==> t.rimage.Some? && t.rimage.value.wavelength in t.filters
    ensures r.Some? ==> var row := t.rimage.value;
              r.value == ReferenceImage(row.path, Passband(row.wavelength, t.filters[row.wavelength]),
                                        row.unixTime, row.airmass, row.gain)
  {
    match t.rimage
    case None => None
    case Some(row) =>
      if row.wavelength in t.filters then
        Some(ReferenceImage(row.path, Passband(row.wavelength, t.filters[row.wavelength]),
                            row.unixTime, row.airmass, row.gain))
      else None
  }

  /** `add_image` (database.py:608-639): filter and parameters are added
      inside a savepoint, then the image; if that insertion fails (its Unix
      time is taken, or its filter was ignored because the name is stored
      under another wavelength) everything is rolled back and
      DuplicateImageError raised. */
  function AddImage(t: Tables, img: Image): (r: (Tables, Outcome<DbError>))
    ensures r.1.Fail? <==> img.unixTime in t.images || (img.pfilter.wavelength !in t.filters && img.pfilter.name in t.filters.Values)
    ensures r.1.Fail? ==> r.0 == t && r.1.error == DuplicateImage
    ensures r.1.Pass? ==>
              var (t2, id) := AddPparams(AddPfilter(t, img.pfilter), img.pparams);
              r.0 == t2.(images := t2.images[img.unixTime := ImageRow(img.path, img.pfilter.wavelength, id, img.airmass, img.gain,
                                                                         img.xoffset, img.xoverlap, img.yoffset, img.yoverlap)])
  {
    var t1 := AddPfilter(t, img.pfilter);
    var (t2, id) := AddPparams(t1, img.pparams);
    if img.unixTime in t2.images || img.pfilter.wavelength !in t2.filters then (t, Fail(DuplicateImage))
    else
      var row := ImageRow(img.path, img.pfilter.wavelength, id, img.airmass, img.gain,
                          img.xoffset, img.xoverlap, img.yoffset, img.yoverlap);
      (t2.(images := t2.images[img.unixTime := row]), Pass)
  }

  /** `get_image` (database.py:641-664): the image joined with its filter's
      name and its parameters; KeyError when there is none. */
  function GetImage(t: Tables, time: real): (r: Result<Image, DbError>)
    ensures r.Success? <==> time in t.images && t.images[time].wavelength in t.filters
                            && t.images[time].pparamsId in t.pparams
    ensures r.Failure? ==> r.error == NotFound
    ensures r.Success? ==> var row := t.images[time];
              r.value == Image(row.path, Passband(row.wavelength, t.filters[row.wavelength]), t.pparams[row.pparamsId],
                               time, row.airmass, row.gain, row.xoffset, row.yoffset, row.xoverlap, row.yoverlap)
  {
    if time !in t.images || t.images[time].wavelength !in t.filters then Failure(NotFound)
    else
      var row := t.images[time];
      match GetPparams(t, row.pparamsId)
      case Failure(e) => Failure(e)
      case Success(p) =>
        Success(Image(row.path, Passband(row.wavelength, t.filters[row.wavelength]), p,
                      time, row.airmass, row.gain, row.xoffset, row.yoffset, row.xoverlap, row.yoverlap))
  }

  // ---------------------------------------------------------------------
  // Stars

  /** `add_star` (database.py:666-686). */
  function AddStar(t: Tables, id: int, row: StarRow): (r: (Tables, Outcome<DbError>))
    ensures r.1.Fail? <==> id in t.stars
    ensures r.1.Fail? ==> r.0 == t && r.1.error == DuplicateStar
    ensures r.1.Pass? ==> r.0 == t.(stars := t.stars[id := row])
  {
    if id in t.stars then (t, Fail(DuplicateStar)) else (t.(stars := t.stars[id := row]), Pass)
  }

  /** `get_star` (database.py:688-706). */
  function GetStar(t: Tables, id: int): (r: Result<StarRow, DbError>)
    ensures r.Success? <==> id in t.stars
    ensures r.Success? ==> r.value == t.stars[id]
    ensures r.Failure? ==> r.error == NotFound
  {
    if id in t.stars then Success(t.stars[id]) else Failure(NotFound)
  }

  /** `star_ids` (database.py:712-716): every stored ID once, ascending. */
  function StarIds(t: Tables): (ids: seq<int>)
    ensures forall i :: i in ids <==> i in t.stars
    ensures forall a, b :: 0 <= a < b < |ids| ==> ids[a] < ids[b]
  {
    Ascending(t.stars.Keys)
  }

  // ---------------------------------------------------------------------
  // Photometry and light-curve points

  /** The insertion of a reading into `photometry` or `light_curves`
      (database.py:730-749, 841-861): it fails when the star is unknown, the
      Unix time is not an image's, or the pair is stored; the error is then
      chosen by asking in that order. */
  function AddReading(m: map<(int, real), Measurement>, t: Tables, star: int, p: Point, dup: DbError)
    : (r: Result<map<(int, real), Measurement>, DbError>)
    ensures r.Failure? <==> star !in t.stars || p.time !in t.images || (star, p.time) in m
    ensures star !in t.stars ==> r == Failure(UnknownStar(star))
    ensures star in t.stars && p.time !in t.images ==> r == Failure(UnknownImage(p.time))
    ensures star in t.stars && p.time in t.images && (star, p.time) in m ==> r == Failure(dup)
    ensures r.Success? ==> r.value == m[(star, p.time) := Measurement(p.mag, p.snr)]
  {
    if star !in t.stars then Failure(UnknownStar(star))
    else if p.time !in t.images then Failure(UnknownImage(p.time))
    else if (star, p.time) in m then Failure(dup)
    else Success(m[(star, p.time) := Measurement(p.mag, p.snr)])
  }

  /** `add_photometry` (database.py:718-749). */
  function AddPhotometry(t: Tables, star: int, p: Point): (r: (Tables, Outcome<DbError>))
    ensures r.1.Fail? ==> r.0 == t && AddReading(t.photometry, t, star, p, DuplicatePhotometry) == Failure(r.1.error)
    ensures r.1.Pass? ==> AddReading(t.photometry, t, star, p, DuplicatePhotometry).Success?
                          && r.0 == t.(photometry := AddReading(t.photometry, t, star, p, DuplicatePhotometry).value)
  {
    match AddReading(t.photometry, t, star, p, DuplicatePhotometry)
    case Failure(e) => (t, Fail(e))
    case Success(m) => (t.(photometry := m), Pass)
  }

  /** `_add_curve_point` (database.py:829-861). */
  function AddCurvePoint(t: Tables, star: int, p: Point): (r: (Tables, Outcome<DbError>))
    ensures r.1.Fail? ==> r.0 == t && AddReading(t.curves, t, star, p, DuplicateCurvePoint) == Failure(r.1.error)
    ensures r.1.Pass? ==> AddReading(t.curves, t, star, p, DuplicateCurvePoint).Success?
                          && r.0 == t.(curves := AddReading(t.curves, t, star, p, DuplicateCurvePoint).value)
  {
    match AddReading(t.curves, t, star, p, DuplicateCurvePoint)
    case Failure(e) => (t, Fail(e))
    case Success(m) => (t.(curves := m), Pass)
  }

  /** The Unix times at which `star` has a reading on an image taken in the
      filter of wavelength `w`. */
  function TimesIn(m: map<(int, real), Measurement>, images: map<real, ImageRow>, star: int, w: int): (ts: set<real>)
    ensures forall u :: u in ts <==> u in images && (star, u) in m && images[u].wavelength == w
  {
    set u | u in images.Keys && (star, u) in m && images[u].wavelength == w
  }

  /** The points at the Unix times `times`, read from `m` for `star`. */
  function PointsAt(m: map<(int, real), Measurement>, star: int, times: seq<real>): (r: seq<Point>)
    requires forall i :: 0 <= i < |times| ==> (star, times[i]) in m
    ensures |r| == |times|
    ensures forall i :: 0 <= i < |r| ==>
              r[i] == Point(times[i], m[(star, times[i])].mag, m[(star, times[i])].snr)
  {
    seq(|times|, i requires 0 <= i < |times| => Point(times[i], m[(star, times[i])].mag, m[(star, times[i])].snr))
  }

  /** The readings of `star` in a filter, joined with `images` and ordered
      by Unix time, as get_photometry (database.py:764-771) and
      get_light_curve (database.py:959-967) select them. */
  function Readings(m: map<(int, real), Measurement>, images: map<real, ImageRow>, star: int, w: int): (r: seq<Point>)
    ensures forall i :: 0 <= i < |r| ==>
              var u := r[i].time;
              u in images && images[u].wavelength == w && (star, u) in m
              && r[i].mag == m[(star, u)].mag && r[i].snr == m[(star, u)].snr
    ensures forall u :: u in images && (star, u) in m && images[u].wavelength == w ==>
              exists i :: 0 <= i < |r| && r[i].time == u
    ensures forall a, b :: 0 <= a < b < |r| ==> r[a].time < r[b].time
  {
    var ts := TimesIn(m, images, star, w);
    var times := Seqs.AscendingBy(ts, Seqs.Value);
    var r := PointsAt(m, star, times);
    ReadingsComplete(m, images, star, w, times, r);
    r
  }

  lemma ReadingsComplete(m: map<(int, real), Measurement>, images: map<real, ImageRow>, star: int, w: int,
                         times: seq<real>, r: seq<Point>)
    requires forall u :: u in TimesIn(m, images, star, w) ==> u in times
    requires forall u :: u in times ==> u in TimesIn(m, images, star, w)
    requires forall a, b :: 0 <= a < b < |times| ==> Seqs.Value(times[a]) < Seqs.Value(times[b])
    requires |r| == |times|
    requires forall i :: 0 <= i < |times| ==> (star, times[i]) in m
    requires forall i :: 0 <= i < |r| ==> r[i] == Point(times[i], m[(star, times[i])].mag, m[(star, times[i])].snr)
    ensures forall i :: 0 <= i < |r| ==>
              var u := r[i].time;
              u in images && images[u].wavelength == w && (star, u) in m
              && r[i].mag == m[(star, u)].mag && r[i].snr == m[(star, u)].snr
    ensures forall u :: u in images && (star, u) in m && images[u].wavelength == w ==>
              exists i :: 0 <= i < |r| && r[i].time == u
    ensures forall a, b :: 0 <= a < b < |r| ==> r[a].time < r[b].time
  {
    forall i | 0 <= i < |r| ensures r[i].time in images && images[r[i].time].wavelength == w {
      assert times[i] in times;
    }
    forall u | u in images && (star, u) in m && images[u].wavelength == w
      ensures exists i :: 0 <= i < |r| && r[i].time == u
    {
      assert u in TimesIn(m, images, star, w);
      var i :| 0 <= i < |times| && times[i] == u;
      assert r[i].time == u;
    }
  }

  /** `get_photometry` (database.py:751-774), without the DBStar it is put
      in: KeyError for an unknown star, else the star's records in the
      filter ordered by Unix time. */
  function PhotometryOf(t: Tables, star: int, w: int): (r: Result<seq<Point>, DbError>)
    ensures r.Failure? <==> star !in t.stars
    ensures r.Failure? ==> r.error == NotFound
    ensures r.Success? ==> r.value == Readings(t.photometry, t.images, star, w)
  {
    if star !in t.stars then Failure(NotFound) else Success(Readings(t.photometry, t.images, star, w))
  }

  // ---------------------------------------------------------------------
  // Filters with data

  /** The filters in which `star` has photometry: those of the images its
      records were taken on (the inner join drops an image whose filter row
      is missing). */
  function StarWavelengths(t: Tables, star: int): (ws: set<int>)
    ensures forall w :: w in ws ==> w in t.filters
    ensures forall u :: u in t.images && (star, u) in t.photometry && t.images[u].wavelength in t.filters ==>
              t.images[u].wavelength in ws
    ensures forall w :: w in ws ==> exists u :: u in t.images && (star, u) in t.photometry && t.images[u].wavelength == w
  {
    set u | u in t.images.Keys && (star, u) in t.photometry && t.images[u].wavelength in t.filters :: t.images[u].wavelength
  }

  /** The filters in which any star has photometry. */
  function AllWavelengths(t: Tables): (ws: set<int>)
    ensures forall w :: w in ws ==> w in t.filters
    ensures forall k :: k in t.photometry && k.1 in t.images && t.images[k.1].wavelength in t.filters ==>
              t.images[k.1].wavelength in ws
    ensures forall w :: w in ws ==> exists k :: k in t.photometry && k.1 in t.images && t.images[k.1].wavelength == w
  {
    set k | k in t.photometry.Keys && k.1 in t.images && t.images[k.1].wavelength in t.filters :: t.images[k.1].wavelength
  }

  /** Stored filters by ascending wavelength, each with its stored name. */
  function Passbands(filters: map<int, string>, ws: set<int>): (r: seq<Passband>)
    requires ws <= filters.Keys
    ensures forall w :: w in ws ==> Passband(w, filters[w]) in r
    ensures forall i :: 0 <= i < |r| ==> r[i].wavelength in ws && r[i].name == filters[r[i].wavelength]
    ensures forall a, b :: 0 <= a < b < |r| ==> r[a].wavelength < r[b].wavelength
  {
    var l := Ascending(ws);
    assert forall i :: 0 <= i < |l| ==> l[i] in l;
    var r := Named(filters, l);
    PassbandsListed(filters, ws, l, r);
    r
  }

  /** Each wavelength with its stored name. */
  function Named(filters: map<int, string>, l: seq<int>): (r: seq<Passband>)
    requires forall i :: 0 <= i < |l| ==> l[i] in filters
    ensures |r| == |l|
    ensures forall i :: 0 <= i < |l| ==> r[i] == Passband(l[i], filters[l[i]])
  {
    seq(|l|, i requires 0 <= i < |l| => Passband(l[i], filters[l[i]]))
  }

  lemma PassbandsListed(filters: map<int, string>, ws: set<int>, l: seq<int>, r: seq<Passband>)
    requires ws <= filters.Keys
    requires forall x :: x in l <==> x in ws
    requires forall a, b :: 0 <= a < b < |l| ==> l[a] < l[b]
    requires |r| == |l| && forall i :: 0 <= i < |l| ==> l[i] in filters && r[i] == Passband(l[i], filters[l[i]])
    ensures forall w :: w in ws ==> Passband(w, filters[w]) in r
    ensures forall i :: 0 <= i < |r| ==> r[i].wavelength in ws && r[i].name == filters[r[i].wavelength]
    ensures forall a, b :: 0 <= a < b < |r| ==> r[a].wavelength < r[b].wavelength
  {
    forall w | w in ws ensures Passband(w, filters[w]) in r {
      var i :| 0 <= i < |l| && l[i] == w;
      assert r[i] == Passband(w, filters[w]);
    }
    forall i | 0 <= i < |r| ensures r[i].wavelength in ws {
      assert l[i] in l;
    }
  }

  /** `_star_pfilters` (database.py:776-801). */
  function StarPfilters(t: Tables, star: int): (r: Result<seq<Passband>, DbError>)
    ensures r.Failure? <==> star !in t.stars
    ensures r.Failure? ==> r.error == NotFound
    ensures r.Success? ==> r.value == Passbands(t.filters, StarWavelengths(t, star))
  {
    if star !in t.stars then Failure(NotFound) else Success(Passbands(t.filters, StarWavelengths(t, star)))
  }

  /** `pfilters` (database.py:803-827). */
  function Pfilters(t: Tables): (r: seq<Passband>)
    ensures forall w :: w in AllWavelengths(t) ==> Passband(w, t.filters[w]) in r
    ensures forall i :: 0 <= i < |r| ==> r[i].wavelength in AllWavelengths(t) && r[i].name == t.filters[r[i].wavelength]
    ensures forall a, b :: 0 <= a < b < |r| ==> r[a].wavelength < r[b].wavelength
  {
    Passbands(t.filters, AllWavelengths(t))
  }

  // ---------------------------------------------------------------------
  // Comparison stars and light curves

  /** `_add_cmp_star` (database.py:863-899): a star cannot be its own
      comparison star; otherwise the filter and the row are added inside a
      savepoint, and a failed insertion is rolled back and reported as an
      unknown star: the star itself if it is unknown, else the comparison
      star (which is also what a filter ignored for its name is reported
      as). */
  function AddCmpStar(t: Tables, star: int, pf: Passband, cstar: int, weight: real): (r: (Tables, Outcome<DbError>))
    ensures star == cstar ==> r == (t, Fail(SelfComparison(star)))
    ensures star != cstar ==>
              (r.1.Pass? <==> star in t.stars && cstar in t.stars && pf.wavelength in AddPfilter(t, pf).filters)
    ensures star != cstar && r.1.Fail? ==>
              r.0 == t && r.1.error == UnknownStar(if star !in t.stars then star else cstar)
    ensures r.1.Pass? ==>
              r.0 == AddPfilter(t, pf).(cmpStars := t.cmpStars + [CmpRow(star, pf.wavelength, cstar, weight)])
  {
    if star == cstar then (t, Fail(SelfComparison(star)))
    else
      var t1 := AddPfilter(t, pf);
      if star in t.stars && cstar in t.stars && pf.wavelength in t1.filters then
        (t1.(cmpStars := t.cmpStars + [CmpRow(star, pf.wavelength, cstar, weight)]), Pass)
      else
        (t, Fail(UnknownStar(if star !in t.stars then star else cstar)))
  }

  /** The `_add_curve_point` calls of add_light_curve, in order, up to the
      first that fails. */
  function InsertPoints(t: Tables, star: int, points: seq<Point>): (r: (Tables, Outcome<DbError>))
    ensures r.0 == t.(curves := r.0.curves)
    ensures r.1.Fail? ==> r.1.error.UnknownStar? || r.1.error.UnknownImage? || r.1.error == DuplicateCurvePoint
    decreases |points|
  {
    if points == [] then (t, Pass)
    else
      var (t1, o) := AddCurvePoint(t, star, points[0]);
      if o.Fail? then (t1, o) else InsertPoints(t1, star, points[1..])
  }

  /** The `_add_cmp_star` calls of add_light_curve, in order, up to the
      first that fails. */
  function InsertCmpStars(t: Tables, star: int, pf: Passband, weights: seq<(int, real)>): (r: (Tables, Outcome<DbError>))
    ensures r.0 == t.(filters := r.0.filters, cmpStars := r.0.cmpStars)
    ensures r.1.Fail? ==> r.1.error.SelfComparison? || r.1.error.UnknownStar?
    decreases |weights|
  {
    if weights == [] then (t, Pass)
    else
      var (t1, o) := AddCmpStar(t, star, pf, weights[0].0, weights[0].1);
      if o.Fail? then (t1, o) else InsertCmpStars(t1, star, pf, weights[1..])
  }

  /** `add_light_curve` (database.py:901-937) on a curve whose points, in
      chronological order, are `points` and whose comparison stars and
      weights are `weights`: the points, then the comparison stars, inside
      one savepoint; any error rolls everything back and is raised again. */
  function AddLightCurve(t: Tables, star: int, pf: Passband, points: seq<Point>, weights: seq<(int, real)>)
    : (r: (Tables, Outcome<DbError>))
    ensures r.1.Fail? ==> r.0 == t
    ensures r.1.Fail? <==> InsertPoints(t, star, points).1.Fail?
                           || InsertCmpStars(InsertPoints(t, star, points).0, star, pf, weights).1.Fail?
    ensures r.1.Fail? && InsertPoints(t, star, points).1.Fail? ==> r.1 == InsertPoints(t, star, points).1
    ensures r.1.Fail? && InsertPoints(t, star, points).1.Pass? ==>
              r.1 == InsertCmpStars(InsertPoints(t, star, points).0, star, pf, weights).1
    ensures r.1.Pass? ==> r.0 == InsertCmpStars(InsertPoints(t, star, points).0, star, pf, weights).0
  {
    var (t1, o1) := InsertPoints(t, star, points);
    if o1.Fail? then (t, o1)
    else
      var (t2, o2) := InsertCmpStars(t1, star, pf, weights);
      if o2.Fail? then (t, o2) else (t2, Pass)
  }

  /** The test of the comparison-star query: rows of `star` in filter `w`. */
  function IsCmpOf(star: int, w: int): CmpRow -> bool
  {
    (c: CmpRow) => c.star == star && c.wavelength == w
  }

  /** The sort key of that query: the comparison star's ID. */
  function CmpKey(c: CmpRow): real { c.cstar as real }

  /** The comparison stars of `star` in filter `w`, by ascending ID. Rows
      with the same ID keep their row order, one of the orders SQLite may
      return them in. */
  function CmpFor(t: Tables, star: int, w: int): (r: seq<CmpRow>)
    ensures multiset(r) == multiset(Seqs.Filter(t.cmpStars, IsCmpOf(star, w)))
    ensures forall c :: c in r ==> c in t.cmpStars && c.star == star && c.wavelength == w
    ensures forall a, b :: 0 <= a < b < |r| ==> r[a].cstar <= r[b].cstar
  {
    var rows := Seqs.Filter(t.cmpStars, IsCmpOf(star, w));
    var r := Seqs.SortBy(rows, CmpKey);
    CmpRowsSorted(t.cmpStars, IsCmpOf(star, w), star, w, rows, r);
    r
  }

  lemma CmpRowsSorted(rows: seq<CmpRow>, p: CmpRow -> bool, star: int, w: int, kept: seq<CmpRow>, r: seq<CmpRow>)
    requires p == IsCmpOf(star, w)
    requires kept == Seqs.Filter(rows, p)
    requires multiset(r) == multiset(kept) && Seqs.SortedBy(r, CmpKey)
    ensures forall c :: c in r ==> c in rows && c.star == star && c.wavelength == w
    ensures forall a, b :: 0 <= a < b < |r| ==> r[a].cstar <= r[b].cstar
  {
    forall c | c in r ensures c in rows && c.star == star && c.wavelength == w {
      assert c in multiset(kept);
      assert p(c);
    }
    forall a, b | 0 <= a < b < |r| ensures r[a].cstar <= r[b].cstar {
      assert CmpKey(r[a]) <= CmpKey(r[b]);
    }
  }

  /** A light curve as get_light_curve rebuilds it: its points in
      chronological order and its comparison stars with their weights. */
  datatype StoredCurve = StoredCurve(points: seq<Point>, cstars: seq<int>, cweights: seq<real>)

  /** `get_light_curve` (database.py:939-996): the star's points in the
      filter; if there are any, its comparison stars, whose absence is
      reported as IntegrityError; if there are none, KeyError for an unknown
      star and None for a known one. */
  function ReadCurve(t: Tables, star: int, w: int): (r: Result<Option<StoredCurve>, DbError>)
    ensures var points := Readings(t.curves, t.images, star, w);
            r.Failure? <==> (points != [] && CmpFor(t, star, w) == []) || (points == [] && star !in t.stars)
    ensures r.Failure? ==> r.error == if Readings(t.curves, t.images, star, w) != [] then IntegrityError else NotFound
    ensures r == Success(None) <==> Readings(t.curves, t.images, star, w) == [] && star in t.stars
    ensures r.Success? && r.value.Some? ==> Stores(r.value.value, Readings(t.curves, t.images, star, w), CmpFor(t, star, w))
  {
    AssembleCurve(Readings(t.curves, t.images, star, w), CmpFor(t, star, w), star in t.stars)
  }

  /** The decisions of get_light_curve once both queries have run. */
  function AssembleCurve(points: seq<Point>, cmp: seq<CmpRow>, known: bool): (r: Result<Option<StoredCurve>, DbError>)
    ensures r.Failure? <==> (points != [] && cmp == []) || (points == [] && !known)
    ensures r.Failure? ==> r.error == if points != [] then IntegrityError else NotFound
    ensures r == Success(None) <==> points == [] && known
    ensures r.Success? && r.value.Some? ==> Stores(r.value.value, points, cmp)
  {
    if points != [] then
      if cmp == [] then Failure(IntegrityError)
      else
        Success(Some(StoredCurve(points, seq(|cmp|, i requires 0 <= i < |cmp| => cmp[i].cstar),
                                 seq(|cmp|, i requires 0 <= i < |cmp| => cmp[i].weight))))
    else if !known then Failure(NotFound)
    else Success(None)
  }

  /** `c` is the curve made of these points and these comparison rows. */
  predicate Stores(c: StoredCurve, points: seq<Point>, cmp: seq<CmpRow>)
  {
    && c.points == points && points != []
    && |c.cstars| == |cmp| == |c.cweights| > 0
    && forall i :: 0 <= i < |cmp| ==> c.cstars[i] == cmp[i].cstar && c.cweights[i] == cmp[i].weight
  }

  // ---------------------------------------------------------------------
  // Periods and airmasses

  /** `add_period` (database.py:998-1032): the filter and the row inside a
      savepoint; a failed insertion is rolled back and reported as an unknown
      star if the star is unknown, and as a duplicate period otherwise
      (which is also what a filter ignored for its name is reported as). */
  function AddPeriod(t: Tables, star: int, pf: Passband, period: real, step: real): (r: (Tables, Outcome<DbError>))
    ensures r.1.Pass? <==> star in t.stars && pf.wavelength in AddPfilter(t, pf).filters && (star, pf.wavelength) !in t.periods
    ensures r.1.Fail? ==> r.0 == t && r.1.error == if star !in t.stars then UnknownStar(star) else DuplicatePeriod
    ensures r.1.Pass? ==>
              r.0 == AddPfilter(t, pf).(periods := t.periods[(star, pf.wavelength) := PeriodRow(step, period)])
  {
    var t1 := AddPfilter(t, pf);
    if star in t.stars && pf.wavelength in t1.filters && (star, pf.wavelength) !in t.periods then
      (t1.(periods := t.periods[(star, pf.wavelength) := PeriodRow(step, period)]), Pass)
    else
      (t, Fail(if star !in t.stars then UnknownStar(star) else DuplicatePeriod))
  }

  /** `get_period` (database.py:1034-1058). */
  function GetPeriod(t: Tables, star: int, w: int): (r: Result<Option<PeriodRow>, DbError>)
    ensures (star, w) in t.periods ==> r == Success(Some(t.periods[(star, w)]))
    ensures (star, w) !in t.periods && star !in t.stars ==> r == Failure(NotFound)
    ensures (star, w) !in t.periods && star in t.stars ==> r == Success(None)
  {
    if (star, w) in t.periods then Success(Some(t.periods[(star, w)]))
    else if star !in t.stars then Failure(NotFound)
    else Success(None)
  }

  /** The filters in which `star` has a period. */
  function PeriodWavelengths(t: Tables, star: int): (ws: set<int>)
    ensures forall w :: w in ws <==> (star, w) in t.periods
  {
    set k | k in t.periods.Keys && k.0 == star :: k.1
  }

  /** `get_periods` (database.py:1060-1085): the star's periods, one per
      filter in which it has one, listed here by ascending wavelength (SQLite
      promises no order); KeyError when there are none and the star is
      unknown. */
  function GetPeriods(t: Tables, star: int): (r: Result<seq<real>, DbError>)
    ensures r.Failure? <==> PeriodWavelengths(t, star) == {} && star !in t.stars
    ensures r.Failure? ==> r.error == NotFound
    ensures r.Success? ==> |r.value| == |PeriodWavelengths(t, star)|
    ensures r.Success? ==> forall w :: (star, w) in t.periods ==> t.periods[(star, w)].period in r.value
    ensures r.Success? ==> forall p :: p in r.value ==> exists w :: (star, w) in t.periods && t.periods[(star, w)].period == p
    ensures r.Success? ==> var l := Ascending(PeriodWavelengths(t, star));
              |r.value| == |l| &&
              forall i :: 0 <= i < |l| ==> (star, l[i]) in t.periods && r.value[i] == t.periods[(star, l[i])].period
  {
    var ps := StarPeriods(t, star);
    if ps == [] && star !in t.stars then Failure(NotFound) else Success(ps)
  }

  /** The star's periods, by ascending wavelength. */
  function StarPeriods(t: Tables, star: int): (ps: seq<real>)
    ensures |ps| == |PeriodWavelengths(t, star)|
    ensures forall w :: (star, w) in t.periods ==> t.periods[(star, w)].period in ps
    ensures forall p :: p in ps ==> exists w :: (star, w) in t.periods && t.periods[(star, w)].period == p
    ensures var l := Ascending(PeriodWavelengths(t, star));
              |ps| == |l| &&
              forall i :: 0 <= i < |l| ==> (star, l[i]) in t.periods && ps[i] == t.periods[(star, l[i])].period
  {
    var ws := PeriodWavelengths(t, star);
    var l := Ascending(ws);
    assert forall i :: 0 <= i < |l| ==> l[i] in l;
    var ps := PeriodsAt(t.periods, star, l);
    PeriodsListed(t, star, ws, l, ps);
    ps
  }

  /** The period of `star` in each filter of `l`. */
  function PeriodsAt(periods: map<(int, int), PeriodRow>, star: int, l: seq<int>): (ps: seq<real>)
    requires forall i :: 0 <= i < |l| ==> (star, l[i]) in periods
    ensures |ps| == |l|
    ensures forall i :: 0 <= i < |l| ==> ps[i] == periods[(star, l[i])].period
  {
    seq(|l|, i requires 0 <= i < |l| => periods[(star, l[i])].period)
  }

  lemma PeriodsListed(t: Tables, star: int, ws: set<int>, l: seq<int>, ps: seq<real>)
    requires ws == PeriodWavelengths(t, star)
    requires |l| == |ws| && (forall x :: x in l ==> x in ws) && (forall x :: x in ws ==> x in l)
    requires |ps| == |l| && forall i :: 0 <= i < |l| ==> l[i] in ws && ps[i] == t.periods[(star, l[i])].period
    ensures forall w :: (star, w) in t.periods ==> t.periods[(star, w)].period in ps
    ensures forall p :: p in ps ==> exists w :: (star, w) in t.periods && t.periods[(star, w)].period == p
  {
    forall w | (star, w) in t.periods ensures t.periods[(star, w)].period in ps {
      assert w in ws;
      var i :| 0 <= i < |l| && l[i] == w;
      assert ps[i] == t.periods[(star, w)].period;
    }
    forall p | p in ps ensures exists w :: (star, w) in t.periods && t.periods[(star, w)].period == p {
      var i :| 0 <= i < |ps| && ps[i] == p;
      var w := l[i];
      assert (star, w) in t.periods && t.periods[(star, w)].period == p;
    }
  }

  /** `airmasses` (database.py:1087-1102): the airmass of each image taken
      in the filter, by Unix time. */
  function Airmasses(t: Tables, w: int): (r: map<real, real>)
    ensures forall u :: u in r <==> u in t.images && t.images[u].wavelength == w
    ensures forall u :: u in r ==> r[u] == t.images[u].airmass
  {
    map u | u in t.images.Keys && t.images[u].wavelength == w :: t.images[u].airmass
  }
}
