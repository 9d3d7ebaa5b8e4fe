# LEMON photometry database, modelled in Dafny

LEMON is a pipeline for differential photometry. Its `database.py` keeps a
campaign's results in an SQLite file. The file holds the stars of the field,
the photometric filters and parameters, the reference image and the other
images, each star's instrumental photometry, its light curves with their
comparison stars and weights, and its string-length periods. This project
models the three classes that hold that logic:

- `DBStar`, the photometry of one star in one filter. It is a 3 x n array
  (Unix times, magnitudes, SNRs) plus a map from each Unix time to its column.
  It is modelled as the class `Photometry.DbStar` over an `array2<real>`. Its
  loops (`make_star`, `_trim_to`, `issubset`, `complete_for`) become methods
  with loop invariants.
- `LightCurve`, the points of a curve in the order they were added, its
  filter, and its comparison stars with their weights. It is modelled as the
  class `Curves.LightCurve`. The amplitude arithmetic is a set of functions
  over sorted windows.
- `LEMONdB`, the database. Its tables are the datatype `Schema.Tables`: a
  map per table with a primary key, and a sequence for `cmp_stars`, which has
  none. Every operation is first a function of `Schema` from the old tables
  to the new tables and an outcome. The class `Database.LemonDb` has one field
  per table. Its methods perform the source's steps on those fields and are
  proved to end exactly where the `Schema` function says. A savepoint is a
  copy of the tables, and rolling back assigns that copy to the fields. The
  foreign keys and UNIQUE constraints of the schema are the predicate
  `Schema.Integrity`, and every write keeps it. `SchemaFacts` proves that
  reads return what writes stored, and that a light curve is stored whole or
  not at all. `Phase` holds the folding of `get_phase_diagram`. `Similarity`
  holds the ranking of `most_similar_magnitude`.

Unix times are exact `real` keys. Magnitudes, SNRs, weights and periods are
`real`s. Exceptions are the values of `Records.DbError`, returned in a
`Result` or an `Outcome`.

Where the documentation and the code disagree, the model follows the code:

- The docstring of `_trim_to` (database.py:129-130) states its precondition
  the wrong way round. The code looks up every time of `other` in this star's
  index, so `DbStar.TrimTo` requires `other.SubsetOf(this)`.
- `get_periods` (database.py:1060-1085) raises KeyError for an unknown star
  only when no period is found for its ID.
- `amplitude` takes the statistic of all magnitudes but the lowest `npoints`,
  not of the highest `npoints`. See "## Findings".

## Model

| member | source | states |
|---|---|---|
| Photometry.DbStar.constructor | database.py:53-85 | the star holds the given ID, filter, array and index map; the array must have three rows |
| Photometry.DbStar.Times | database.py:113-115 | the Unix times of the star, one per column, in column order |
| Photometry.DbStar.Time | database.py:96-98 | the time of a (possibly negative, NumPy-style) index is a key of the index map, which sends it back to a column holding that time |
| Photometry.DbStar.TimeIndex | database.py:100-102 | the column the index map gives for a time is a valid column whose time is that time |
| Photometry.DbStar.Mag | database.py:104-106 | the magnitude in the column of the index, a negative index counting from the end |
| Photometry.DbStar.Snr | database.py:108-110 | the SNR in the column of the index, a negative index counting from the end |
| Photometry.RecordRead | database.py:96-110 | a star built from rows reads back, through time, mag and snr, the row at any index, a negative one counting from the end |
| Photometry.RecordAtTime | database.py:100-110 | the magnitude and SNR at the column of a time are those of a row observed at that time |
| Photometry.DbStar.IsSubset | database.py:117-124 | true exactly when every time of this star is a key of `other`'s index map; an empty star is a subset of anything |
| Photometry.DbStar.MakeStar | database.py:156-186 | a valid star of length n whose column i holds row i; every row's time is indexed, and the index sends each time to the last row observed at it |
| Photometry.LastColumnsAre | database.py:179-184 | the index map built by the loop of make_star covers every row's time and sends it to the last row with that time |
| Photometry.DbStar.TrimTo | database.py:126-139 | this star's records at `other`'s times, in `other`'s order, with `other`'s index, this star's ID and filter, and `other`'s length |
| Photometry.DbStar.CompleteFor | database.py:141-154 | one result per candidate kept, in input order, each trimmed to this star's times |
| Photometry.CandidatesAre | database.py:149-154 | a star is kept exactly when it is in the input, is not this very object, and its index covers this star's times |
| Photometry.CandidatesKeepOrder | database.py:149-154 | the kept stars keep their input order |
| Curves.LightCurve.constructor | database.py:229-249 | an empty curve with the given filter, comparison stars and weights |
| Curves.LightCurve.Create | database.py:238-243 | a length mismatch between stars and weights is refused first, then an empty list of comparison stars; otherwise a new empty curve |
| Curves.LightCurve.Add | database.py:251-253 | the point is appended and nothing else changes |
| Curves.LightCurve.Chronological | database.py:261-264 | a permutation of the stored points sorted by Unix time; the stored order is not changed |
| Seqs.SortByKeepsTies | database.py:261-264 | the sort is stable: elements with equal keys keep their relative order |
| Curves.LightCurve.Weights | database.py:273-277 | each comparison star paired with the weight at the same index |
| Curves.Zip | database.py:276 | `zip` pairs elements of equal index, as many as the shorter input has |
| Curves.LightCurve.IgnoreNoisy | database.py:303-315 | a new curve holding exactly the points whose SNR reaches the threshold, in order, with the same filter and comparison stars; the original is not modified |
| Curves.Magnitudes | database.py:299 | the magnitudes of the points, in order |
| Curves.LightCurve.Amplitude | database.py:279-301 | the amplitude of the curve is defined exactly when both slices of its sorted magnitudes are nonempty, and is then never negative |
| Curves.AmplitudeOf | database.py:279-301 | the amplitude as the code computes it is defined exactly when both windows are nonempty |
| Curves.AmplitudeNonNegative | database.py:299-301 | the amplitude as written is never negative |
| Curves.CentreBounds | database.py:300 | the median or mean of a sorted window lies between its first and last value |
| Curves.CentreMonotone | database.py:300 | the median or mean of a sorted window is monotone in the window |
| Curves.MedianOfSorted | database.py:300 | the median of a sorted window is its middle value, or the mean of its two middle values |
| Curves.AmplitudeIntended | database.py:279-297 | the peak-to-trough amplitude the docstring describes is defined exactly when the window is nonempty |
| Curves.IntendedNonNegative | database.py:279-297 | the documented amplitude is never negative |
| Curves.IntendedPeakToTrough | database.py:282-285 | with one point per window, the documented amplitude is the largest magnitude minus the smallest |
| Curves.AmplitudeAsWrittenExample | database.py:299-301 | on magnitudes 1, 2, 3, 5, 8 with the defaults, the code gives 3 |
| Curves.AmplitudeIntendedExample | database.py:279-297 | on the same magnitudes the documented amplitude is 7 |
| Phase.Trunc | database.py:1139 | the integer part of `math.modf` rounds toward zero |
| Phase.Frac | database.py:1139 | the fractional part of `math.modf` has the sign of its argument, is less than one in size, and leaves a whole number |
| Phase.MinTime | database.py:1134 | `min(unix_times)` is one of the times and no greater than any |
| Phase.PhaseDiagram | database.py:1136-1153 | a zero period fails with ZeroDivisionError; `repeat` below one fails the assertion of line 1149; otherwise there are n times `repeat` points |
| Phase.PhaseDiagramEntry | database.py:1136-1157 | entry k·n + j is point j of the chronological curve in copy k: its phase plus k, with that point's magnitude and SNR |
| Phase.PhaseInUnitInterval | database.py:1137-1140 | with a positive period every phase lies in [0, 1) |
| Phase.OffsetIsProduct | database.py:1149 | the copy offsets are multiples of the number of points |
| Schema.Empty | database.py:411-528 | a new database has empty tables, which meet every constraint |
| Schema.Least | database.py:570-578 | the first stored ID of equal photometric parameters is the least of them |
| Schema.NextRowId | database.py:579-582 | a new row ID is not in use: one more than the largest ID, or 1 in an empty table |
| Schema.AddPfilter | database.py:537-543 | INSERT OR IGNORE: the filter is added only when neither its wavelength nor its name is stored; stored filters are kept |
| SchemaFacts.AddPfilterIdempotent | database.py:537-543 | adding a filter twice is adding it once |
| Schema.AddPparams | database.py:567-582 | the ID of stored equal parameters is reused without a new row; otherwise a new row gets a fresh ID; either way the ID names these parameters |
| Schema.GetPparams | database.py:552-565 | the stored parameters of an ID, or KeyError |
| SchemaFacts.AddPparamsRoundTrip | database.py:552-582 | the ID returned by `_add_pparams` reads back the same parameters |
| Schema.SetRimage | database.py:599-606 | the filter is added and the single reference row replaced; a filter ignored for its name makes the insertion fail, leaving no reference image |
| Schema.Rimage | database.py:584-597 | the reference image joined with its filter's name, or None |
| SchemaFacts.SetRimageRoundTrip | database.py:584-606 | the reference image reads back as set, with the stored name of a filter stored before |
| Schema.AddImage | database.py:608-639 | a taken Unix time, or a filter ignored for its name, rolls back and raises DuplicateImageError with the tables unchanged; otherwise the filter, the parameters and the image are stored |
| Schema.GetImage | database.py:641-664 | the image joined with its filter and parameters, or KeyError |
| SchemaFacts.AddImageRoundTrip | database.py:608-664 | an image added with a filter whose name agrees with the stored one reads back unchanged |
| Schema.AddStar | database.py:666-686 | a new ID is stored; a taken ID raises DuplicateStarError and changes nothing |
| Schema.GetStar | database.py:688-706 | the stored row, or KeyError |
| SchemaFacts.AddStarRoundTrip | database.py:666-716 | an added star reads back and is listed by `star_ids` |
| Schema.StarIds | database.py:712-716 | every stored ID once, in ascending order |
| Schema.AddReading | database.py:730-749 | an unknown star is reported first, then an unknown image, then a duplicate; otherwise exactly one reading is added |
| Schema.AddPhotometry | database.py:718-749 | the photometry table gets the reading as AddReading decides, or the error and no change |
| Schema.Readings | database.py:764-771 | the star's readings on images of the filter, each with its stored magnitude and SNR, all of them, by ascending Unix time |
| Schema.PhotometryOf | database.py:751-774 | KeyError for an unknown star, else its readings in the filter |
| SchemaFacts.AddPhotometryRoundTrip | database.py:718-774 | a stored record is among those read back in its image's filter |
| SchemaFacts.PointRead | database.py:959-967 | a stored reading taken in a filter is listed for that filter |
| Schema.StarWavelengths | database.py:776-801 | the stored filters of the images on which the star has photometry |
| Schema.StarPfilters | database.py:776-801 | KeyError for an unknown star, else its filters by ascending wavelength with their stored names |
| Schema.AllWavelengths | database.py:803-827 | the stored filters of the images on which any star has photometry |
| Schema.Pfilters | database.py:803-827 | every filter in which some star has photometry, once, with its stored name, by strictly ascending wavelength, and no other |
| SchemaFacts.StarPfiltersInPfilters | database.py:776-827 | every filter of a known star is among those pfilters lists |
| SchemaFacts.PfiltersOfStars | database.py:776-827 | in a database that keeps its constraints, every filter pfilters lists is a filter of some stored star |
| Schema.Passbands | database.py:790-801 | each given wavelength once, ascending, with its stored name |
| Schema.AddCurvePoint | database.py:829-861 | the light_curves table gets the point as AddReading decides, or the error and no change |
| Schema.AddCmpStar | database.py:863-899 | a star cannot compare with itself; otherwise the row is added with the filter, or the tables are unchanged and the unknown star (or else the comparison star) is named |
| Schema.AddLightCurve | database.py:901-937 | the points and then the comparison stars are inserted; any error restores the old tables and is raised again |
| Schema.InsertPoints | database.py:930-931 | the points go in one by one up to the first failure: only light_curves changes, and the error is an unknown star or image or a duplicate point |
| SchemaFacts.InsertPointsKeeps | database.py:930-931 | up to the first failure, every stored light_curves reading stays as it was |
| Schema.InsertCmpStars | database.py:932-933 | the comparison stars go in one by one up to the first failure: only the filters and cmp_stars change, and the error is a self-comparison or an unknown star |
| SchemaFacts.InsertCmpStarsKeeps | database.py:932-933 | up to the first failure, every stored filter and cmp_stars row stays, and at most one row is appended per comparison star |
| SchemaFacts.InsertPointsSpec | database.py:930-931 | all points go in exactly when the star is known, every time is an image's and new for the star, and no two points share a time; then exactly those readings are added |
| SchemaFacts.InsertCmpStarsSpec | database.py:932-933 | all comparison stars go in exactly when the star and each of them are known, none is the star itself, and the filter is stored or can be; then their rows are appended in order |
| SchemaFacts.AddLightCurveSpec | database.py:901-937 | a curve is stored exactly when all its points and comparison stars can be; then only its readings, its rows and its filter are added |
| SchemaFacts.AddLightCurveUnknownStar | database.py:909-911 | a curve of an unknown star is refused, naming the star, with the tables unchanged |
| SchemaFacts.AddLightCurveRepeatedTime | database.py:918-920 | a curve with two points at one Unix time is refused as a whole |
| Schema.CmpFor | database.py:971-977 | the star's comparison rows in the filter, all of them, by ascending comparison star ID |
| SchemaFacts.CmpRead | database.py:971-977 | a stored comparison row is listed for its star and filter |
| Schema.ReadCurve | database.py:939-996 | KeyError for an unknown star without points, None for a known one, IntegrityError for points without comparison stars; otherwise the points and the comparison stars with their weights |
| SchemaFacts.LightCurveReadBack | database.py:901-996 | after add_light_curve, reading the curve back gives every point and every comparison star with its weight |
| Schema.AddPeriod | database.py:998-1032 | the period is stored with its filter when the star is known and has none in that filter; otherwise nothing changes and UnknownStarError or DuplicatePeriodError is raised |
| Schema.GetPeriod | database.py:1034-1058 | the stored period and step, None for a known star without one, KeyError otherwise |
| SchemaFacts.AddPeriodRoundTrip | database.py:998-1085 | a stored period reads back from get_period and is among those of get_periods |
| Schema.GetPeriods | database.py:1060-1085 | the i-th period is the star's period in the i-th of its filters by ascending wavelength, so one per filter that has one and no other; KeyError only when there is none and the star is unknown |
| Schema.Airmasses | database.py:1087-1102 | the airmass of each image taken in the filter, by Unix time, and of no other |
| SchemaFacts.AddPfilterKeepsIntegrity | database.py:537-543 | adding a filter keeps every constraint |
| SchemaFacts.AddPparamsKeepsIntegrity | database.py:567-582 | adding parameters keeps every constraint |
| SchemaFacts.SetRimageKeepsIntegrity | database.py:599-606 | setting the reference image keeps every constraint |
| SchemaFacts.AddImageKeepsIntegrity | database.py:608-639 | adding an image keeps every constraint |
| SchemaFacts.AddStarKeepsIntegrity | database.py:666-686 | adding a star keeps every constraint |
| SchemaFacts.AddPhotometryKeepsIntegrity | database.py:718-749 | adding photometry keeps every constraint |
| SchemaFacts.AddCurvePointKeepsIntegrity | database.py:829-861 | adding a curve point keeps every constraint |
| SchemaFacts.AddCmpStarKeepsIntegrity | database.py:863-899 | adding a comparison star keeps every constraint |
| SchemaFacts.AddLightCurveKeepsIntegrity | database.py:901-937 | adding a light curve keeps every constraint |
| SchemaFacts.AddPeriodKeepsIntegrity | database.py:998-1032 | adding a period keeps every constraint |
| Similarity.OtherMagnitudes | database.py:1175-1176 | every other star once, with its own instrumental magnitude, by ascending ID |
| Similarity.Ranked | database.py:1181-1182 | those stars sorted by distance from the reference magnitude |
| Similarity.Walk | database.py:1183-1185 | the loop yields at most one star per ranked candidate |
| Similarity.WalkIsFilteredPrefix | database.py:1183-1185 | the generator yields, in order, the ranked stars that have a curve, up to the first read that raises |
| Similarity.MostSimilarMagnitude | database.py:1160-1185 | KeyError, with nothing yielded, for an unknown reference star |
| Similarity.MostSimilarOrdered | database.py:1160-1185 | the yielded stars come by non-decreasing distance from the reference magnitude, ties by ascending ID |
| Similarity.MostSimilarYields | database.py:1160-1185 | every yielded star is another star of the database, with its own magnitude, and has a light curve in the filter |
| Similarity.MostSimilarComplete | database.py:1160-1185 | when nothing raises, every other star with a curve in the filter is yielded |
| Similarity.MostSimilarFailure | database.py:1160-1185 | the generator raises only because reading some other star's curve raised, or for an unknown reference star |
| Database.LemonDb.constructor | database.py:349-364 | a new database has empty tables that meet every constraint |
| Database.LemonDb.RollbackTo | database.py:402-404 | the tables return to the state saved at the savepoint |
| Database.LemonDb.AddPfilter | database.py:537-543 | the tables end as Schema.AddPfilter says |
| Database.LemonDb.AddPparams | database.py:567-582 | the tables and the ID are as Schema.AddPparams says |
| Database.LemonDb.SetRimage | database.py:599-606 | the tables and the outcome are as Schema.SetRimage says, and the constraints hold |
| Database.LemonDb.AddImage | database.py:608-639 | with a savepoint and rollback, the tables and the outcome are as Schema.AddImage says, and the constraints hold |
| Database.LemonDb.AddStar | database.py:666-686 | the tables and the outcome are as Schema.AddStar says, and the constraints hold |
| Database.LemonDb.AddPhotometry | database.py:718-749 | the tables and the outcome are as Schema.AddPhotometry says, and the constraints hold |
| Database.LemonDb.GetPhotometry | database.py:751-774 | KeyError for an unknown star, else a valid DBStar whose column i is the star's i-th reading in the filter |
| Database.LemonDb.AddCurvePoint | database.py:829-861 | the tables and the outcome are as Schema.AddCurvePoint says, and the constraints hold |
| Database.LemonDb.AddCmpStar | database.py:863-899 | with a savepoint and rollback, the tables and the outcome are as Schema.AddCmpStar says, and the constraints hold |
| Database.LemonDb.AddLightCurve | database.py:901-937 | the points in chronological order and then the weights, with rollback on the first error: the tables and the outcome are as Schema.AddLightCurve says, and the constraints hold |
| Database.LemonDb.AddCurvePoints | database.py:930-931 | the loop over the points ends as Schema.InsertPoints says |
| Database.LemonDb.AddCmpStars | database.py:932-933 | the loop over the weights ends as Schema.InsertCmpStars says |
| Database.LemonDb.GetLightCurve | database.py:939-996 | the errors and None of Schema.ReadCurve; otherwise a new valid LightCurve in the filter holding the stored points and comparison stars |
| Database.LemonDb.AddPeriod | database.py:998-1032 | with a savepoint and rollback, the tables and the outcome are as Schema.AddPeriod says, and the constraints hold |
| Database.LemonDb.GetPhaseDiagram | database.py:1104-1157 | the errors and None of get_light_curve; the errors of the folding; otherwise a new curve in the filter holding Phase.PhaseDiagram of the chronological points, with the same comparison stars |
| Database.NewCurve | database.py:993-996 | a new valid curve with these comparison stars, holding the points in order |

## Left out

- SQLite itself: the connection, the cursor, the PRAGMA check, `__del__`, the
  SQL text and its indexes, and `commit`. Tables are maps, and a transaction
  is a copy of the tables.
- The random savepoint names (database.py:397-398). A savepoint is the copy
  it names, so nested savepoints need no names.
- `_release` and `_table_count` have no effect on the tables.
- `__len__` of LEMONdB (database.py:708-711) and of DBStar and LightCurve.
  `DbStar.Length` and `|data|` stand for them.
- `LightCurve.stdev` (database.py:266-271), a `numpy.std` computation in
  floating point.
- Floating point and `numpy.longdouble`: every quantity is an exact `real`,
  so rounding, NaN and infinities are not modelled. `amplitude` on an empty
  window, where NumPy returns NaN, is `None` here.
- The `dtype` argument, the `float()` casts and the `time.ctime` messages.
- The module `passband` is not part of this model. A filter is its
  wavelength and its name.
- The `__debug__` re-queries of `add_image` and `add_star`.
- The `ValueError` of the DBStar constructor for an array without three rows
  is a precondition of `Photometry.DbStar.constructor`.
- The NULL `ra` and `dec` of `add_star`: the coordinates are plain reals.
- SQLite's type affinity (`unix_time` as INTEGER in some tables) is not
  modelled: Unix times are exact keys throughout.
- The juicer package (a GTK interface) is not part of this model.
- Schema.AddPparams: when several stored rows hold equal parameters, the
  source returns whichever row SQLite lists first. The model takes the least
  ID, which is the order of a table scan.
- Schema.GetPeriods: SQLite promises no order, and the model lists the
  periods by ascending wavelength, which is one of the orders it may return.
- Schema.CmpFor: rows with the same comparison star ID keep their row order,
  one of the orders SQLite may return them in.
- Similarity.MostSimilarMagnitude: its own contract states only the unknown
  star case. The order, the members and the errors of what it yields are
  stated by the lemmas MostSimilarOrdered, MostSimilarYields,
  MostSimilarComplete and MostSimilarFailure. The generator is modelled by
  everything it yields before it stops or raises, not by its laziness, and
  `LemonDb` has no method for it.
- Photometry.DbStar.Time, Photometry.DbStar.Mag, Photometry.DbStar.Snr:
  an index outside NumPy's bounds is a precondition, not the IndexError
  NumPy raises; no operation of the module passes one.
- Photometry.DbStar.TimeIndex: a time the index map does not know is a
  precondition, not the KeyError of the dictionary lookup; TrimTo reaches it
  only after the subset check.
- Schema.NextRowId: row IDs are unbounded. What SQLite does once the largest
  ID reaches 2^63-1 (a random unused ID, or SQLITE_FULL) is not modelled.
- Curves.LightCurve.Amplitude, Phase.PhaseDiagram: the default arguments
  (`npoints = 1`, `median = True`, `repeat = 1`) are not modelled; every
  argument is passed explicitly.
- Curves.LightCurve.IgnoreNoisy: the copy shares the comparison star
  sequences, which are values here. The source's deep copy is not
  distinguishable in the model.

## Findings

| source | as written | input that shows it | evidently intended | confidence | as-written member | corrected member |
|---|---|---|---|---|---|---|
| database.py:299-301 | `func(magnitudes[npoints:]) - func(magnitudes[:npoints])`: the "peak" is every magnitude but the lowest `npoints` | magnitudes 1, 2, 3, 5, 8 with `npoints = 1`, `median = True`: the code gives 3 | the statistic of the highest `npoints` minus that of the lowest `npoints` (peak to trough, 7 on that input) | not executed | Curves.AmplitudeOf, Curves.AmplitudeAsWrittenExample | Curves.AmplitudeIntended, Curves.AmplitudeIntendedExample, Curves.IntendedPeakToTrough |
