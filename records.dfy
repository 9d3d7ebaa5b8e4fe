/** Value types of the LEMON database (database.py): the records a caller
    hands to LEMONdB and gets back, the rows of its tables, and the error
    kinds its operations raise. */
module Records {

  datatype Option<+T> = None | Some(value: T)

  datatype Result<+T, +E> = Success(value: T) | Failure(error: E)

  /** The result of a write that returns nothing on success. */
  datatype Outcome<+E> = Pass | Fail(error: E)

  /** One photometric record or light-curve point: (Unix time, magnitude, SNR). */
  datatype Point = Point(time: real, mag: real, snr: real)

  /** A photometric filter. The `passband` module is not part of this model,
      so a filter is just its wavelength (the table's key) and its name. */
  datatype Passband = Passband(wavelength: int, name: string)

  /** PhotometricParameters (database.py:189-194). */
  datatype PhotometricParameters = PhotometricParameters(aperture: int, annulus: int, dannulus: int)

  /** A row of `stars`: image and celestial coordinates and the instrumental magnitude. */
  datatype StarRow = StarRow(x: real, y: real, ra: real, dec: real, imag: real)

  /** ReferenceImage (database.py:197-204). */
  datatype ReferenceImage = ReferenceImage(path: string, pfilter: Passband, unixTime: real,
                                           airmass: real, gain: real)

  /** Image (database.py:207-216). */
  datatype Image = Image(path: string, pfilter: Passband, pparams: PhotometricParameters,
                         unixTime: real, airmass: real, gain: real,
                         xoffset: real, yoffset: real, xoverlap: int, yoverlap: int)

  /** A row of `rimage`; the filter is stored by wavelength. */
  datatype RImageRow = RImageRow(path: string, wavelength: int, unixTime: real, airmass: real, gain: real)

  /** A row of `images` without its key (the Unix time). */
  datatype ImageRow = ImageRow(path: string, wavelength: int, pparamsId: int, airmass: real, gain: real,
                               xoffset: real, xoverlap: int, yoffset: real, yoverlap: int)

  /** Magnitude and SNR of a row of `photometry` or `light_curves`, whose key is (star ID, Unix time). */
  datatype Measurement = Measurement(mag: real, snr: real)

  /** A row of `cmp_stars`: star `cstar` was used, with this weight, as a
      comparison star for the light curve of `star` in a filter. */
  datatype CmpRow = CmpRow(star: int, wavelength: int, cstar: int, weight: real)

  /** A row of `periods` without its key (star ID, wavelength). */
  datatype PeriodRow = PeriodRow(step: real, period: real)

  /** The exceptions LEMONdB raises. */
  datatype DbError =
    | NotFound               // KeyError
    | DuplicateStar          // DuplicateStarError
    | DuplicateImage         // DuplicateImageError
    | UnknownStar(id: int)   // UnknownStarError, naming the ID its message names
    | UnknownImage(time: real)
    | DuplicatePhotometry
    | DuplicateCurvePoint    // DuplicateLightCurvePointError
    | DuplicatePeriod
    | SelfComparison(id: int)  // the ValueError of _add_cmp_star
    | IntegrityError         // a bare sqlite3.IntegrityError
    | AssertionFailed        // a failing `assert` statement of the source
    | ZeroDivision           // ZeroDivisionError
}
