/**
  The geotag written into a saved photo: `convertToDMS` and the four GPS
  attributes `setExifLocation` sets. Coordinates are exact reals; the Java
  code computes the same quantities in `double`.
 */
module Exif {
  import opened Wrappers
  import opened Strings

  /** Degrees, minutes and seconds of the magnitude of a coordinate. */
  datatype Dms = Dms(degrees: nat, minutes: nat, seconds: nat)

  function Abs(x: real): (r: real)
    ensures r >= 0.0 && (r == x || r == -x)
  {
    if x < 0.0 then -x else x
  }

  /** The angle the three fields denote: d + m/60 + s/3600. */
  function Angle(d: Dms): real {
    d.degrees as real + d.minutes as real / 60.0 + d.seconds as real / 3600.0
  }

  /**
    `convertToDMS`: the magnitude is truncated to whole degrees, then to
    whole minutes of the remainder, then to whole seconds of what is left,
    so the fields denote the magnitude rounded down to a whole second.
   */
  function ConvertToDms(coordinate: real): (r: Dms)
    ensures r.degrees == Abs(coordinate).Floor
    ensures r.minutes < 60 && r.seconds < 60
    ensures Angle(r) <= Abs(coordinate) < Angle(r) + 1.0 / 3600.0
  {
    var a := Abs(coordinate);
    var degrees := a.Floor;
    var minutes := (a - degrees as real) * 60.0;
    var seconds := ((minutes - minutes.Floor as real) * 60.0).Floor;
    assert 0 <= minutes.Floor < 60;
    assert 0 <= seconds < 60;
    var r := Dms(degrees, minutes.Floor, seconds);
    assert a == degrees as real + minutes.Floor as real / 60.0
                + (minutes - minutes.Floor as real) * 60.0 / 3600.0;
    r
  }

  /** One EXIF rational with denominator 1: "n/1". */
  function RationalText(n: nat): (t: string)
    ensures EndsWith(t, "/1")
    ensures ParseNatPrefix(t) == Some((n, "/1"))
  {
    ParseNatPrefixOfNatToString(n, "/1");
    NatToString(n) + "/1"
  }

  /** Reads "n/1" followed by `separator` at the start of `s`; returns `n` and the rest. */
  function ParseRational(s: string, separator: string): Option<(nat, string)> {
    match ParseNatPrefix(s)
    case None => None
    case Some((n, rest)) =>
      if StartsWith(rest, "/1" + separator) then Some((n, rest[|separator| + 2..])) else None
  }

  /** A reader of the GPS latitude/longitude attribute: three "n/1" rationals separated by commas. */
  function ParseDms(s: string): Option<Dms> {
    match ParseRational(s, ",")
    case None => None
    case Some((d, r1)) =>
      match ParseRational(r1, ",")
      case None => None
      case Some((m, r2)) =>
        match ParseRational(r2, "")
        case None => None
        case Some((sec, r3)) => if r3 == [] then Some(Dms(d, m, sec)) else None
  }

  lemma ParseRationalOfText(n: nat, separator: string, rest: string)
    ensures ParseRational(RationalText(n) + separator + rest, separator) == Some((n, rest))
  {
    var t := "/1" + separator + rest;
    assert RationalText(n) + separator + rest == NatToString(n) + t;
    ParseNatPrefixOfNatToString(n, t);
    assert StartsWith(t, "/1" + separator);
    assert t[|separator| + 2..] == rest;
  }

  /** Three rationals joined by commas read back as the three numbers. */
  lemma ParseDmsOfRationals(d: Dms)
    ensures ParseDms(RationalText(d.degrees) + "," + (RationalText(d.minutes) + "," + RationalText(d.seconds))) == Some(d)
  {
    var a, b, c := RationalText(d.degrees), RationalText(d.minutes), RationalText(d.seconds);
    ParseRationalOfText(d.degrees, ",", b + "," + c);
    ParseRationalOfText(d.minutes, ",", c);
    assert c == c + "" + [];
    ParseRationalOfText(d.seconds, "", []);
    ParseDmsOfParts(a, b, c, d);
  }

  lemma ParseDmsOfParts(a: string, b: string, c: string, d: Dms)
    requires ParseRational(a + "," + (b + "," + c), ",") == Some((d.degrees, b + "," + c))
    requires ParseRational(b + "," + c, ",") == Some((d.minutes, c))
    requires ParseRational(c, "") == Some((d.seconds, []))
    ensures ParseDms(a + "," + (b + "," + c)) == Some(d)
  {
  }

  /** The attribute text `convertToDMS` returns, "d/1,m/1,s/1"; it reads back as the fields it was written from. */
  function DmsText(d: Dms): (t: string)
    ensures ParseDms(t) == Some(d)
  {
    ParseDmsOfRationals(d);
    RationalText(d.degrees) + "," + (RationalText(d.minutes) + "," + RationalText(d.seconds))
  }

  /** The four GPS attributes `setExifLocation` writes. */
  datatype GeoTag = GeoTag(latitude: string, latitudeRef: string, longitude: string, longitudeRef: string)

  /** `setExifLocation`: magnitudes as DMS text, hemispheres from the signs. */
  function GeoTagOf(latitude: real, longitude: real): (t: GeoTag)
    ensures t.latitudeRef == "N" <==> latitude >= 0.0
    ensures t.latitudeRef == "S" <==> latitude < 0.0
    ensures t.longitudeRef == "E" <==> longitude >= 0.0
    ensures t.longitudeRef == "W" <==> longitude < 0.0
  {
    GeoTag(DmsText(ConvertToDms(latitude)), if latitude >= 0.0 then "N" else "S",
           DmsText(ConvertToDms(longitude)), if longitude >= 0.0 then "E" else "W")
  }

  /** How a reader turns a magnitude attribute and its reference back into a signed coordinate. */
  function DecodeCoordinate(text: string, ref: string, positive: string, negative: string): Option<real> {
    match ParseDms(text)
    case None => None
    case Some(d) =>
      if ref == positive then Some(Angle(d))
      else if ref == negative then Some(-Angle(d))
      else None
  }

  /** `v` is a decoded coordinate within one arcsecond of `c` and on the same side of zero. */
  predicate Recovers(v: Option<real>, c: real) {
    v.Some? && Abs(v.value - c) < 1.0 / 3600.0 && (v.value < 0.0 ==> c < 0.0) && (c < 0.0 ==> v.value <= 0.0)
  }

  lemma DecodeWithinOneSecond(c: real, ref: string, positive: string, negative: string)
    requires positive != negative
    requires ref == if c >= 0.0 then positive else negative
    ensures Recovers(DecodeCoordinate(DmsText(ConvertToDms(c)), ref, positive, negative), c)
  {
    var d := ConvertToDms(c);
    DecodeOfParsed(DmsText(d), ref, positive, negative, d);
    SignedWithinOneSecond(c, Angle(d));
  }

  lemma DecodeOfParsed(text: string, ref: string, positive: string, negative: string, d: Dms)
    requires ParseDms(text) == Some(d)
    ensures DecodeCoordinate(text, ref, positive, negative) ==
            if ref == positive then Some(Angle(d)) else if ref == negative then Some(-Angle(d)) else None
  {
  }

  /** A magnitude a second below |c| at most, given the sign of `c`, lies within a second of `c` and on its side of zero. */
  lemma SignedWithinOneSecond(c: real, a: real)
    requires 0.0 <= a <= Abs(c) < a + 1.0 / 3600.0
    ensures Recovers(Some(if c >= 0.0 then a else -a), c)
  {
  }

  /** The geotag decodes to both coordinates to within one arcsecond, on the right side of the equator and meridian. */
  lemma GeoTagRecoversCoordinates(latitude: real, longitude: real)
    ensures var t := GeoTagOf(latitude, longitude);
            Recovers(DecodeCoordinate(t.latitude, t.latitudeRef, "N", "S"), latitude) &&
            Recovers(DecodeCoordinate(t.longitude, t.longitudeRef, "E", "W"), longitude)
  {
    var t := GeoTagOf(latitude, longitude);
    DecodeWithinOneSecond(latitude, t.latitudeRef, "N", "S");
    DecodeWithinOneSecond(longitude, t.longitudeRef, "E", "W");
  }
}
