/** The five kinds of POI (PoiType): each constant's name, title, image and factory. */
module PoiTypes {
  import opened Wrappers
  import opened Numbers
  import opened Reports

  datatype PoiType = FixedSpeedCam | MobileSpeedCam | Accident | Roadworks | Miscellaneous

  /** The reports the current code handles. */
  type Poi = Report<PoiType>

  /** The constants in declaration order. */
  const AllTypes: seq<PoiType> := [FixedSpeedCam, MobileSpeedCam, Accident, Roadworks, Miscellaneous]

  /** Enum.name(): the identifier the protocol and the save file carry. */
  function Name(t: PoiType): string {
    match t
    case FixedSpeedCam => "FIXED_SPEED_CAM"
    case MobileSpeedCam => "MOBILE_SPEED_CAM"
    case Accident => "ACCIDENT"
    case Roadworks => "ROADWORKS"
    case Miscellaneous => "MISCELLANEOUS"
  }

  /** toString(): the constant's title. */
  function Title(t: PoiType): string {
    match t
    case FixedSpeedCam => "Fixed speed cam"
    case MobileSpeedCam => "Mobile"
    case Accident => "Accident"
    case Roadworks => "Roadworks"
    case Miscellaneous => "Miscellaneous"
  }

  /** getImageName(): the image file given to the constant. */
  function ImageName(t: PoiType): string {
    match t
    case FixedSpeedCam => "fixed_speed_cam.png"
    case MobileSpeedCam => "mobile_speed_cam.png"
    case Accident => "accident.png"
    case Roadworks => "roadworks.png"
    case Miscellaneous => "miscellaneous.png"
  }

  /** Enum.valueOf: the constant with that exact name; None where it throws IllegalArgumentException. */
  function ValueOf(s: string): (r: Option<PoiType>)
    ensures r.Some? ==> Name(r.value) == s
  {
    if s == "FIXED_SPEED_CAM" then Some(FixedSpeedCam)
    else if s == "MOBILE_SPEED_CAM" then Some(MobileSpeedCam)
    else if s == "ACCIDENT" then Some(Accident)
    else if s == "ROADWORKS" then Some(Roadworks)
    else if s == "MISCELLANEOUS" then Some(Miscellaneous)
    else None
  }

  /** valueOf accepts exactly the five names, and gives back the constant that bears it. */
  lemma ValueOfName(t: PoiType, s: string)
    ensures ValueOf(s) == Some(t) <==> s == Name(t)
  {
  }

  /** Titles and image names identify the constant: no two constants share one. */
  lemma TitlesAndImagesDistinct(t: PoiType, u: PoiType)
    ensures Title(t) == Title(u) ==> t == u
    ensures ImageName(t) == ImageName(u) ==> t == u
  {
  }

  /** Every image name is a PNG file name. */
  lemma ImagesArePng(t: PoiType)
    ensures |ImageName(t)| > 4 && ImageName(t)[|ImageName(t)| - 4..] == ".png"
  {
  }

  /** constructPOI: a new report of this type at the given place and date, with both counters at zero. */
  function ConstructPoi(t: PoiType, lat: real, lon: real, date: int): (p: Poi)
    ensures p.kind == t && p.lat == lat && p.lon == lon && p.date == date
    ensures p.confirmations == 0 && p.refutations == 0
  {
    Report(lat, lon, t, date, 0, 0)
  }

  /** The factory the client's decoder calls: a report carrying the confirmation count the server sent. */
  function ConstructConfirmedPoi(t: PoiType, lat: real, lon: real, date: int, confirmations: int32): (p: Poi)
    ensures p == ConstructPoi(t, lat, lon, date).(confirmations := confirmations)
  {
    Report(lat, lon, t, date, confirmations, 0)
  }
}

/** The legacy POIType enum: the same five constants, whose factory is a switch. */
module LegacyPoiTypes {
  import opened Reports
  import PoiTypes

  datatype POIType = FixedSpeedCam | MobileSpeedCam | Accident | Roadworks | Miscellaneous

  function Title(t: POIType): string {
    match t
    case FixedSpeedCam => "Fixed speed cam"
    case MobileSpeedCam => "Mobile"
    case Accident => "Accident"
    case Roadworks => "Roadworks"
    case Miscellaneous => "Miscellaneous"
  }

  function ImageName(t: POIType): string {
    match t
    case FixedSpeedCam => "fixed_speed_cam.png"
    case MobileSpeedCam => "mobile_speed_cam.png"
    case Accident => "accident.png"
    case Roadworks => "roadworks.png"
    case Miscellaneous => "miscellaneous.png"
  }

  /**
   * constructPOI: the switch has a case for every constant, so its default branch (which
   * throws) is never taken and every constant yields a report of its own type.
   */
  function ConstructPOI(t: POIType, x: real, y: real, date: int): (p: Report<POIType>)
    ensures p.kind == t && p.lat == x && p.lon == y && p.date == date
    ensures p.confirmations == 0 && p.refutations == 0
  {
    match t
    case Accident => Report(x, y, Accident, date, 0, 0)
    case Miscellaneous => Report(x, y, Miscellaneous, date, 0, 0)
    case FixedSpeedCam => Report(x, y, FixedSpeedCam, date, 0, 0)
    case MobileSpeedCam => Report(x, y, MobileSpeedCam, date, 0, 0)
    case Roadworks => Report(x, y, Roadworks, date, 0, 0)
  }

  /** The legacy titles and images are those of the current enum, constant for constant. */
  lemma SameAsPoiType(t: POIType)
    ensures Title(t) == PoiTypes.Title(Current(t))
    ensures ImageName(t) == PoiTypes.ImageName(Current(t))
  {
  }

  function Current(t: POIType): PoiTypes.PoiType {
    match t
    case FixedSpeedCam => PoiTypes.FixedSpeedCam
    case MobileSpeedCam => PoiTypes.MobileSpeedCam
    case Accident => PoiTypes.Accident
    case Roadworks => PoiTypes.Roadworks
    case Miscellaneous => PoiTypes.Miscellaneous
  }
}

/** The legacy EventType enum the old protocol and the sorted-set server use. */
module EventTypes {
  import opened Wrappers

  datatype EventType = RadarFixe | RadarMobile | Accident | Travaux | Divers

  function Name(t: EventType): string {
    match t
    case RadarFixe => "RADAR_FIXE"
    case RadarMobile => "RADAR_MOBILE"
    case Accident => "ACCIDENT"
    case Travaux => "TRAVAUX"
    case Divers => "DIVERS"
  }

  function ImageName(t: EventType): string {
    match t
    case RadarFixe => "radar_fixe.png"
    case RadarMobile => "radar_mobile.png"
    case Accident => "accident.png"
    case Travaux => "travaux.png"
    case Divers => "divers.png"
  }

  function ValueOf(s: string): (r: Option<EventType>)
    ensures r.Some? ==> Name(r.value) == s
  {
    if s == "RADAR_FIXE" then Some(RadarFixe)
    else if s == "RADAR_MOBILE" then Some(RadarMobile)
    else if s == "ACCIDENT" then Some(Accident)
    else if s == "TRAVAUX" then Some(Travaux)
    else if s == "DIVERS" then Some(Divers)
    else None
  }

  lemma ValueOfName(t: EventType, s: string)
    ensures ValueOf(s) == Some(t) <==> s == Name(t)
  {
  }
}
