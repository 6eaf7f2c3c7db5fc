/**
 * The slice of the live-map page `src/pages/location.tsx` that decides
 * something: where the patient marker falls back to when no location has
 * been reported, how often the page polls for the patient's location, and
 * which position the map is centred on.
 *
 * Coordinates come from `Number(...)` on database values, so each one is a
 * `Num` that may be NaN. The Haversine distance is an input.
 */
module LocationPage {
  import opened Js

  datatype LatLng = LatLng(lat: Num, lng: Num)

  const Origin := LatLng(Real(0.0), Real(0.0))

  /** The fast cadence, in milliseconds. */
  const FastPoll := 3000
  /** The slow cadence the page means to use while the patient is inside the safezone. */
  const SlowPoll := 30000

  /** `lat !== 0`: true for NaN and for every non-zero number. */
  predicate IsSet(lat: Num) {
    lat != Real(0.0)
  }

  /** What the location query of `onGetLocation` produced. */
  datatype LocationFetch =
    | Failed           // the request threw
    | NoData           // the response carried no `data`
    | Found(pos: LatLng)

  /**
   * The `center` memo: the viewer's own position when known, else the
   * patient's position when its latitude is set, else the safezone centre.
   */
  function CenterOf(myPos: Option<LatLng>, patientPos: LatLng, safezonePos: LatLng): (c: LatLng)
    ensures myPos.Some? ==> c == myPos.value
    ensures myPos.None? ==> (c == patientPos <==> IsSet(patientPos.lat) || patientPos == safezonePos)
    ensures c == safezonePos || c == patientPos || Some(c) == myPos
  {
    if myPos.Some? then myPos.value
    else if IsSet(patientPos.lat) then patientPos
    else safezonePos
  }

  /**
   * A patient reported exactly on the equator is never centred: the map
   * shows the safezone centre instead, whatever the longitude.
   */
  lemma EquatorPatientNotCentered(lng: Num, safezonePos: LatLng)
    ensures CenterOf(None, LatLng(Real(0.0), lng), safezonePos) == safezonePos
  {
  }

  /** The patient is confirmed inside: both latitudes set and the distance a number within the inner radius. */
  predicate ConfirmedInside(safezonePos: LatLng, patientPos: LatLng, range1: real, dist: Num) {
    IsSet(safezonePos.lat) && IsSet(patientPos.lat) && dist.Real? && dist.x <= range1
  }

  /** An input for which the slow cadence is meant: the patient at the safezone centre. */
  lemma InsideIsReachable()
    ensures ConfirmedInside(LatLng(Real(13.75), Real(100.5)), LatLng(Real(13.75), Real(100.5)), 10.0, Real(0.0))
  {
  }

  /** The page's state that the modelled handlers read and write. */
  class LocationView {
    var safezonePos: LatLng
    var patientPos: LatLng
    var myPos: Option<LatLng>
    var range1: real
    var range2: real
    var loading: bool

    /** The initial `useState` values. */
    constructor()
      ensures safezonePos == Origin && patientPos == Origin && myPos.None?
      ensures range1 == 10.0 && range2 == 20.0 && loading
    {
      safezonePos := Origin;
      patientPos := Origin;
      myPos := None;
      range1 := 10.0;
      range2 := 20.0;
      loading := true;
    }

    /**
     * `onGetLocation`: a reported location moves the patient marker; a
     * response without data puts it on the given safezone's centre; a failed
     * request leaves it. Loading ends in every case.
     */
    method OnGetLocation(safezone: LatLng, fetch: LocationFetch)
      modifies this
      ensures fetch.Found? ==> patientPos == fetch.pos
      ensures fetch.NoData? ==> patientPos == safezone
      ensures fetch.Failed? ==> patientPos == old(patientPos)
      ensures !loading
      ensures safezonePos == old(safezonePos) && myPos == old(myPos)
      ensures range1 == old(range1) && range2 == old(range2)
    {
      match fetch {
        case Found(pos) =>
          patientPos := pos;
        case NoData =>
          patientPos := safezone;
        case Failed =>
      }
      loading := false;
    }

    /**
     * `onGetSafezone` when the safezone query returns a row: it stores the
     * centre and both radii, then runs `onGetLocation` with the same row.
     * Without a row nothing changes; a thrown error only ends loading.
     * The call of `onGetLocation` is not awaited in the page; here it runs to
     * completion inside this method.
     */
    method OnGetSafezone(zone: Option<(LatLng, real, real)>, failed: bool, fetch: LocationFetch)
      modifies this
      ensures failed ==> patientPos == old(patientPos) && safezonePos == old(safezonePos) && !loading
      ensures failed ==> range1 == old(range1) && range2 == old(range2)
      ensures !failed && zone.None? ==> patientPos == old(patientPos) && safezonePos == old(safezonePos) && loading == old(loading)
      ensures !failed && zone.None? ==> range1 == old(range1) && range2 == old(range2)
      ensures !failed && zone.Some? ==> safezonePos == zone.value.0 && range1 == zone.value.1 && range2 == zone.value.2 && !loading
      ensures !failed && zone.Some? && fetch.Found? ==> patientPos == fetch.pos
      ensures !failed && zone.Some? && fetch.Failed? ==> patientPos == old(patientPos)
      ensures !failed && zone.Some? && fetch.NoData? ==> patientPos == safezonePos
      ensures !failed && zone.Some? && fetch.NoData? && myPos.None? ==> CenterOf(myPos, patientPos, safezonePos) == safezonePos
      ensures myPos == old(myPos)
    {
      if failed {
        loading := false;
        return;
      }
      if zone.Some? {
        var (centre, r1, r2) := zone.value;
        safezonePos := centre;
        range1 := r1;
        range2 := r2;
        OnGetLocation(centre, fetch);
      }
    }

    /**
     * The interval choice of the polling effect, as written: it starts at the
     * fast cadence, and neither branch of the distance test changes it, so
     * the page polls every 3 seconds whatever the distance.
     */
    method PollInterval(dist: Num) returns (interval: int)
      ensures interval == FastPoll
    {
      interval := FastPoll;
      if IsSet(safezonePos.lat) && IsSet(patientPos.lat) {
        if dist.Real? && dist.x <= range1 {
        } else {
          interval := FastPoll;
        }
      }
    }

    /**
     * The interval choice the comments of the effect describe: slow only when
     * the patient is confirmed inside the inner radius, fast otherwise.
     */
    method IntendedPollInterval(dist: Num) returns (interval: int)
      ensures interval == SlowPoll <==> ConfirmedInside(safezonePos, patientPos, range1, dist)
      ensures interval == FastPoll <==> !ConfirmedInside(safezonePos, patientPos, range1, dist)
    {
      interval := FastPoll;
      if IsSet(safezonePos.lat) && IsSet(patientPos.lat) {
        if dist.Real? && dist.x <= range1 {
          interval := SlowPoll;
        } else {
          interval := FastPoll;
        }
      }
    }
  }
}
