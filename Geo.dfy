/** The geofence: whether a reported position lies within a work location's
    allowed radius (`validateLocation`, `canCheckInFromLocation`). */
module Geo {
  import opened Wrappers

  /** Great-circle distance in whole metres between (lat1, lon1) and (lat2, lon2).
      The haversine formula is floating-point trigonometry, so the model takes
      the distance function as a parameter. */
  type Metric = (real, real, real, real) -> nat

  /** A work location as the caller passes it, or as a record stores it.
      `allowedRadius` is `None` when the field is absent. */
  datatype WorkLocation = WorkLocation(name: string, latitude: real, longitude: real, allowedRadius: Option<int>)

  /** Why a location was accepted or refused; the last case is the fixed
      answer given when no geofence applies (any mode but office). */
  datatype Reason =
    | LocationNotProvided
    | LocationValidated
    | OutsideRadius(distance: nat, place: string, radius: int)
    | LocationNotRequired

  /** `{ valid, distance, allowedRadius, reason }`; absent fields are `None`. */
  datatype Validation = Validation(valid: bool, distance: Option<nat>, allowedRadius: Option<int>, reason: Reason)

  const DefaultRadius := 100

  /** JavaScript truthiness of a reported coordinate: missing and 0 are falsy. */
  predicate Reported(c: Option<real>) {
    c.Some? && c.value != 0.0
  }

  /** `allowedRadius || 100`: a missing or zero radius stands for 100 metres. */
  function EffectiveRadius(radius: Option<int>): (r: int)
    ensures r != 0
    ensures radius.Some? && radius.value != 0 ==> r == radius.value
    ensures radius.None? || radius.value == 0 ==> r == DefaultRadius
  {
    if radius.Some? && radius.value != 0 then radius.value else DefaultRadius
  }

  /** The answer when no geofence applies. */
  const NotRequired := Validation(true, None, None, LocationNotRequired)

  /** Checks a reported position against a work location. */
  function ValidateLocation(latitude: Option<real>, longitude: Option<real>, site: WorkLocation, distance: Metric): (v: Validation)
    ensures !Reported(latitude) || !Reported(longitude) ==>
              v == Validation(false, None, None, LocationNotProvided)
    ensures Reported(latitude) && Reported(longitude) ==>
              var d := distance(latitude.value, longitude.value, site.latitude, site.longitude);
              v.distance == Some(d) &&
              v.allowedRadius == Some(EffectiveRadius(site.allowedRadius)) &&
              (v.valid <==> d <= EffectiveRadius(site.allowedRadius))
    ensures v.valid <==> v.reason == LocationValidated
    ensures v.valid ==> v.distance.Some? && v.allowedRadius.Some? && v.distance.value <= v.allowedRadius.value
    ensures !v.valid ==> v.reason.LocationNotProvided? || v.reason == OutsideRadius(v.distance.value, site.name, v.allowedRadius.value)
  {
    if !Reported(latitude) || !Reported(longitude) then
      Validation(false, None, None, LocationNotProvided)
    else
      var d := distance(latitude.value, longitude.value, site.latitude, site.longitude);
      var radius := EffectiveRadius(site.allowedRadius);
      var valid := d <= radius;
      Validation(valid, Some(d), Some(radius), if valid then LocationValidated else OutsideRadius(d, site.name, radius))
  }

  /** `canCheckInFromLocation`: the same decision, asked before a check-in. */
  function CanCheckInFromLocation(latitude: Option<real>, longitude: Option<real>, site: WorkLocation, distance: Metric): (v: Validation)
    ensures v.valid <==>
              Reported(latitude) && Reported(longitude) &&
              distance(latitude.value, longitude.value, site.latitude, site.longitude) <= EffectiveRadius(site.allowedRadius)
  {
    ValidateLocation(latitude, longitude, site, distance)
  }

  /** Widening the allowed radius never turns an accepted position into a refused one. */
  lemma WiderRadiusKeepsValid(latitude: Option<real>, longitude: Option<real>, site: WorkLocation, wider: int, distance: Metric)
    requires EffectiveRadius(site.allowedRadius) <= wider
    requires ValidateLocation(latitude, longitude, site, distance).valid
    ensures ValidateLocation(latitude, longitude, site.(allowedRadius := Some(wider)), distance).valid
  {
  }

  /** With the default radius, 100 metres is accepted and 101 refused. */
  lemma DefaultRadiusBoundary(latitude: real, longitude: real, site: WorkLocation, distance: Metric)
    requires latitude != 0.0 && longitude != 0.0
    requires site.allowedRadius.None?
    ensures distance(latitude, longitude, site.latitude, site.longitude) == 100 ==>
              ValidateLocation(Some(latitude), Some(longitude), site, distance).valid
    ensures distance(latitude, longitude, site.latitude, site.longitude) == 101 ==>
              !ValidateLocation(Some(latitude), Some(longitude), site, distance).valid
  {
  }
}
