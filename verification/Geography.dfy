/** Places and distances. The great-circle formula itself is not modelled: a distance is any
    non-negative function of two places. */
module Geography {
  datatype Coordinate = Coordinate(lat: real, lng: real)

  type Distance = d: (Coordinate, Coordinate) -> real | forall a, b :: d(a, b) >= 0.0
    witness (a: Coordinate, b: Coordinate) => 0.0
}
