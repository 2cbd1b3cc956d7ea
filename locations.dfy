/**
 * Locations. The source's Location classes are not part of this model: a
 * location is an identifier, and the travel time between two locations at a
 * given speed is a function that comes with the problem instance.
 */
module Locations {

  type Location = nat

  /** Travel time (whole time units) from a departure to a destination at a speed. */
  type TravelTime = (Location, Location, real) -> nat
}
