/** The part of the distance lookup that does not talk to the network: how
    the directions service's answer becomes a distance in kilometres. */
module Directions {
  import opened Numbers

  /** One leg of a route; `distance` is in metres. */
  datatype Leg = Leg(distance: real)

  datatype DirectionsRoute = DirectionsRoute(legs: seq<Leg>)

  /** The outcome of one call to the directions service: an answer whose
      `routes` field may be absent, or a failed call (network, key, rate
      limit). */
  datatype Response = Answered(routes: Option<seq<DirectionsRoute>>) | CallFailed

  /** The distance the lookup returns: the first leg of the first route,
      converted from metres to kilometres, or `None` (null) when the call
      failed, the route list is absent or empty, or the first route has no
      leg (reading `legs[0].distance` then throws, and the lookup's own catch
      turns that into null). */
  function ResolveDistance(response: Response): (d: Option<real>)
    ensures d.Some? <==>
      && response.Answered?
      && response.routes.Some?
      && |response.routes.value| > 0
      && |response.routes.value[0].legs| > 0
    ensures d.Some? ==> d.value * 1000.0 == response.routes.value[0].legs[0].distance
  {
    match response
    case CallFailed => None
    case Answered(routes) =>
      if routes.None? || |routes.value| == 0 then None
      else if |routes.value[0].legs| == 0 then None
      else Some(routes.value[0].legs[0].distance / 1000.0)
  }

  /** `!distance` is false: the lookup gave a number and it is not zero. */
  predicate Usable(d: Option<real>) {
    d.Some? && d.value != 0.0
  }

  /** `!distance` for a lookup result: null and zero are falsy, like NaN,
      so a distance is usable exactly when it is truthy. */
  lemma UsableMeansTruthy(d: Option<real>)
    ensures Usable(d) <==> Truthy(FieldValue(d))
  {
  }

  /** Only the first leg of the first route is consulted: alternative
      routes and further legs never change the distance. */
  lemma FirstLegOnly(leg: Leg, otherLegs: seq<Leg>, otherLegs': seq<Leg>,
                     alternatives: seq<DirectionsRoute>, alternatives': seq<DirectionsRoute>)
    ensures ResolveDistance(Answered(Some([DirectionsRoute([leg] + otherLegs)] + alternatives)))
         == ResolveDistance(Answered(Some([DirectionsRoute([leg] + otherLegs')] + alternatives')))
         == Some(leg.distance / 1000.0)
  {
  }

  /** A zero-length first leg (start and end at the same point) gives the
      distance 0, which the callers treat like a failed lookup. */
  lemma ZeroLegIsUnusable(otherLegs: seq<Leg>, alternatives: seq<DirectionsRoute>)
    ensures !Usable(ResolveDistance(Answered(Some([DirectionsRoute([Leg(0.0)] + otherLegs)] + alternatives))))
  {
  }
}
