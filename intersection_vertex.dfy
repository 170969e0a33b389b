/** IntersectionVertex: an ordinary street location, its free-flow inference and the
    level-of-traffic-stress (LTS) gate on its edges. */
module Intersections {

  /** Java `byte`. */
  type Byte = b: int | -128 <= b <= 127

  /** What the StreetVertex superclass holds and this class reads: the edges leading from
      and to the vertex and the degrees it reports. */
  datatype Adjacency<E> = Adjacency(outgoing: seq<E>, incoming: seq<E>, degreeIn: nat, degreeOut: nat)

  datatype IntersectionVertex<E> = IntersectionVertex(
    vertexLabel: string,
    name: string,
    x: real,
    y: real,
    adjacency: Adjacency<E>,
    trafficLight: bool,
    freeFlowing: bool,
    ltsScore: Byte)

  /** The two fields of RoutingRequest that the gate reads. */
  datatype RoutingRequest = RoutingRequest(intersectionLTS: bool, maxLTS: int)

  /** The five-argument constructor: no traffic light, not marked free-flowing, LTS score 0
      (undefined). The superclass part is given as it was set up. */
  function NewIntersectionVertex<E>(vertexLabel: string, x: real, y: real, name: string,
                                    adjacency: Adjacency<E>): (v: IntersectionVertex<E>)
    ensures v.vertexLabel == vertexLabel && v.name == name && v.x == x && v.y == y && v.adjacency == adjacency
    ensures !v.trafficLight && !v.freeFlowing && v.ltsScore == 0
  {
    IntersectionVertex(vertexLabel, name, x, y, adjacency, false, false, 0)
  }

  /** The four-argument constructor: the label doubles as the name. */
  function NewUnnamedIntersectionVertex<E>(vertexLabel: string, x: real, y: real,
                                           adjacency: Adjacency<E>): (v: IntersectionVertex<E>)
    ensures v.vertexLabel == vertexLabel && v.name == vertexLabel && v.x == x && v.y == y && v.adjacency == adjacency
    ensures !v.trafficLight && !v.freeFlowing && v.ltsScore == 0
  {
    NewIntersectionVertex(vertexLabel, x, y, vertexLabel, adjacency)
  }

  /** inferredFreeFlowing(): marked free-flowing, or one edge in, one edge out and no light. */
  function InferredFreeFlowing<E>(v: IntersectionVertex<E>): (r: bool)
    ensures v.freeFlowing ==> r
    ensures !v.freeFlowing ==> (r <==> v.adjacency.degreeIn == 1 && v.adjacency.degreeOut == 1 && !v.trafficLight)
  {
    if v.freeFlowing then true
    else v.adjacency.degreeIn == 1 && v.adjacency.degreeOut == 1 && !v.trafficLight
  }

  /** A traffic light or a degree other than one rules inference out: only the flag is left. */
  lemma InferredFreeFlowingNeedsFlag<E>(v: IntersectionVertex<E>)
    requires v.trafficLight || v.adjacency.degreeIn != 1 || v.adjacency.degreeOut != 1
    ensures InferredFreeFlowing(v) <==> v.freeFlowing
  {
  }

  /** A freshly built vertex is inferred free-flowing exactly when it has one edge in and
      one edge out. */
  lemma NewVertexFreeFlowing<E>(vertexLabel: string, x: real, y: real, name: string, adjacency: Adjacency<E>)
    ensures InferredFreeFlowing(NewIntersectionVertex(vertexLabel, x, y, name, adjacency))
        <==> adjacency.degreeIn == 1 && adjacency.degreeOut == 1
  {
  }

  /** The traversability test of both getters: LTS routing is off, or the score is within
      the request's maximum. */
  predicate Traversable<E>(v: IntersectionVertex<E>, options: RoutingRequest) {
    !options.intersectionLTS || (options.intersectionLTS && v.ltsScore <= options.maxLTS)
  }

  /** getOutgoing(options): all outgoing edges of a traversable vertex, none otherwise. */
  function GetOutgoing<E>(v: IntersectionVertex<E>, options: RoutingRequest): (r: seq<E>)
    ensures Traversable(v, options) ==> r == v.adjacency.outgoing
    ensures !Traversable(v, options) ==> r == []
    ensures !options.intersectionLTS ==> r == v.adjacency.outgoing
    ensures options.intersectionLTS && v.ltsScore > options.maxLTS ==> r == []
  {
    if Traversable(v, options) then v.adjacency.outgoing else []
  }

  /** getIncoming(options): all incoming edges of a traversable vertex, none otherwise. */
  function GetIncoming<E>(v: IntersectionVertex<E>, options: RoutingRequest): (r: seq<E>)
    ensures Traversable(v, options) ==> r == v.adjacency.incoming
    ensures !Traversable(v, options) ==> r == []
    ensures !options.intersectionLTS ==> r == v.adjacency.incoming
    ensures options.intersectionLTS && v.ltsScore > options.maxLTS ==> r == []
  {
    if Traversable(v, options) then v.adjacency.incoming else []
  }

  /** The gate is all or nothing: never a proper, non-empty part of the edges. */
  lemma GateAllOrNothing<E>(v: IntersectionVertex<E>, options: RoutingRequest)
    ensures GetOutgoing(v, options) == v.adjacency.outgoing || GetOutgoing(v, options) == []
    ensures GetIncoming(v, options) == v.adjacency.incoming || GetIncoming(v, options) == []
    ensures forall e :: e in GetOutgoing(v, options) ==> e in v.adjacency.outgoing
    ensures forall e :: e in GetIncoming(v, options) ==> e in v.adjacency.incoming
  {
  }

  /** Both directions are gated together: a vertex that hides one kind of edge hides both. */
  lemma GateSameBothWays<E>(v: IntersectionVertex<E>, options: RoutingRequest)
    ensures (GetOutgoing(v, options) == v.adjacency.outgoing) || (GetIncoming(v, options) == [])
    ensures (GetIncoming(v, options) == v.adjacency.incoming) || (GetOutgoing(v, options) == [])
  {
  }

  /** Raising the maximum never hides edges that were visible. */
  lemma GateMonotone<E>(v: IntersectionVertex<E>, lts: bool, low: int, high: int)
    requires low <= high
    requires Traversable(v, RoutingRequest(lts, low))
    ensures GetOutgoing(v, RoutingRequest(lts, high)) == GetOutgoing(v, RoutingRequest(lts, low))
    ensures GetIncoming(v, RoutingRequest(lts, high)) == GetIncoming(v, RoutingRequest(lts, low))
  {
  }

  /** A vertex with the default score 0 is traversable under any maximum that is not
      negative. */
  lemma DefaultScoreTraversable<E>(vertexLabel: string, x: real, y: real, name: string,
                                   adjacency: Adjacency<E>, options: RoutingRequest)
    requires 0 <= options.maxLTS
    ensures GetOutgoing(NewIntersectionVertex(vertexLabel, x, y, name, adjacency), options) == adjacency.outgoing
    ensures GetIncoming(NewIntersectionVertex(vertexLabel, x, y, name, adjacency), options) == adjacency.incoming
  {
  }
}
