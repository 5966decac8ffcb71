/** The records the backend serves and every page reads: attractions, shows,
    ticket tiers and paid extras. Only the fields some modelled computation
    reads are kept; images, feature lists and the like are left out. */
module Park {
  import opened Common

  /** A position on the park map, in the 0-100 plane. */
  datatype Position = Position(x: real, y: real)

  /** A ride. `duration` holds what `Number()` makes of the backend's
      duration text (`None` when that is `NaN`). */
  datatype Attraction = Attraction(
    id: int,
    name: string,
    description: string,
    category: string,
    waitTime: int,
    location: string,
    intensity: string,
    duration: Option<int>,
    popularity: real,
    tags: seq<string>,
    position: Option<Position>)

  /** A live show with its daily schedule of `"HH:MM"` start times. */
  datatype Show = Show(
    id: int,
    name: string,
    description: string,
    location: string,
    duration: int,
    times: seq<string>,
    category: string,
    rating: real,
    popular: bool,
    position: Option<Position>)

  /** A ticket tier (`standard`, `premium`, ...); prices are in cents. */
  datatype Ticket = Ticket(id: string, price: int)

  /** A paid add-on (`fastpass`, `parking`, ...); prices are in cents. */
  datatype Extra = Extra(id: string, price: int)

  /** The colour of a wait-time badge, from shortest to longest wait. */
  datatype WaitBadge = Gray | Green | Yellow | Red

  /** A badge's position in the green-yellow-red order; gray marks no wait. */
  function BadgeRank(b: WaitBadge): nat
  {
    match b
    case Gray => 0
    case Green => 1
    case Yellow => 2
    case Red => 3
  }

  /** The wait-time bands both pages use: up to a quarter of an hour green,
      up to half an hour yellow, longer red. */
  function WaitBand(minutes: int): (r: WaitBadge)
    ensures r != Gray
    ensures r == Green <==> minutes <= 15
    ensures r == Red <==> minutes > 30
  {
    if minutes <= 15 then Green
    else if minutes <= 30 then Yellow
    else Red
  }

  /** A longer wait never gets a milder badge. */
  lemma WaitBandMonotone(m1: int, m2: int)
    requires m1 <= m2
    ensures BadgeRank(WaitBand(m1)) <= BadgeRank(WaitBand(m2))
  {
  }
}
