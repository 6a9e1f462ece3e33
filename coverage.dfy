/**
 * The coverage engine of the simulator: the distance and category columns,
 * the radius filters around the principal workshop, the selection of active
 * competitors, and the assignment of each client in the radius to the
 * nearest workshop that performs the service the client demands.
 */
module Coverage {
  import opened Masks
  import opened Services

  datatype Location = Location(lat: real, lon: real)

  /**
   * The distance in kilometres between two locations. The haversine formula
   * is not modelled; every result below holds for any metric, and the
   * argument order is the one the simulator uses at each call.
   */
  type Metric = (Location, Location) -> real

  /** A client row: the demanded service ("tipo_servico_demandado") and its location. */
  datatype Client = Client(service: string, loc: Location)

  /** A workshop row: "nome_oficina", its location, and the parsed "servicos_realizados". */
  datatype Workshop = Workshop(name: string, loc: Location, services: seq<string>)

  datatype Option<T> = None | Some(value: T)

  function ClientLocations(clients: seq<Client>): seq<Location>
  {
    seq(|clients|, i requires 0 <= i < |clients| => clients[i].loc)
  }

  function WorkshopLocations(workshops: seq<Workshop>): seq<Location>
  {
    seq(|workshops|, i requires 0 <= i < |workshops| => workshops[i].loc)
  }

  function Names(workshops: seq<Workshop>): seq<string>
  {
    seq(|workshops|, i requires 0 <= i < |workshops| => workshops[i].name)
  }

  // ---------------------------------------------------------------------------
  // Derived columns

  /** The "categoria" column: every client's service classified. */
  function Categories(clients: seq<Client>): seq<Category>
  {
    seq(|clients|, i requires 0 <= i < |clients| => Classify(clients[i].service))
  }

  /** The "distancia" column: the distance from `origin` to every location. */
  function Distances(origin: Location, locs: seq<Location>, dist: Metric): seq<real>
  {
    seq(|locs|, i requires 0 <= i < |locs| => dist(origin, locs[i]))
  }

  method CategoryColumn(clients: seq<Client>) returns (categoria: seq<Category>)
    ensures categoria == Categories(clients)
  {
    categoria := [];
    var i := 0;
    while i < |clients|
      invariant 0 <= i <= |clients|
      invariant |categoria| == i
      invariant forall k :: 0 <= k < i ==> categoria[k] == Classify(clients[k].service)
    {
      categoria := categoria + [Classify(clients[i].service)];
      i := i + 1;
    }
  }

  method DistanceColumn(origin: Location, locs: seq<Location>, dist: Metric) returns (distancia: seq<real>)
    ensures distancia == Distances(origin, locs, dist)
  {
    distancia := [];
    var i := 0;
    while i < |locs|
      invariant 0 <= i <= |locs|
      invariant |distancia| == i
      invariant forall k :: 0 <= k < i ==> distancia[k] == dist(origin, locs[k])
    {
      distancia := distancia + [dist(origin, locs[i])];
      i := i + 1;
    }
  }

  // ---------------------------------------------------------------------------
  // Radius filters

  /** `distancia <= raio_km`, row by row: the boundary is inclusive. */
  function WithinMask(distancia: seq<real>, radius: real): seq<bool>
  {
    seq(|distancia|, i requires 0 <= i < |distancia| => distancia[i] <= radius)
  }

  /** The clients whose distance column is within the radius. */
  function ClientsInRadius(clients: seq<Client>, distancia: seq<real>, radius: real): seq<Client>
    requires |distancia| == |clients|
  {
    Mask(clients, WithinMask(distancia, radius))
  }

  /** A workshop is a competitor when its name differs and it is within the radius. */
  function CompetitorMask(workshops: seq<Workshop>, distancia: seq<real>, principalName: string, radius: real): seq<bool>
    requires |distancia| == |workshops|
  {
    seq(|workshops|, i requires 0 <= i < |workshops| =>
      workshops[i].name != principalName && distancia[i] <= radius)
  }

  function Competitors(workshops: seq<Workshop>, distancia: seq<real>, principalName: string, radius: real): seq<Workshop>
    requires |distancia| == |workshops|
  {
    Mask(workshops, CompetitorMask(workshops, distancia, principalName, radius))
  }

  /**
   * With the distance column measured from the principal, a client is in the
   * radius exactly when its distance is at most the radius (a client at
   * exactly the radius is kept), and the kept rows keep their order.
   */
  lemma ClientsInRadiusSpec(clients: seq<Client>, origin: Location, radius: real, dist: Metric)
    ensures var r := ClientsInRadius(clients, Distances(origin, ClientLocations(clients), dist), radius);
      forall c :: c in r <==> c in clients && dist(origin, c.loc) <= radius
    ensures var keep := WithinMask(Distances(origin, ClientLocations(clients), dist), radius);
      forall i :: 0 <= i < |clients| ==> (i in TrueIndices(keep) <==> dist(origin, clients[i].loc) <= radius)
  {
    var keep := WithinMask(Distances(origin, ClientLocations(clients), dist), radius);
    assert forall i | 0 <= i < |clients| :: keep[i] == (dist(origin, clients[i].loc) <= radius);
    MaskMembers(clients, keep);
    var r := Mask(clients, keep);
    forall c ensures c in r <==> c in clients && dist(origin, c.loc) <= radius {
      if c in clients && dist(origin, c.loc) <= radius {
        var i :| 0 <= i < |clients| && clients[i] == c;
        assert keep[i];
      }
    }
    var idx := TrueIndices(keep);
    forall i | 0 <= i < |clients| && i in idx ensures dist(origin, clients[i].loc) <= radius {
      var j :| 0 <= j < |idx| && idx[j] == i;
      assert keep[idx[j]];
    }
  }

  /**
   * With the distance column measured from the principal, the competitors are
   * exactly the workshops within the radius whose name differs from the
   * principal's.
   */
  lemma CompetitorsSpec(workshops: seq<Workshop>, principal: Workshop, radius: real, dist: Metric)
    ensures var r := Competitors(workshops, Distances(principal.loc, WorkshopLocations(workshops), dist), principal.name, radius);
      forall w :: w in r <==>
        w in workshops && w.name != principal.name && dist(principal.loc, w.loc) <= radius
  {
    var d := Distances(principal.loc, WorkshopLocations(workshops), dist);
    var keep := CompetitorMask(workshops, d, principal.name, radius);
    MaskMembers(workshops, keep);
    var r := Mask(workshops, keep);
    forall w ensures w in r <==> w in workshops && w.name != principal.name && dist(principal.loc, w.loc) <= radius {
      if w in workshops && w.name != principal.name && dist(principal.loc, w.loc) <= radius {
        var i :| 0 <= i < |workshops| && workshops[i] == w;
        assert keep[i];
      }
    }
  }

  // ---------------------------------------------------------------------------
  // Active competitors

  /**
   * One checkbox per competitor row; a competitor whose box is ticked is
   * appended, in row order.
   */
  method SelectActive(competitors: seq<Workshop>, ticked: seq<bool>) returns (active: seq<Workshop>)
    requires |ticked| == |competitors|
    ensures active == Mask(competitors, ticked)
  {
    active := [];
    var i := 0;
    while i < |competitors|
      invariant 0 <= i <= |competitors|
      invariant active == Mask(competitors[..i], ticked[..i])
    {
      assert competitors[..i + 1][..i] == competitors[..i];
      assert ticked[..i + 1][..i] == ticked[..i];
      if ticked[i] {
        active := active + [competitors[i]];
      }
      i := i + 1;
    }
    assert competitors[..i] == competitors && ticked[..i] == ticked;
  }

  // ---------------------------------------------------------------------------
  // Nearest-workshop assignment

  /** The sentinel the simulator stores for a client no option serves. */
  const NotServed: string := "Não Atendido"

  /** The options offered to every client: the principal first, then the active competitors. */
  function Options(principal: Workshop, active: seq<Workshop>): seq<Workshop>
  {
    [principal] + active
  }

  /** The workshop lists the client's demanded service among its services. */
  predicate Serves(w: Workshop, client: Client)
  {
    client.service in w.services
  }

  function ServesMask(client: Client, options: seq<Workshop>): seq<bool>
  {
    seq(|options|, i requires 0 <= i < |options| => Serves(options[i], client))
  }

  /** The candidates: the options that perform the client's service, in order. */
  function Candidates(client: Client, options: seq<Workshop>): seq<Workshop>
  {
    Mask(options, ServesMask(client, options))
  }

  function DistancesToClient(client: Client, candidates: seq<Workshop>, dist: Metric): seq<real>
  {
    seq(|candidates|, i requires 0 <= i < |candidates| => dist(client.loc, candidates[i].loc))
  }

  /**
   * The position `min` picks: it replaces its current best only by a strictly
   * smaller key, so the first of several minimal keys wins.
   */
  function FirstMin(keys: seq<real>): (k: nat)
    requires |keys| > 0
    ensures k < |keys|
    ensures forall j :: 0 <= j < |keys| ==> keys[k] <= keys[j]
    ensures forall j :: 0 <= j < k ==> keys[k] < keys[j]
  {
    if |keys| == 1 then 0
    else
      var n := |keys| - 1;
      var best := FirstMin(keys[..n]);
      assert forall j :: 0 <= j < n ==> keys[..n][j] == keys[j];
      if keys[n] < keys[best] then n else best
  }

  /** The candidate row `min` returns, or None when there is no candidate. */
  function Closest(client: Client, options: seq<Workshop>, dist: Metric): Option<Workshop>
  {
    var candidates := Candidates(client, options);
    if |candidates| == 0 then None
    else Some(candidates[FirstMin(DistancesToClient(client, candidates, dist))])
  }

  /** The name stored in "atribuida_para" for one client. */
  function NearestWorkshop(client: Client, principal: Workshop, active: seq<Workshop>, dist: Metric): string
  {
    match Closest(client, Options(principal, active), dist)
    case None => NotServed
    case Some(w) => w.name
  }

  /**
   * Option `i` is the one the assignment should pick: it serves the client,
   * no serving option is strictly closer, and every serving option before it
   * is strictly farther.
   */
  ghost predicate NearestAt(client: Client, options: seq<Workshop>, dist: Metric, i: int)
  {
    && 0 <= i < |options|
    && Serves(options[i], client)
    && (forall j :: 0 <= j < |options| && Serves(options[j], client) ==>
          dist(client.loc, options[i].loc) <= dist(client.loc, options[j].loc))
    && (forall j :: 0 <= j < i && Serves(options[j], client) ==>
          dist(client.loc, options[i].loc) < dist(client.loc, options[j].loc))
  }

  /** At most one option is the nearest, so the tie-break fixes the answer. */
  lemma NearestAtUnique(client: Client, options: seq<Workshop>, dist: Metric, i: int, k: int)
    requires NearestAt(client, options, dist, i) && NearestAt(client, options, dist, k)
    ensures i == k
  {
  }

  /**
   * No workshop is chosen exactly when no option serves the client; otherwise
   * the chosen row is the option at the position `NearestAt` describes.
   */
  lemma ClosestSpec(client: Client, options: seq<Workshop>, dist: Metric)
    ensures Closest(client, options, dist).None? <==>
      forall i :: 0 <= i < |options| ==> !Serves(options[i], client)
    ensures Closest(client, options, dist).Some? ==>
      exists i :: NearestAt(client, options, dist, i) && options[i] == Closest(client, options, dist).value
  {
    var keep := ServesMask(client, options);
    var idx := TrueIndices(keep);
    MaskSelects(options, keep);
    if |Candidates(client, options)| == 0 {
      forall i | 0 <= i < |options| ensures !Serves(options[i], client) {
        assert keep[i] == Serves(options[i], client) && i !in idx;
      }
    } else {
      var i := ChosenIsNearest(client, options, dist);
    }
  }

  /** The position, among the options, of the candidate `min` picks: it is `NearestAt`. */
  lemma ChosenIsNearest(client: Client, options: seq<Workshop>, dist: Metric) returns (i: nat)
    requires |Candidates(client, options)| > 0
    ensures NearestAt(client, options, dist, i)
    ensures Closest(client, options, dist) == Some(options[i])
  {
    var keep := ServesMask(client, options);
    var candidates := Candidates(client, options);
    var idx := TrueIndices(keep);
    MaskSelects(options, keep);
    var keys := DistancesToClient(client, candidates, dist);
    var m := FirstMin(keys);
    i := idx[m];
    assert options[i] == candidates[m];
    forall j | 0 <= j < |options| && Serves(options[j], client)
      ensures dist(client.loc, options[i].loc) <= dist(client.loc, options[j].loc)
      ensures j < i ==> dist(client.loc, options[i].loc) < dist(client.loc, options[j].loc)
    {
      assert keep[j];
      var jj :| 0 <= jj < |idx| && idx[jj] == j;
      assert candidates[jj] == options[j];
      assert keys[jj] == dist(client.loc, options[j].loc);
      assert keys[m] == dist(client.loc, options[i].loc);
      assert j < i ==> jj < m;
    }
  }

  /**
   * The assignment answers the sentinel exactly when neither the principal
   * nor any active competitor performs the service (provided no workshop is
   * itself named like the sentinel); otherwise it answers the name of the
   * nearest serving option, the earliest one on ties.
   */
  lemma NearestWorkshopSpec(client: Client, principal: Workshop, active: seq<Workshop>, dist: Metric)
    requires forall w :: w in Options(principal, active) ==> w.name != NotServed
    ensures NearestWorkshop(client, principal, active, dist) == NotServed <==>
      forall w :: w in Options(principal, active) ==> !Serves(w, client)
    ensures NearestWorkshop(client, principal, active, dist) != NotServed ==>
      exists i :: NearestAt(client, Options(principal, active), dist, i) &&
        Options(principal, active)[i].name == NearestWorkshop(client, principal, active, dist)
  {
    var options := Options(principal, active);
    ClosestSpec(client, options, dist);
    if Closest(client, options, dist).Some? {
      var i :| NearestAt(client, options, dist, i) && options[i] == Closest(client, options, dist).value;
      assert options[i] in options;
    }
  }

  /**
   * The principal comes first among the options, so it wins every tie: when
   * it serves the client and no active competitor that serves the client is
   * strictly closer, the client goes to the principal.
   */
  lemma PrincipalWinsTies(client: Client, principal: Workshop, active: seq<Workshop>, dist: Metric)
    requires Serves(principal, client)
    requires forall w :: w in active && Serves(w, client) ==>
      dist(client.loc, principal.loc) <= dist(client.loc, w.loc)
    ensures NearestWorkshop(client, principal, active, dist) == principal.name
  {
    var options := Options(principal, active);
    ClosestSpec(client, options, dist);
    assert Serves(options[0], client);
    var i :| NearestAt(client, options, dist, i) && options[i] == Closest(client, options, dist).value;
    assert forall j :: 0 < j < |options| ==> options[j] in active;
  }

  /**
   * A sample assignment on a line of locations, distance being the gap in
   * latitude: a client beside the principal goes to it, a client beside the
   * competitor goes to the competitor, and a service nobody lists is not served.
   */
  lemma AssignmentExamples()
    ensures var dist: Metric := (a: Location, b: Location) => if a.lat <= b.lat then b.lat - a.lat else a.lat - b.lat;
      var principal := Workshop("Principal", Location(0.0, 0.0), ["freio"]);
      var rival := Workshop("Rival", Location(4.0, 0.0), ["freio"]);
      && NearestWorkshop(Client("freio", Location(0.5, 0.0)), principal, [rival], dist) == "Principal"
      && NearestWorkshop(Client("freio", Location(3.0, 0.0)), principal, [rival], dist) == "Rival"
      && NearestWorkshop(Client("motor", Location(3.0, 0.0)), principal, [rival], dist) == NotServed
  {
    var dist: Metric := (a: Location, b: Location) => if a.lat <= b.lat then b.lat - a.lat else a.lat - b.lat;
    var principal := Workshop("Principal", Location(0.0, 0.0), ["freio"]);
    var rival := Workshop("Rival", Location(4.0, 0.0), ["freio"]);
    var options := Options(principal, [rival]);
    var near, far, other := Client("freio", Location(0.5, 0.0)), Client("freio", Location(3.0, 0.0)), Client("motor", Location(3.0, 0.0));
    assert options == [principal, rival];
    assert Serves(principal, near) && Serves(rival, near) && !Serves(principal, other) && !Serves(rival, other);
    PrincipalWinsTies(near, principal, [rival], dist);
    ClosestSpec(far, options, dist);
    var i :| NearestAt(far, options, dist, i) && options[i] == Closest(far, options, dist).value;
    assert dist(far.loc, rival.loc) < dist(far.loc, principal.loc);
    assert i == 1;
    ClosestSpec(other, options, dist);
  }

  /**
   * Every answer of the assignment is the sentinel, the principal's name or
   * the name of an active competitor.
   */
  lemma NearestWorkshopAnswers(client: Client, principal: Workshop, active: seq<Workshop>, dist: Metric)
    ensures var a := NearestWorkshop(client, principal, active, dist);
      a == NotServed || a == principal.name || a in Names(active)
  {
    var options := Options(principal, active);
    var candidates := Candidates(client, options);
    if |candidates| > 0 {
      var w := Closest(client, options, dist).value;
      assert w in candidates;
      MaskMembers(options, ServesMask(client, options));
      var i :| 0 <= i < |options| && options[i] == w;
      if i > 0 {
        assert w == active[i - 1] && Names(active)[i - 1] == w.name;
      }
    }
  }

  /** The "atribuida_para" column: `NearestWorkshop` applied to every client in the radius. */
  function Assignments(clients: seq<Client>, principal: Workshop, active: seq<Workshop>, dist: Metric): seq<string>
  {
    seq(|clients|, i requires 0 <= i < |clients| => NearestWorkshop(clients[i], principal, active, dist))
  }

  method AssignmentColumn(clients: seq<Client>, principal: Workshop, active: seq<Workshop>, dist: Metric)
    returns (owners: seq<string>)
    ensures owners == Assignments(clients, principal, active, dist)
  {
    owners := [];
    var i := 0;
    while i < |clients|
      invariant 0 <= i <= |clients|
      invariant |owners| == i
      invariant forall k :: 0 <= k < i ==> owners[k] == NearestWorkshop(clients[k], principal, active, dist)
    {
      owners := owners + [NearestWorkshop(clients[i], principal, active, dist)];
      i := i + 1;
    }
  }
}
