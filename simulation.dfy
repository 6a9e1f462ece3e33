/**
 * One run of the simulator for a chosen principal workshop and radius: the
 * columns are computed, the clients and the competitors in the radius are
 * selected, the ticked competitors become active, every client in the radius
 * is assigned, and the counts are taken.
 */
module Simulation {
  import opened Masks
  import opened Services
  import opened Coverage
  import opened Aggregation

  datatype Report = Report(
    inRadius: seq<Client>,
    categoria: seq<Category>,
    owners: seq<string>,
    competitors: seq<Workshop>,
    active: seq<Workshop>,
    totals: Totals,
    byCategory: map<Category, CategoryRow>)

  /** The clients within the radius of the principal. */
  function InRadiusOf(clients: seq<Client>, principal: Workshop, radius: real, dist: Metric): seq<Client>
  {
    ClientsInRadius(clients, Distances(principal.loc, ClientLocations(clients), dist), radius)
  }

  /** Their "categoria" column: the column of all clients, under the same mask. */
  function CategoriaInRadiusOf(clients: seq<Client>, principal: Workshop, radius: real, dist: Metric): seq<Category>
  {
    Mask(Categories(clients), WithinMask(Distances(principal.loc, ClientLocations(clients), dist), radius))
  }

  function CompetitorMaskOf(workshops: seq<Workshop>, principal: Workshop, radius: real, dist: Metric): seq<bool>
  {
    CompetitorMask(workshops, Distances(principal.loc, WorkshopLocations(workshops), dist), principal.name, radius)
  }

  function CompetitorsOf(workshops: seq<Workshop>, principal: Workshop, radius: real, dist: Metric): seq<Workshop>
  {
    Competitors(workshops, Distances(principal.loc, WorkshopLocations(workshops), dist), principal.name, radius)
  }

  /**
   * The active competitors. `ticked` holds the checkbox state of every
   * workshop row (the widget is keyed by the row); only the boxes of the
   * competitor rows are shown and read.
   */
  function ActiveOf(workshops: seq<Workshop>, principal: Workshop, radius: real, ticked: seq<bool>, dist: Metric): seq<Workshop>
    requires |ticked| == |workshops|
  {
    Mask(CompetitorsOf(workshops, principal, radius, dist), Mask(ticked, CompetitorMaskOf(workshops, principal, radius, dist)))
  }

  /** The outcome of one run. */
  function Analyze(clients: seq<Client>, workshops: seq<Workshop>, principal: Workshop,
                   radius: real, ticked: seq<bool>, dist: Metric): Report
    requires |ticked| == |workshops|
  {
    var inRadius := InRadiusOf(clients, principal, radius, dist);
    var categoria := CategoriaInRadiusOf(clients, principal, radius, dist);
    var active := ActiveOf(workshops, principal, radius, ticked, dist);
    var owners := Assignments(inRadius, principal, active, dist);
    Report(inRadius, categoria, owners, CompetitorsOf(workshops, principal, radius, dist), active,
      TotalsOf(owners, principal.name, Names(active)),
      CategoryTable(categoria, owners, principal.name, Names(active)))
  }

  /** The run step by step, in the order the script performs it. */
  method Simulate(clients: seq<Client>, workshops: seq<Workshop>, principal: Workshop,
                  radius: real, ticked: seq<bool>, dist: Metric) returns (report: Report)
    requires |ticked| == |workshops|
    ensures report == Analyze(clients, workshops, principal, radius, ticked, dist)
  {
    var categoria := CategoryColumn(clients);
    var clientDist := DistanceColumn(principal.loc, ClientLocations(clients), dist);
    var keep := WithinMask(clientDist, radius);
    var inRadius := Mask(clients, keep);
    var categoriaInRadius := Mask(categoria, keep);
    var workshopDist := DistanceColumn(principal.loc, WorkshopLocations(workshops), dist);
    var competitorMask := CompetitorMask(workshops, workshopDist, principal.name, radius);
    var competitors := Mask(workshops, competitorMask);
    var active := SelectActive(competitors, Mask(ticked, competitorMask));
    var owners := AssignmentColumn(inRadius, principal, active, dist);
    var names := Names(active);
    report := Report(inRadius, categoriaInRadius, owners, competitors, active,
      TotalsOf(owners, principal.name, names),
      CategoryTable(categoriaInRadius, owners, principal.name, names));
  }

  /** The category column of the clients in the radius is still their classification. */
  lemma CategoriaAligned(clients: seq<Client>, principal: Workshop, radius: real, dist: Metric)
    ensures var inRadius := InRadiusOf(clients, principal, radius, dist);
      var categoria := CategoriaInRadiusOf(clients, principal, radius, dist);
      |categoria| == |inRadius| &&
      forall j :: 0 <= j < |inRadius| ==> categoria[j] == Classify(inRadius[j].service)
  {
    var keep := WithinMask(Distances(principal.loc, ClientLocations(clients), dist), radius);
    MaskAligned(clients, Categories(clients), keep, (c: Client) => Classify(c.service));
  }

  /** Every active competitor is a competitor, so none bears the principal's name. */
  lemma ActiveAreCompetitors(workshops: seq<Workshop>, principal: Workshop, radius: real, ticked: seq<bool>, dist: Metric)
    requires |ticked| == |workshops|
    ensures forall w :: w in ActiveOf(workshops, principal, radius, ticked, dist) ==>
      w in CompetitorsOf(workshops, principal, radius, dist)
    ensures principal.name !in Names(ActiveOf(workshops, principal, radius, ticked, dist))
  {
    var competitors := CompetitorsOf(workshops, principal, radius, dist);
    var active := ActiveOf(workshops, principal, radius, ticked, dist);
    MaskMembers(competitors, Mask(ticked, CompetitorMaskOf(workshops, principal, radius, dist)));
    CompetitorsSpec(workshops, principal, radius, dist);
    forall k | 0 <= k < |active| ensures Names(active)[k] != principal.name {
      assert active[k] in active;
    }
  }

  /**
   * The selections of a run: the clients in the radius and the competitors
   * are exactly those the radius filters describe, the active competitors are
   * competitors, and the category and assignment columns are aligned with the
   * clients in the radius.
   */
  lemma AnalyzeSelections(clients: seq<Client>, workshops: seq<Workshop>, principal: Workshop,
                          radius: real, ticked: seq<bool>, dist: Metric)
    requires |ticked| == |workshops|
    ensures var r := Analyze(clients, workshops, principal, radius, ticked, dist);
      && (forall c :: c in r.inRadius <==> c in clients && dist(principal.loc, c.loc) <= radius)
      && (forall w :: w in r.competitors <==>
            w in workshops && w.name != principal.name && dist(principal.loc, w.loc) <= radius)
      && (forall w :: w in r.active ==> w in r.competitors)
      && |r.categoria| == |r.owners| == |r.inRadius|
      && (forall j :: 0 <= j < |r.inRadius| ==> r.categoria[j] == Classify(r.inRadius[j].service))
      && (forall j :: 0 <= j < |r.inRadius| ==>
            r.owners[j] == NearestWorkshop(r.inRadius[j], principal, r.active, dist))
  {
    ClientsInRadiusSpec(clients, principal.loc, radius, dist);
    CompetitorsSpec(workshops, principal, radius, dist);
    ActiveAreCompetitors(workshops, principal, radius, ticked, dist);
    CategoriaAligned(clients, principal, radius, dist);
  }

  /**
   * The counts over any category and assignment columns aligned with the
   * clients in the radius, when the principal's name is not an active name.
   */
  lemma CountsHold(inRadius: seq<Client>, categoria: seq<Category>, owners: seq<string>,
                   principalName: string, names: seq<string>)
    requires |categoria| == |owners| == |inRadius|
    requires forall j :: 0 <= j < |inRadius| ==> categoria[j] == Classify(inRadius[j].service)
    requires principalName !in names
    ensures var totals, table := TotalsOf(owners, principalName, names), CategoryTable(categoria, owners, principalName, names);
      && totals.total == |inRadius|
      && totals.principal + totals.competitors <= totals.total
      && (forall c :: c in table ==> table[c].principal + table[c].competitors <= table[c].total)
      && (forall c :: c in table <==> exists j :: 0 <= j < |inRadius| && Classify(inRadius[j].service) == c)
      && ColumnSum(table, TotalColumn) == totals.total
      && ColumnSum(table, PrincipalColumn) == totals.principal
      && ColumnSum(table, CompetitorColumn) == totals.competitors
  {
    TotalsBound(owners, principalName, names);
    CategoryTableSpec(categoria, owners, principalName, names);
    TableMatchesTotals(categoria, owners, principalName, names);
    forall c ensures c in categoria <==>
      exists j :: 0 <= j < |inRadius| && Classify(inRadius[j].service) == c
    {
      if c in categoria {
        var j :| 0 <= j < |categoria| && categoria[j] == c;
        assert Classify(inRadius[j].service) == c;
      }
    }
  }

  /**
   * The counts of a run: the principal's and the competitors' counts never
   * exceed the clients in the radius, the same holds in every row of the
   * category table, the table's rows are the categories of the clients in
   * the radius, and its columns sum to the headline counts.
   */
  lemma AnalyzeCounts(clients: seq<Client>, workshops: seq<Workshop>, principal: Workshop,
                      radius: real, ticked: seq<bool>, dist: Metric)
    requires |ticked| == |workshops|
    ensures var r := Analyze(clients, workshops, principal, radius, ticked, dist);
      && r.totals.total == |r.inRadius|
      && r.totals.principal + r.totals.competitors <= r.totals.total
      && (forall c :: c in r.byCategory ==>
            r.byCategory[c].principal + r.byCategory[c].competitors <= r.byCategory[c].total)
      && (forall c :: c in r.byCategory <==>
            exists j :: 0 <= j < |r.inRadius| && Classify(r.inRadius[j].service) == c)
      && ColumnSum(r.byCategory, TotalColumn) == r.totals.total
      && ColumnSum(r.byCategory, PrincipalColumn) == r.totals.principal
      && ColumnSum(r.byCategory, CompetitorColumn) == r.totals.competitors
  {
    var inRadius := InRadiusOf(clients, principal, radius, dist);
    var active := ActiveOf(workshops, principal, radius, ticked, dist);
    ActiveAreCompetitors(workshops, principal, radius, ticked, dist);
    CategoriaAligned(clients, principal, radius, dist);
    CountsHold(inRadius, CategoriaInRadiusOf(clients, principal, radius, dist),
      Assignments(inRadius, principal, active, dist), principal.name, Names(active));
  }

  /**
   * Every client in the radius of a run is counted exactly once: for the
   * principal, for an active competitor, or as "Não Atendido" (provided no
   * workshop is named like the sentinel).
   */
  lemma AnalyzeComplete(clients: seq<Client>, workshops: seq<Workshop>, principal: Workshop,
                        radius: real, ticked: seq<bool>, dist: Metric)
    requires |ticked| == |workshops|
    requires principal.name != NotServed && forall w :: w in workshops ==> w.name != NotServed
    ensures var r := Analyze(clients, workshops, principal, radius, ticked, dist);
      r.totals.principal + r.totals.competitors + Trues(EqMask(r.owners, NotServed)) == r.totals.total
  {
    var inRadius := InRadiusOf(clients, principal, radius, dist);
    var active := ActiveOf(workshops, principal, radius, ticked, dist);
    var owners := Assignments(inRadius, principal, active, dist);
    var names := Names(active);
    ActiveAreCompetitors(workshops, principal, radius, ticked, dist);
    CompetitorsSpec(workshops, principal, radius, dist);
    forall k | 0 <= k < |names| ensures names[k] != NotServed {
      assert active[k] in active;
    }
    forall i | 0 <= i < |owners|
      ensures owners[i] == NotServed || owners[i] == principal.name || owners[i] in names
    {
      NearestWorkshopAnswers(inRadius[i], principal, active, dist);
    }
    TotalsComplete(owners, principal.name, names, NotServed);
  }
}
