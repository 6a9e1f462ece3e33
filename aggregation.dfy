/**
 * The counts the simulator reports for the clients in the radius: how many
 * there are, how many the principal serves, how many the active competitors
 * serve, and the same three counts per service category, as a table that
 * joins the three per-category counts and fills a missing count with 0.
 */
module Aggregation {
  import opened Masks
  import opened Services

  /** `atribuida_para == oficina_sel`, row by row. */
  function EqMask(owners: seq<string>, name: string): seq<bool>
  {
    seq(|owners|, i requires 0 <= i < |owners| => owners[i] == name)
  }

  /** `atribuida_para.isin(names)`, row by row. */
  function InMask(owners: seq<string>, names: seq<string>): seq<bool>
  {
    seq(|owners|, i requires 0 <= i < |owners| => owners[i] in names)
  }

  datatype Totals = Totals(total: nat, principal: nat, competitors: nat)

  /**
   * The three headline counts over the "atribuida_para" column of the
   * clients in the radius. The competitor count is 0 outright when no
   * competitor is active, as the source guards it.
   */
  function TotalsOf(owners: seq<string>, principalName: string, activeNames: seq<string>): Totals
  {
    Totals(
      |owners|,
      Trues(EqMask(owners, principalName)),
      if |activeNames| == 0 then 0 else Trues(InMask(owners, activeNames)))
  }

  /** How many entries of the column are `c`. */
  function Occ(cats: seq<Category>, c: Category): nat
  {
    if |cats| == 0 then 0
    else Occ(cats[..|cats| - 1], c) + (if cats[|cats| - 1] == c then 1 else 0)
  }

  /** `value_counts()`: each category that occurs, with its number of rows. */
  function ValueCounts(cats: seq<Category>): map<Category, nat>
  {
    map c | c in cats :: Occ(cats, c)
  }

  /** A count looked up in one joined column, 0 where the column has no entry. */
  function Cell(counts: map<Category, nat>, c: Category): nat
  {
    if c in counts then counts[c] else 0
  }

  datatype CategoryRow = CategoryRow(total: nat, principal: nat, competitors: nat)

  /**
   * The per-category table: the outer join of the category counts of all
   * clients in the radius, of those assigned to the principal and of those
   * assigned to an active competitor, with 0 for a missing entry.
   */
  function CategoryTable(categoria: seq<Category>, owners: seq<string>, principalName: string, activeNames: seq<string>)
    : map<Category, CategoryRow>
    requires |owners| == |categoria|
  {
    var total := ValueCounts(categoria);
    var principal := ValueCounts(Mask(categoria, EqMask(owners, principalName)));
    var competitors := ValueCounts(Mask(categoria, InMask(owners, activeNames)));
    map c | c in total.Keys + principal.Keys + competitors.Keys ::
      CategoryRow(Cell(total, c), Cell(principal, c), Cell(competitors, c))
  }

  datatype Column = TotalColumn | PrincipalColumn | CompetitorColumn

  function Pick(row: CategoryRow, col: Column): nat
  {
    match col
    case TotalColumn => row.total
    case PrincipalColumn => row.principal
    case CompetitorColumn => row.competitors
  }

  /** The sum of one column over the table's rows. */
  function ColumnSum(table: map<Category, CategoryRow>, col: Column): nat
  {
    (if MecanicaBasica in table then Pick(table[MecanicaBasica], col) else 0)
    + (if MecanicaAvancada in table then Pick(table[MecanicaAvancada], col) else 0)
    + (if Funilaria in table then Pick(table[Funilaria], col) else 0)
  }

  // ---------------------------------------------------------------------------
  // Counting lemmas

  lemma {:induction false} OccPositive(cats: seq<Category>, c: Category)
    ensures Occ(cats, c) > 0 <==> c in cats
  {
    if |cats| > 0 {
      var n := |cats| - 1;
      OccPositive(cats[..n], c);
      assert cats == cats[..n] + [cats[n]];
    }
  }

  /** Every row falls in exactly one category. */
  lemma {:induction false} OccSum(cats: seq<Category>)
    ensures Occ(cats, MecanicaBasica) + Occ(cats, MecanicaAvancada) + Occ(cats, Funilaria) == |cats|
  {
    if |cats| > 0 {
      OccSum(cats[..|cats| - 1]);
    }
  }

  /** Two masks never true on the same row select disjoint parts of each category. */
  lemma {:induction false} OccDisjointMasks(cats: seq<Category>, m1: seq<bool>, m2: seq<bool>, c: Category)
    requires |m1| == |m2| == |cats|
    requires forall i :: 0 <= i < |cats| ==> !(m1[i] && m2[i])
    ensures Occ(Mask(cats, m1), c) + Occ(Mask(cats, m2), c) <= Occ(cats, c)
  {
    if |cats| > 0 {
      var n := |cats| - 1;
      OccDisjointMasks(cats[..n], m1[..n], m2[..n], c);
      var front1, front2 := Mask(cats[..n], m1[..n]), Mask(cats[..n], m2[..n]);
      assert Mask(cats, m1) == front1 + (if m1[n] then [cats[n]] else []);
      assert Mask(cats, m2) == front2 + (if m2[n] then [cats[n]] else []);
      OccSnoc(front1, cats[n], c);
      OccSnoc(front2, cats[n], c);
      assert front1 + [] == front1 && front2 + [] == front2;
    }
  }

  lemma OccSnoc(cats: seq<Category>, x: Category, c: Category)
    ensures Occ(cats + [x], c) == Occ(cats, c) + (if x == c then 1 else 0)
  {
    assert (cats + [x])[..|cats|] == cats;
  }

  /** A joined cell equals the real count, which is 0 where the column has no entry. */
  lemma CellIsCount(cats: seq<Category>, c: Category)
    ensures Cell(ValueCounts(cats), c) == Occ(cats, c)
  {
    OccPositive(cats, c);
  }

  /** A masked category count is 0 exactly when no row of that category is kept. */
  lemma OccMaskZero(cats: seq<Category>, keep: seq<bool>, c: Category)
    requires |keep| == |cats|
    ensures Occ(Mask(cats, keep), c) == 0 <==>
      forall i :: 0 <= i < |cats| && cats[i] == c ==> !keep[i]
  {
    OccPositive(Mask(cats, keep), c);
    MaskMembers(cats, keep);
  }

  /** The table row of every category, present or not, in terms of the counts. */
  lemma TableRow(categoria: seq<Category>, owners: seq<string>, principalName: string, activeNames: seq<string>, c: Category)
    requires |owners| == |categoria|
    ensures var table := CategoryTable(categoria, owners, principalName, activeNames);
      && (c in table <==> c in categoria)
      && (c in table ==> table[c] == CategoryRow(
            Occ(categoria, c),
            Occ(Mask(categoria, EqMask(owners, principalName)), c),
            Occ(Mask(categoria, InMask(owners, activeNames)), c)))
  {
    var pm, cm := EqMask(owners, principalName), InMask(owners, activeNames);
    CellIsCount(categoria, c);
    CellIsCount(Mask(categoria, pm), c);
    CellIsCount(Mask(categoria, cm), c);
    MaskMembers(categoria, pm);
    MaskMembers(categoria, cm);
  }

  /**
   * The per-category table: its rows are the categories of the clients in the
   * radius; every cell counts the matching clients, and a principal or
   * competitor cell is 0 exactly when no client of that category went there;
   * and, when the principal's name is not among the active names, each row's
   * principal and competitor cells together are at most its total.
   */
  lemma CategoryTableSpec(categoria: seq<Category>, owners: seq<string>, principalName: string, activeNames: seq<string>)
    requires |owners| == |categoria|
    ensures var table := CategoryTable(categoria, owners, principalName, activeNames);
      forall c :: c in table <==> c in categoria
    ensures var table := CategoryTable(categoria, owners, principalName, activeNames);
      forall c :: c in table ==> table[c].total == Occ(categoria, c)
    ensures var table := CategoryTable(categoria, owners, principalName, activeNames);
      forall c :: c in table ==>
        (table[c].principal == 0 <==>
          forall i :: 0 <= i < |categoria| && categoria[i] == c ==> owners[i] != principalName)
    ensures var table := CategoryTable(categoria, owners, principalName, activeNames);
      forall c :: c in table ==>
        (table[c].competitors == 0 <==>
          forall i :: 0 <= i < |categoria| && categoria[i] == c ==> owners[i] !in activeNames)
    ensures principalName !in activeNames ==>
      var table := CategoryTable(categoria, owners, principalName, activeNames);
      forall c :: c in table ==> table[c].principal + table[c].competitors <= table[c].total
  {
    var table := CategoryTable(categoria, owners, principalName, activeNames);
    var pm, cm := EqMask(owners, principalName), InMask(owners, activeNames);
    forall c
      ensures c in table <==> c in categoria
      ensures c in table ==> table[c].total == Occ(categoria, c)
      ensures c in table ==> (table[c].principal == 0 <==>
          forall i :: 0 <= i < |categoria| && categoria[i] == c ==> owners[i] != principalName)
      ensures c in table ==> (table[c].competitors == 0 <==>
          forall i :: 0 <= i < |categoria| && categoria[i] == c ==> owners[i] !in activeNames)
      ensures principalName !in activeNames && c in table ==>
        table[c].principal + table[c].competitors <= table[c].total
    {
      TableRow(categoria, owners, principalName, activeNames, c);
      OccMaskZero(categoria, pm, c);
      OccMaskZero(categoria, cm, c);
      if principalName !in activeNames {
        OccDisjointMasks(categoria, pm, cm, c);
      }
    }
  }

  /** The rows of the clients in the radius that one column of the table counts. */
  function ColumnRows(categoria: seq<Category>, owners: seq<string>, principalName: string, activeNames: seq<string>, col: Column)
    : seq<Category>
    requires |owners| == |categoria|
  {
    match col
    case TotalColumn => categoria
    case PrincipalColumn => Mask(categoria, EqMask(owners, principalName))
    case CompetitorColumn => Mask(categoria, InMask(owners, activeNames))
  }

  /** A cell of any category, 0 for a category without a row, is the count of its column's rows. */
  lemma CellOfColumn(categoria: seq<Category>, owners: seq<string>, principalName: string, activeNames: seq<string>,
                     c: Category, col: Column)
    requires |owners| == |categoria|
    ensures var table := CategoryTable(categoria, owners, principalName, activeNames);
      (if c in table then Pick(table[c], col) else 0) ==
        Occ(ColumnRows(categoria, owners, principalName, activeNames, col), c)
  {
    TableRow(categoria, owners, principalName, activeNames, c);
    var rows := ColumnRows(categoria, owners, principalName, activeNames, col);
    if c !in categoria {
      OccPositive(rows, c);
      if col == PrincipalColumn {
        MaskMembers(categoria, EqMask(owners, principalName));
      } else if col == CompetitorColumn {
        MaskMembers(categoria, InMask(owners, activeNames));
      }
    }
  }

  /** A column of the table summed over every category counts all of its rows. */
  lemma ColumnSumIsCount(categoria: seq<Category>, owners: seq<string>, principalName: string, activeNames: seq<string>, col: Column)
    requires |owners| == |categoria|
    ensures ColumnSum(CategoryTable(categoria, owners, principalName, activeNames), col) ==
      |ColumnRows(categoria, owners, principalName, activeNames, col)|
  {
    CellOfColumn(categoria, owners, principalName, activeNames, MecanicaBasica, col);
    CellOfColumn(categoria, owners, principalName, activeNames, MecanicaAvancada, col);
    CellOfColumn(categoria, owners, principalName, activeNames, Funilaria, col);
    OccSum(ColumnRows(categoria, owners, principalName, activeNames, col));
  }

  /**
   * The table agrees with the headline counts: the Total column sums to the
   * number of clients in the radius, the Principal column to the principal's
   * count and the Concorrentes column to the competitors' count.
   */
  lemma TableMatchesTotals(categoria: seq<Category>, owners: seq<string>, principalName: string, activeNames: seq<string>)
    requires |owners| == |categoria|
    ensures var table := CategoryTable(categoria, owners, principalName, activeNames);
      var totals := TotalsOf(owners, principalName, activeNames);
      && ColumnSum(table, TotalColumn) == totals.total
      && ColumnSum(table, PrincipalColumn) == totals.principal
      && ColumnSum(table, CompetitorColumn) == totals.competitors
  {
    var pm, cm := EqMask(owners, principalName), InMask(owners, activeNames);
    ColumnSumIsCount(categoria, owners, principalName, activeNames, TotalColumn);
    ColumnSumIsCount(categoria, owners, principalName, activeNames, PrincipalColumn);
    ColumnSumIsCount(categoria, owners, principalName, activeNames, CompetitorColumn);
    if |activeNames| == 0 {
      TruesNone(cm);
    }
  }

  /**
   * When the principal's name is not among the active names, the principal's
   * and the competitors' counts together never exceed the clients in the radius.
   */
  lemma TotalsBound(owners: seq<string>, principalName: string, activeNames: seq<string>)
    requires principalName !in activeNames
    ensures var totals := TotalsOf(owners, principalName, activeNames);
      totals.principal + totals.competitors <= totals.total
  {
    var pm, cm := EqMask(owners, principalName), InMask(owners, activeNames);
    TruesDisjoint(pm, cm);
  }

  /**
   * When every entry of the column is the sentinel `unserved`, the
   * principal's name or an active name, and these three are distinct, each
   * client in the radius is counted exactly once: for the principal, for a
   * competitor, or as not served. An unserved client counts for neither the
   * principal nor a competitor.
   */
  lemma TotalsComplete(owners: seq<string>, principalName: string, activeNames: seq<string>, unserved: string)
    requires principalName != unserved && unserved !in activeNames && principalName !in activeNames
    requires forall i :: 0 <= i < |owners| ==>
      owners[i] == unserved || owners[i] == principalName || owners[i] in activeNames
    ensures var totals := TotalsOf(owners, principalName, activeNames);
      totals.principal + totals.competitors + Trues(EqMask(owners, unserved)) == totals.total
  {
    var pm, cm, nm := EqMask(owners, principalName), InMask(owners, activeNames), EqMask(owners, unserved);
    TruesPartition(pm, cm, nm);
    if |activeNames| == 0 {
      TruesNone(cm);
    }
  }
}
