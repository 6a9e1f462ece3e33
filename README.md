# Workshop coverage simulator — a Dafny model of its coverage engine

The simulator takes a table of clients (each with a demanded service and a
location) and a table of auto-repair workshops (each with a name, a location
and the list of services it performs). The operator picks one principal
workshop, a radius in kilometres, and ticks which competitors take part. For
that choice the simulator:

1. classifies every client's service into "Mecanica Basica",
   "Mecanica Avançada" or "Funilaria" by case-insensitive keyword tests, the
   first matching rule winning;
2. keeps the clients whose distance from the principal is at most the radius;
3. takes as competitors every other-named workshop within the radius, and as
   active competitors those whose checkbox is ticked, in row order;
4. assigns each client in the radius to the nearest option, among the
   principal followed by the active competitors, that lists the client's
   service — the first one on ties — or to "Não Atendido" when none does;
5. counts the clients in the radius, those served by the principal and those
   served by an active competitor, in total and per category, the
   per-category table being an outer join with missing counts filled with 0.

The model has four modules for the stages of the script plus a shared mask
module:

- `Masks` (masks.dfy), the shared module: boolean-mask row selection, the
  one operation behind every filter of the script, with the lemmas that it
  keeps exactly the true rows in their order.
- `Services` (services.dfy): the lower-casing, the substring test and the
  classifier.
- `Coverage` (coverage.dfy): the client and workshop records, the derived
  "categoria", "distancia" and "atribuida_para" columns (each a method with a
  loop, proved against a function), the radius filters, the active-competitor
  loop and the nearest-workshop assignment.
- `Aggregation` (aggregation.dfy): the three headline counts and the
  per-category table.
- `Simulation` (simulation.dfy): one whole run, as a function and as a method
  following the script's order, with the lemmas that tie all stages together.

Distances are an abstract `Metric` parameter: every result holds for any
distance function, and each call passes its arguments in the order the script
does (principal first for the radius filters, client first for the
assignment). Each workshop carries its service list already parsed.

## Model

| member | source | states |
|---|---|---|
| `Services.Classify` | app_melhorado_completo.py:23-30 | the result is "Mecanica Basica" exactly when a basic keyword (troca, óleo, freio, suspensão) occurs in the lower-cased text; "Mecanica Avançada" exactly when no basic keyword but an advanced one (motor, transmissão, elétrica) occurs; "Funilaria" exactly when no keyword occurs |
| `Services.Lower` | app_melhorado_completo.py:24 | lower-casing keeps the length, turns every capital into its small letter (code point plus 32), leaves no capital, and changes no other character |
| `Services.LowerIdempotent` | app_melhorado_completo.py:24 | lower-casing an already lower-cased text changes nothing |
| `Services.ClassifyIgnoresCase` | app_melhorado_completo.py:24-30 | a text and its lower-cased form get the same category |
| `Services.Contains` | app_melhorado_completo.py:25-27 | Python's `key in text` on strings; no contract of its own: ContainsIff states it |
| `Services.ContainsIff` | app_melhorado_completo.py:25-27 | the substring test holds exactly when the keyword occurs at some position of the text |
| `Services.BasicKeywordWins` | app_melhorado_completo.py:25-28 | a text with both a basic and an advanced keyword is basic mechanics: the first rule wins |
| `Services.ClassifyOilChange` | app_melhorado_completo.py:24-26 | "Troca de Óleo" is basic mechanics (capital T and Ó fold) |
| `Services.ClassifyEngine` | app_melhorado_completo.py:24-28 | "MOTOR" is advanced mechanics: it holds no basic keyword |
| `Services.LabelInjective` | app_melhorado_completo.py:26-30 | the three categories have three different labels |
| `Masks.Mask` | app_melhorado_completo.py:54 | a boolean mask keeps as many rows as it has true entries |
| `Masks.MaskSelects` | app_melhorado_completo.py:54-57 | row j of a masked table is the row at the j-th true position, positions increasing: the original order is kept |
| `Masks.MaskMembers` | app_melhorado_completo.py:54-57 | a row is in the masked table exactly when some row with a true mask entry holds it |
| `Masks.MaskAll` | app_melhorado_completo.py:59-65 | with every box ticked (the "select all" default) the active competitors are all the competitors |
| `Masks.TruesDisjoint` | app_melhorado_completo.py:78-79 | two masks never true at the same row select, together, at most all the rows |
| `Masks.TruesPartition` | app_melhorado_completo.py:77-79 | three masks of which exactly one is true at every row have true counts summing to the number of rows |
| `Masks.MaskAligned` | app_melhorado_completo.py:34-54 | one mask applied to two columns of a table keeps them aligned row by row |
| `Coverage.CategoryColumn` | app_melhorado_completo.py:34 | the column holds the classification of every client's service, row by row |
| `Coverage.DistanceColumn` | app_melhorado_completo.py:53-56 | the column holds the distance from the principal to every row's location |
| `Coverage.ClientsInRadius` | app_melhorado_completo.py:54 | the clients whose distance is at most the radius; no contract of its own: ClientsInRadiusSpec states it |
| `Coverage.ClientsInRadiusSpec` | app_melhorado_completo.py:53-54 | a client is kept exactly when its distance from the principal is at most the radius, the boundary included; row i survives exactly when that holds of row i |
| `Coverage.Competitors` | app_melhorado_completo.py:57 | the other-named workshops within the radius; no contract of its own: CompetitorsSpec states it |
| `Coverage.CompetitorsSpec` | app_melhorado_completo.py:56-57 | a workshop is a competitor exactly when its name differs from the principal's and its distance from the principal is at most the radius |
| `Coverage.SelectActive` | app_melhorado_completo.py:60-65 | the loop appends exactly the ticked competitors, in order: the result is the competitors under the checkbox mask |
| `Coverage.FirstMin` | app_melhorado_completo.py:73 | the position `min` picks has a minimal key and every earlier key is strictly larger |
| `Coverage.ChosenIsNearest` | app_melhorado_completo.py:69-73 | the candidate `min` returns is the option that serves the client, has no strictly closer serving option and has only strictly farther serving options before it |
| `Coverage.Closest` | app_melhorado_completo.py:69-73 | the serving option of least distance, if any; no contract of its own: ClosestSpec and ChosenIsNearest state it |
| `Coverage.ClosestSpec` | app_melhorado_completo.py:69-73 | no row is chosen exactly when no option lists the client's service; otherwise the chosen row is that nearest, earliest option |
| `Coverage.NearestAtUnique` | app_melhorado_completo.py:73 | at most one option is the nearest earliest one, so the tie-break determines the answer |
| `Coverage.NearestWorkshop` | app_melhorado_completo.py:68-73 | `oficina_mais_proxima`; no contract of its own: NearestWorkshopSpec and PrincipalWinsTies state it |
| `Coverage.NearestWorkshopSpec` | app_melhorado_completo.py:68-73 | the answer is "Não Atendido" exactly when neither the principal nor any active competitor lists the service; otherwise it is the name of the nearest, earliest serving option |
| `Coverage.PrincipalWinsTies` | app_melhorado_completo.py:69-73 | when the principal serves the client and no serving active competitor is strictly closer, the client goes to the principal |
| `Coverage.AssignmentExamples` | app_melhorado_completo.py:68-73 | with two workshops on a line, a client beside the principal goes to the principal, a client beside the competitor goes to the competitor, and a service neither lists is "Não Atendido" |
| `Coverage.NearestWorkshopAnswers` | app_melhorado_completo.py:68-73 | every answer is "Não Atendido", the principal's name or the name of an active competitor |
| `Coverage.AssignmentColumn` | app_melhorado_completo.py:75 | the column holds the nearest-workshop answer of every client in the radius, row by row |
| `Aggregation.TotalsOf` | app_melhorado_completo.py:77-79 | the three headline counts; no contract of its own: TotalsBound, TotalsComplete and TableMatchesTotals state it |
| `Aggregation.CategoryTable` | app_melhorado_completo.py:86-89 | the outer-joined category table; no contract of its own: TableRow, CategoryTableSpec and ColumnSumIsCount state it |
| `Aggregation.OccSum` | app_melhorado_completo.py:86 | the three category counts of a column add up to its length |
| `Aggregation.OccDisjointMasks` | app_melhorado_completo.py:87-88 | rows selected by two never-both-true masks are, per category, at most that category's rows |
| `Aggregation.CellIsCount` | app_melhorado_completo.py:86-89 | a filled cell of the joined table equals the category's count, 0 when the category is absent from that column |
| `Aggregation.OccMaskZero` | app_melhorado_completo.py:87-89 | a category's count among the selected rows is 0 exactly when no row of that category is selected |
| `Aggregation.TableRow` | app_melhorado_completo.py:86-89 | a category has a row exactly when some client in the radius has it, and the row holds its total, principal and competitor counts |
| `Aggregation.CategoryTableSpec` | app_melhorado_completo.py:86-89 | the rows are the categories of the clients in the radius; Total counts them; a Principal or Concorrentes cell is 0 exactly when no client of that category went there; Principal + Concorrentes is at most Total when the principal's name is not an active name |
| `Aggregation.CellOfColumn` | app_melhorado_completo.py:86-89 | for every category, present or not, a column's cell (0 without a row) is the number of that column's rows of the category |
| `Aggregation.ColumnSumIsCount` | app_melhorado_completo.py:86-89 | a column of the table summed over the categories is the number of rows that column counts |
| `Aggregation.TableMatchesTotals` | app_melhorado_completo.py:77-89 | the Total column sums to the number of clients in the radius, the Principal column to the principal's count and the Concorrentes column to the competitors' count |
| `Aggregation.TotalsComplete` | app_melhorado_completo.py:77-79 | when every entry is the sentinel, the principal's name or an active name, and the three are distinct, the principal's count, the competitors' count and the not-served count add up to the total: an unserved client counts for neither |
| `Aggregation.TotalsBound` | app_melhorado_completo.py:77-79 | the principal's count plus the competitors' count is at most the number of clients in the radius when the principal's name is not an active name, since no row is counted for both |
| `Simulation.Analyze` | app_melhorado_completo.py:34-89 | one whole run as a function; no contract of its own: AnalyzeSelections and AnalyzeCounts state it, and Simulate is proved equal to it |
| `Simulation.Simulate` | app_melhorado_completo.py:34-89 | the run performed step by step, columns and loop included, yields exactly the report `Analyze` describes |
| `Simulation.CategoriaAligned` | app_melhorado_completo.py:34-54 | after the radius filter, the category column is still each remaining client's classification |
| `Simulation.ActiveAreCompetitors` | app_melhorado_completo.py:57-66 | every active competitor is a competitor, so no active name is the principal's |
| `Simulation.AnalyzeComplete` | app_melhorado_completo.py:68-79 | in every run, the principal's count plus the competitors' count plus the number of "Não Atendido" entries is the number of clients in the radius |
| `Simulation.AnalyzeSelections` | app_melhorado_completo.py:53-75 | in a run the clients in the radius and the competitors are exactly those the filters describe, the active ones are competitors, and the category and assignment columns are aligned with the clients in the radius |
| `Simulation.CountsHold` | app_melhorado_completo.py:77-89 | over category and assignment columns aligned with the clients in the radius, the headline and table counts obey the bounds, the rows are the categories present and the columns sum to the headline counts |
| `Simulation.AnalyzeCounts` | app_melhorado_completo.py:77-89 | in every run the principal's plus the competitors' count is at most the clients in the radius, the same holds in every table row, the rows are the categories present, and the columns sum to the headline counts |

## Left out

- The Streamlit page, the sidebar widgets, the metrics, the table display and the informational message (app_melhorado_completo.py:9, 38-46, 59-63, 81-90, 102): presentation. The checkbox answers are the `ticked` parameter, one per workshop row as the widget key is; the radius is a parameter.
- The choice of region and the lookup of the principal row (app_melhorado_completo.py:39-50), the first row of the region with the selected name: the principal workshop is a parameter, and the "Selecione" empty state is not modelled.
- Reading the two CSV files (app_melhorado_completo.py:33, 35): I/O; the tables are parameters.
- The haversine formula (app_melhorado_completo.py:12-20): floating-point trigonometry; distance is the `Metric` parameter and reals stand for floats, so NaN and rounding are not modelled.
- `eval` of "servicos_realizados" (app_melhorado_completo.py:70): each workshop carries its parsed service list; a malformed literal, which would raise, is not modelled.
- The map, its markers, the circle and the heat map with its random sample (app_melhorado_completo.py:92-100): rendering and randomness.
- Missing values in the CSV columns (a NaN service would make `lower` raise): every field is a value of its type.
- pandas' behaviour of `apply` on a table with no rows is not modelled: the model gives an empty assignment column.
- The row order of the per-category table (from `value_counts` and `concat`): the table is a map from category to its row.
- Customer segments, a second-level service taxonomy and a centroid of several principals: not part of this script.
- Lower: folds only Basic Latin and Latin-1 capitals (A-Z, U+00C0..U+00DE except U+00D7); Python's `str.lower` also folds other scripts and maps a few characters to two.
- NearestWorkshopSpec: the "Não Atendido" equivalence is stated for options none of which is itself named "Não Atendido"; with such a name the answer of a served client equals the sentinel.
- AnalyzeComplete: stated for runs where neither the principal nor any workshop is named "Não Atendido"; with such a name a served client would be counted as not served too.
- TotalsBound and CategoryTableSpec: the bounds assume the principal's name is not an active competitor's name; AnalyzeCounts proves that every run meets this, because competitors are selected by a different name.
