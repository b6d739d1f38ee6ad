# Material usage reports and charts: a Dafny model of `modulo.py`

`modulo.py` loads three tables: clients, materials and construction
projects. It then does two things:

- It writes one usage report per material: total quantity, average
  quantity per project, and total cost.
- It asks the user whether to draw a chart. The chart is either quantity by
  material category (bar) or project participation by client city (pie).

This project models the in-memory layer between loading and output. Besides
a small module `Common` (`common.dfy`), which holds an `Option` type and two
facts about sequence prefixes used by the loop proofs, it has five modules,
and every module is verified:

- **`Tables`** (`tables.dfy`). The rows of the three tables, and the two
  dictionary comprehensions that index clients and materials by id.
  `IndexBy` is the generic comprehension. When two rows share a key, the
  later row wins.
- **`Tallies`** (`tallies.dfy`). An insertion-ordered dictionary
  `Tally(labels, counts)`. It behaves as a Python `dict` does for the two
  aggregators:
  - `Touch` is `if k not in d: d[k] = 0`;
  - `Add` is `d[k] += x`;
  - `Valid` is the invariant that the ordered key list and the map agree;
  - `Total` is the sum of the values.
- **`MaterialReport`** (`material_report.dfy`).
  - The accumulation loop of `create_folders_and_files` is the method
    `AggregateMaterial`. It is proved equal to the specification function
    `Summarize`.
  - The whole report run is `CreateReports`. It returns the summaries in
    table order and the report directory. The directory is a map from
    material name to the summary last written under that name.
- **`Charts`** (`charts.dfy`). The two chart series.
  - `CategoryQuantities` is the nested loop of `plot_bar_chart`.
  - `CityParticipation` is the loop of `plot_pie_chart`.
  - Both update a `Tally` step by step. They are proved against the
    recursive functions `CategoryTotal` / `UsageTotal` and `CityCount`.
- **`GraphMenu`** (`graph_menu.dfy`). `show_graph_menu` as a recursive
  function over the lines the user types.
  - `Strip` is `str.strip()`, with Python's whitespace set.
  - `Lower` is `str.lower()` on A-Z.
  - `ShowGraphMenu` returns:
    - whether the graph folder was created;
    - which chart, if any, was saved;
    - how many lines were read;
    - or `EndOfInput` when the lines run out. The script would stop there
      with an end-of-file error.

The two chart functions read the globals `materials`, `projects` and
`clients_dict` in `modulo.py`. Here these are parameters.

The asymmetry of the menu is kept as the code has it:

- an answer other than yes/no asks the question again, by recursion;
- a chart option other than "1" or "2" saves no chart and is not asked
  again. The graph folder has already been created at that point.

The yes/no answer is compared after `strip().lower()`, so " YES " counts as
yes. The chart option is only stripped, not lowered.

## Model

| member | source | states |
|---|---|---|
| Tables.IndexBy | modulo.py:154-155 | a key is in the index exactly when some row carries it, and it maps to a row of the table that carries that key |
| Tables.IndexByLastWins | modulo.py:154-155 | a row with no later row sharing its key is the row the index keeps for that key, so duplicates resolve last-write-wins |
| Tables.ClientIndex | modulo.py:154 | `clients_dict` has exactly the client ids as keys; the row under an id is a client row with that id, and of several clients with one id it is the last |
| Tables.MaterialIndex | modulo.py:155 | `materials_dict` has exactly the material ids as keys; the row under an id is a material row with that id, and of several materials with one id it is the last |
| Tallies.FirstSeen | modulo.py:68-69 | the keys of a dict filled by "insert if absent" are the distinct labels met, and every label met is among them |
| Tallies.FirstSeenOrder | modulo.py:68-69 | those keys are in the order in which each label first occurs |
| Tallies.Tally.Touch | modulo.py:68-69 | inserting a missing key with 0 appends it to the key order and keeps the other entries and the sum; a present key leaves the dict unchanged |
| Tallies.Tally.Add | modulo.py:72 | `d[k] += delta` changes only k's entry, keeps the keys and their order, and adds delta to the sum of the values |
| MaterialReport.AggregateMaterial | modulo.py:34-44 | the accumulator loop computes total quantity, total cost, match count and guarded average of the projects matching the material, as `Summarize` defines them |
| MaterialReport.MatchingMembers | modulo.py:37-38 | a project takes part in a material's totals exactly when its "ID Material" equals the material's "ID" |
| MaterialReport.MatchingMultiplicity | modulo.py:37-38 | each matching project is counted as many times as it is listed, and other projects not at all |
| MaterialReport.CountIsMatchingProjects | modulo.py:36-42 | `count` is the number of table positions whose project references the material |
| MaterialReport.CostSumScales | modulo.py:40-41 | the summed costs of a list of projects equal their summed quantity times the unit value |
| MaterialReport.TotalCostIsQuantityTimesUnitValue | modulo.py:26-41 | with exact arithmetic, `total_cost` is `total_quantity * unit_value` because the unit value is fixed per material |
| MaterialReport.AverageIsWellDefined | modulo.py:44 | with matches, average times count is the total quantity; without matches, total, cost and average are all 0 (no division by zero) |
| MaterialReport.UnusedMaterialReportsZero | modulo.py:34-44 | a material that no project references reports total 0, cost 0, count 0 and average 0 |
| MaterialReport.TotalsAdditive | modulo.py:37-42 | splitting the projects table into two parts adds up the totals and the counts of the two parts |
| MaterialReport.OtherMaterialIgnored | modulo.py:37-42 | removing a project of another material leaves the report unchanged |
| MaterialReport.WrittenReportsNames | modulo.py:23-29 | the report directory holds one report per distinct material name and nothing else |
| MaterialReport.WrittenReportOfLastMaterial | modulo.py:47-51 | the file under a name holds the summary of the last material with that name |
| MaterialReport.CreateReports | modulo.py:23-51 | one summary per material in table order, and the report directory afterwards is the old one with every material's file (re)written |
| Charts.CategoriesMembers | modulo.py:65-69 | the categories met are exactly the "Categoria" values of the materials |
| Charts.CategoryQuantities | modulo.py:64-72 | the category dict has a key for every material's category and no other, in first-seen order; each value is the category's summed usage, and all values add up to the total usage |
| Charts.CategoryTotalAbsent | modulo.py:64-72 | a category no material carries has total 0 |
| Charts.UnusedCategoryIsZero | modulo.py:68-72 | a category whose materials no project references still has total 0 |
| Charts.CityOf | modulo.py:95 | a project whose client is in the index with a city is counted under that city; any other name than "Unknown" is the indexed client's city |
| Charts.CityOfClient | modulo.py:95 | through `clients_dict`, a project's city is the "Ciudad" of the last client row with its client id, or "Unknown" if that row has no city |
| Charts.CityOfMissingClient | modulo.py:95 | a project whose client id is in no client row is counted under "Unknown" |
| Charts.CitiesMembers | modulo.py:93-96 | the cities met are exactly the cities the projects resolve to |
| Charts.CityParticipation | modulo.py:92-98 | the city dict lists each resolved city once in first-seen order, each project's city is a key, each value is the city's project count and at least 1, and the values add up to the number of projects |
| Charts.CityCountAbsent | modulo.py:93-98 | a city no project resolves to has count 0 |
| Charts.UnknownCollectsUnresolved | modulo.py:95 | every project whose client is missing or has no "Ciudad" is counted under "Unknown"; no other project is, unless some client's city is literally "Unknown" |
| GraphMenu.Strip | modulo.py:119 | `str.strip()` returns text that neither starts nor ends with whitespace and is no longer than the reply |
| GraphMenu.TrimStartRemovesSpace | modulo.py:119 | left stripping removes a run of whitespace at the front and nothing else |
| GraphMenu.TrimEndRemovesSpace | modulo.py:119 | right stripping removes a run of whitespace at the back and nothing else |
| GraphMenu.StripRemovesSpace | modulo.py:119 | `strip()` keeps a middle part of the reply and removes only whitespace around it |
| GraphMenu.StripPadded | modulo.py:119 | text without outer whitespace comes back from `strip()` unchanged, however much whitespace surrounds it |
| GraphMenu.StripIdempotent | modulo.py:126 | stripping a stripped reply changes nothing |
| GraphMenu.Lower | modulo.py:119 | `str.lower()` keeps the length and lowers each character on its own, A-Z to a-z |
| GraphMenu.Classify | modulo.py:119-136 | a reply is yes exactly when its stripped text spells "yes" in any mix of cases, no exactly when it spells "no" so, and invalid otherwise |
| GraphMenu.YesInAnyCase | modulo.py:119-121 | the first answer counts as yes exactly when its stripped text is "yes" in any mix of cases |
| GraphMenu.NoInAnyCase | modulo.py:119-136 | the first answer counts as no exactly when its stripped text is "no" in any mix of cases |
| GraphMenu.ChartFor | modulo.py:128-135 | option "1" saves the bar chart, "2" the pie chart, and anything else none |
| GraphMenu.ShowGraphMenu | modulo.py:118-140 | a finished menu has read at least one line and no more lines than were typed; after "no", no chart is saved |
| GraphMenu.MenuDecidedByFirstAnswer | modulo.py:119-140 | the first yes/no answer settles the menu. Earlier invalid answers are each asked again. "no" creates nothing. "yes" creates the graph folder and saves the chart the next line selects, even when that line selects nothing; with no next line, input ends |
| GraphMenu.MenuWithoutAnswer | modulo.py:136-140 | if no reply is yes or no, the question is asked again until the input runs out |
| GraphMenu.MenuIgnoresLaterLines | modulo.py:119-140 | once the menu has decided, further typed lines are not read and change nothing |

## Left out

- Reading the CSV files (`read_csv`, `csv.DictReader`) and the hard-coded
  paths: each table is given as a sequence of rows in file order.
- A missing column (`KeyError` on `row["..."]`): rows are typed records
  with the columns present. The one optional column, the client's
  "Ciudad", is an `Option`.
- Short CSV rows are not represented. `csv.DictReader` gives the missing
  fields of such a row the value `None`. A client row without its "Ciudad"
  field therefore has that key with value `None`, and its projects are
  counted under `None`, not under "Unknown". A blank "Ciudad" cell is the
  empty text and is counted under `""`, not "Unknown". The model covers
  this as `Some("")`.
- Empty tables: `modulo.py` prints the keys of the first row of each table
  before it does anything else, so an empty table stops the script with an
  `IndexError`. The model's results for empty tables, such as a report of
  zeros when there are no projects, hold for the functions but are never
  reached by the script.
- `int(...)` and `float(...)` parsing failures: quantities arrive as
  integers and unit values as numbers.
- Floating point: cost and average are exact reals. This idealises Python
  floats, including their rounding.
- The `:.2f` formatting of the report lines.
- Folder and file creation (`os.mkdir`, `os.path.exists`, `open`/`write`):
  the report directory is a map from material name to the summary written
  there. In the menu, the graph folder is a boolean.
- All plotting with matplotlib: the chart functions return the dictionary
  that would be plotted.
- `print` diagnostics and `input()`:
  - the user's replies are a list of lines;
  - running out of lines is `EndOfInput`;
  - status messages are not modelled.
- `str.lower()` is modelled on A-Z only. For the comparison with "yes" and
  "no" this loses nothing: no other character lowers to one of those letters.
- Python's recursion limit on very many invalid yes/no answers: the model's
  recursion is unbounded.
- `materials_dict` is built in `modulo.py` but never used afterwards. It
  is modelled as an index only (`Tables.MaterialIndex`).
- GraphMenu.ShowGraphMenu: its own contract states only bounds. The full
  behaviour is stated by `MenuDecidedByFirstAnswer` and `MenuWithoutAnswer`.
  Between them, they cover every list of replies.
