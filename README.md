# Cluster cost breakdown — a Dafny model of the billing core

The application (`app.py`) takes cloud billing exports as CSV files. It turns each
export into one cost line per RAM-hours record and shows the results in four places:

- a dashboard with yearly totals by deployment and by provider;
- a per-deployment report with hourly, daily and yearly totals;
- a page listing the deployments of an upload;
- a list of uploads, newest first.

This project models that core in Dafny and proves what each step promises.

Data flows as follows:

- **Frame** (`frame.dfy`): what `pd.read_csv` delivers.
  - Column names with their white space trimmed (`str.strip`).
  - Records of text cells, where `None` stands for a NaN cell.
  - Named-column lookup, and `df[mask]` as "the kept records, in order".
- **Text** and **Numbers** (`text.dfy`, `numbers.dfy`): the Python and pandas primitives the pipeline relies on.
  - `str.strip`, `str.lower`, and `str.split` with and without `maxsplit`.
  - `pd.to_numeric(errors='coerce').fillna(0)`.
  - `astype(int)`, which truncates toward zero.
  - NumPy's round-half-to-even, as in `round(0)` and `round(2)`.
- **Normalize** (`normalize.dfy`): `_get_full_parsed_df`, in two forms. `ParseBilling` is the specification as a function. `GetFullParsedDf` is the step-by-step method, proved equal to it. The steps:
  - resolve the deployment column among the aliases `Deployment name`, `Cluster Name`, `Cluster`, `ClusterName`, falling back to `Unknown`;
  - split `SKU Name` on `_` into Tier, SKU_Code_Full, Region, Size_MB and Nodes;
  - split SKU_Code_Full on `.` into Provider, Edition and SKU Code;
  - apply the size and node rule;
  - filter to usage type "ram hours";
  - compute costs per hour, day and year;
  - project onto the preferred column order.
- **Report** (`report.dfy`): the `report` handler.
  - Filters to the requested deployment *before* normalising.
  - Requires a `Total` column.
  - Sums the three cost columns.
  - Emits no deployment column.
- **Dashboard** (`dashboard.dfy`): the KPIs of the `dashboard` handler.
  - `groupby(...).sum().round(2)`, keeping groups above zero, by deployment and by provider.
- **Selection** (`selection.dfy`): `select_deployment`.
  - The distinct non-NaN deployment names in order of first appearance.
  - Falls back to a single `All Data` entry.
- **Uploads** (`uploads.dfy`): the `display_name` written by `upload_file`, and the newest-first order of `list_uploads`.

## How the code differs from its documented design

The model follows the code wherever the two differ.

- **Missing columns.** The design says a missing column never fails a request. In the code:
  - a missing `Usage type` column fails, because `df.get` then returns the string `'Unknown'`, which has no `astype`;
  - so does a missing `Unit price` column;
  - in the report, so does a missing `Total` column.

  The model returns `Err(MissingColumn(..))` in these cases, in the order the code meets them.
- **Provider and Edition defaults.** The design says Provider and Edition default to `Unknown`. The code's `sku_parts.get(i, 'Unknown')` gives the default only when the whole split lacks column `i`:
  - Provider is `Unknown` only for a table with no records;
  - Edition is `Unknown` only when no record's code holds a dot;
  - otherwise a record without that segment gets NaN.
- **Empty SKU Code.** The design says an empty SKU Code becomes `Unknown`. The code keeps the empty string: `"a.b."` gives SKU Code `""`.
- **Component of a NaN cell.** A NaN `Usage type` cell reads `"nan"`, because `astype(str)` runs before `fillna`. The row is dropped either way.
- **Top-5 series.** The design describes a "top 5 + Others" dashboard series. The code has no such mode; the model emits every group above zero.

## Model

| member | source | states |
|---|---|---|
| Text.Strip | app.py:40 | The result is the infix of the input left after removing leading and trailing Python white space. It neither starts nor ends with white space. |
| Text.SplitN | app.py:53 | `split(sep, n)` gives at most n+1 parts, which join back to the input. Only the last part may contain the separator, and only when there are n+1 parts. |
| Text.SplitNShort | app.py:53 | With at most n+1 pieces, the bounded split equals the full split. |
| Text.SplitNLong | app.py:53 | With more pieces, the bounded split has n+1 of them, and its first n are those of the full split. |
| Text.Split | app.py:61 | `split(sep)` gives at least one part. The parts join back to the input, and none contains the separator. |
| Text.SplitJoin | app.py:61 | Splitting parts joined by a separator they do not contain gives the parts back. |
| Text.Lower | app.py:87 | Lower-casing keeps the length and maps each character on its own. |
| Text.LessTotal | app.py:131 | String order is total: two strings are equal or one is less. |
| Text.LessTransitive | app.py:216-220 | String order is transitive. |
| Numbers.ParseDigits | app.py:66-67 | A decimal numeral parses to its value, with or without a minus sign. A numeric cell reads as that value. |
| Numbers.ParseDecimal | app.py:89 | Any numeral `whole.frac` of digits, with either side possibly empty but not both, reads as the value of its whole digits plus the value of its fraction digits over ten to their count. Leading zeros count, so `0.05` reads as 5/100 and `.5` as 5/10. |
| Numbers.Trunc | app.py:67 | `astype(int)` truncates toward zero for both signs. |
| Numbers.RoundHalfEven | app.py:75 | `round(0)` is within one half of the input, and a tie goes to the even neighbour. |
| Numbers.Round2 | app.py:131 | `round(2)` is within 0.005 of the input and has at most two decimals. |
| Frame.Columns | app.py:40 | Each column name is trimmed of white space. The column count is unchanged. |
| Frame.CellOf | app.py:49 | A column lookup gives the record's cell under the first column of that name. An absent column gives NaN. |
| Frame.KeptIndices | app.py:87 | The kept positions are strictly increasing. They are exactly the records the mask accepts. |
| Frame.SurvivorsAreSelection | app.py:87 | `df[mask]` followed by a per-record derivation yields one result per kept record, in the original order. |
| Normalize.DeploymentColumn | app.py:43-44 | The chosen column is an alias present among the headers. There is none exactly when no alias is present. |
| Normalize.DeploymentResolution | app.py:43-44 | The first alias present, in priority order, is the one chosen. |
| Normalize.DeploymentOf | app.py:45-49 | The deployment cell copies the chosen alias column, or is `Unknown` when no alias exists. |
| Normalize.SplitSku | app.py:53-58 | A NaN SKU name gives five NaN fields. A text one always has a Tier. The fields are filled left to right, so a later field is present only when every earlier one is. Tier, SKU_Code_Full, Region and Size_MB never hold `_`. |
| Normalize.SkuRoundTrip | app.py:53-58 | A SKU name built from five fields splits back into those fields. Extra underscores stay in Nodes. |
| Normalize.SkuShortName | app.py:53-58 | Any SKU name with at most three underscores gives the pieces of its plain `_` split as Tier, SKU_Code_Full, Region and Size_MB, with NaN for the pieces it lacks. Nodes is always NaN. |
| Normalize.SegmentCount | app.py:61 | A code yields at least one column, and two or more exactly when it holds a dot. |
| Normalize.SkuWidthMeaning | app.py:61-63 | The expanded split has a column exactly when there are records. It has a second column exactly when some record's code holds a dot. |
| Normalize.Provider | app.py:61-62 | Without any split column, Provider is `Unknown`. Otherwise it is NaN exactly when the code is NaN, and else a dot-free prefix of the code. |
| Normalize.Edition | app.py:61-63 | With fewer than two split columns, Edition is `Unknown`. Otherwise it is present exactly when the code holds a dot, and it holds no dot. |
| Normalize.SkuCode | app.py:64 | SKU Code is never NaN. A code with fewer than two dots, and a NaN code, give `Unknown`. Any other value is a proper suffix of the code. |
| Normalize.ProviderDefault | app.py:61-62 | In a table with records, Provider is each record's first segment, or NaN for a record without a code; never `Unknown`. |
| Normalize.EditionUnknown | app.py:61-63 | When no record's code holds a dot, Edition is `Unknown` for every record. |
| Normalize.EditionSegment | app.py:61-63 | Once some record's code holds a dot, Edition is each record's second segment, or NaN for a record without one. |
| Normalize.SkuCodeRoundTrip | app.py:61-64 | For `provider.edition.code`, the three fields come back, with further dots kept in the code. |
| Normalize.SkuCodeShort | app.py:62-64 | With fewer than two dots, SKU Code is `Unknown`. A code without a dot has a NaN Edition once the split has two columns. |
| Normalize.NodeCount | app.py:67 | A NaN or non-numeric Nodes cell gives 0 nodes. A non-negative number gives its integer part: the count is at most the number and more than the number minus one. |
| Normalize.SizeGB | app.py:66-75 | Size in GB is within one half of Size_MB/1024, divided by the node count when that exceeds 64 GB and there are nodes. |
| Normalize.SizePerNodeExample | app.py:66-75 | 131072 MB on 4 nodes gives 32 GB. |
| Normalize.SizeNotDividedExample | app.py:69-73 | 32768 MB on 0 nodes stays 32 GB. Exactly 64 GB is not divided. |
| Normalize.Component | app.py:86 | The component is the stripped usage type, with no white space at either end and no longer than the cell. A NaN cell gives at most the three characters of `nan`. |
| Normalize.Kept | app.py:86-87 | A kept record has a `Usage type` column, and its usage cell is not NaN. |
| Normalize.RamHoursSpellings | app.py:86-87 | Any usage type that lower-cases to `ram hours` passes the filter, whatever its letter case. |
| Normalize.RamHoursPadded | app.py:86-87 | Any letter-case spelling of `ram hours`, with any run of white space before and after it, passes the usage filter. |
| Normalize.OtherUsageDropped | app.py:86-87 | The usage type `CPU Hours` is dropped, and so is a NaN usage type. |
| Normalize.LineOf | app.py:52-91 | Cost per day is 24 times cost per hour, and per year 365 times per day. Cost per hour is the numeric Unit price. Without `SKU Name`, the SKU fields are `Unknown` and the size and nodes are 0. With it, they come from the split. |
| Normalize.CostExample | app.py:89-91 | A Unit price of `2.5` gives costs of 2.5 per hour, 60 per day and 21900 per year. |
| Normalize.Project | app.py:98 | The projection holds exactly the preferred names that are present, and is no longer than the preferred list. When every preferred name is present, it is the preferred list. |
| Normalize.ProjectSelection | app.py:98 | The projection lists the present names in the preferred order: its j-th name is the preferred name at the j-th present position, and these positions strictly increase. No name is added, dropped or repeated. |
| Normalize.ParseBilling | app.py:30-100 | A missing `Usage type` column fails first, then a missing `Unit price` column. Otherwise the parse succeeds. |
| Normalize.ParsedColumns | app.py:93-100 | A successful parse has exactly the eleven preferred columns, in order. |
| Normalize.ParsedRows | app.py:85-91 | The output rows are exactly the RAM-hours records, in order. Each carries its resolved deployment and derived cost line. |
| Normalize.MeasureSkuWidth | app.py:61 | The loop computes the column count of the expanded split. |
| Normalize.DeriveRows | app.py:86-91 | The loop computes the filtered, derived rows. |
| Normalize.GetFullParsedDf | app.py:30-100 | The step-by-step pipeline equals `ParseBilling`. |
| Report.DeploymentRecords | app.py:267-268 | Filtering never adds records. Without the column, every record stays. With it, every remaining record comes from the input and holds the requested deployment in that column. |
| Report.Total | app.py:310-314 | The sum over no lines is 0. When every line's cost is non-negative, so is the sum. |
| Report.DeploymentFilter | app.py:267-268 | With the column present, exactly the records equal to the requested deployment remain, in order. Without it, nothing is filtered. |
| Report.ReportFor | app.py:256-323 | Errors come in the order Usage type, Unit price, Total. Otherwise the report succeeds. |
| Report.ReportColumns | app.py:316-323 | A report has the ten preferred columns, and never a deployment column. |
| Report.ReportOrderLacksDeployment | app.py:316-320 | The report's preferred column order holds no `Deployment name`. |
| Report.ReportProjection | app.py:322 | All ten preferred report columns are always present. |
| Report.ReportTotals | app.py:310-314 | The hourly total is the sum of the rows. The daily total is 24 times it, and the yearly total 365 times the daily. |
| Report.LinesConsistent | app.py:304-306 | Every derived report line costs 24 times its hourly cost per day, and 365 times that per year. |
| Report.TotalsScale | app.py:306-314 | Summing commutes with the fixed day and year factors. |
| Report.ReportMatchesFullParse | app.py:267-308 | When the filter column is absent, the report's rows are the cost lines of the full parse. |
| Report.FilterDeployment | app.py:267-268 | The loop computes the deployment filter. |
| Report.DeriveLines | app.py:302-307 | The loop computes the filtered cost lines. |
| Report.SumTotals | app.py:310-314 | The loop computes the three totals. |
| Report.Report | app.py:256-323 | The step-by-step handler equals `ReportFor`. |
| Dashboard.Labels | app.py:131 | Group labels are the distinct non-NaN keys, in strictly ascending order. |
| Dashboard.Series | app.py:131-140 | Labels ascend, and each value is its group's rounded sum and above zero. Every group whose rounded sum is above zero is included. |
| Dashboard.PositiveComplete | app.py:132 | The filter drops only groups at or below zero. |
| Dashboard.PositiveAscending | app.py:131-133 | Filtering keeps the labels in ascending order. |
| Dashboard.DashboardFor | app.py:128-140 | Both chart series have strictly ascending labels. Every value shown is above zero. Every deployment label is the deployment of some row, and every provider label the provider of some row. |
| Dashboard.GroupsPartitionTotal | app.py:128-131 | The group sums plus the costs of NaN-keyed rows equal the total. |
| Dashboard.DashboardTotal | app.py:128-131 | The dashboard's total is made up of the deployment groups plus the rows whose deployment is NaN. |
| Selection.Distinct | app.py:244 | The values are non-NaN and free of duplicates. They are exactly the non-NaN cells. |
| Selection.DistinctOrder | app.py:244 | Values are listed in the order of their first appearance. |
| Selection.SelectDeployment | app.py:236-244 | The first alias present supplies the names. Without one, the column is `__Default_Deployment__` and the list is `All Data`, or empty for an empty file. |
| Selection.FallbackColumn | app.py:241-244 | A column filled with `All Data` yields one name, or none for no records. |
| Selection.OfferedDeploymentsHaveRecords | app.py:236-244 | Every listed deployment selects at least one record in the report's filter. |
| Uploads.FirstDateFrom | app.py:182 | The search finds the leftmost `\d{4}-\d{2}-\d{2}` match, or reports that there is none. |
| Uploads.ExtractedDate | app.py:182-183 | The extracted date is the leftmost date-shaped substring, or `NoDate` when there is none. |
| Uploads.DisplayName | app.py:182-185 | The display name starts with the account name and `_`. The rest is `NoDate` or a `dddd-dd-dd` date. |
| Uploads.DisplayNameParts | app.py:182-185 | The display name is the account name, `_`, then an underscore-free date part. That part is `NoDate` exactly when the file name holds no date. |
| Uploads.DateAfterPlainPrefix | app.py:182-183 | After a digit-free prefix, the first date-shaped text is the extracted date, whatever follows. |
| Uploads.DatedFileName | app.py:182-185 | `usage_2024-03-15.csv` uploaded by `acme` is shown as `acme_2024-03-15`. |
| Uploads.LongYear | app.py:182-183 | A five-digit year matches from its second digit on. |
| Uploads.SortByUploadTime | app.py:216-220 | The sort keeps the number of entities. Its order and contents are stated by the three lemmas below. |
| Uploads.SortedDescending | app.py:216-220 | The upload list is in descending timestamp order, with a missing timestamp reading as `''`. |
| Uploads.SortedPermutation | app.py:216-220 | The sort neither drops nor duplicates an entity. |
| Uploads.SortedStable | app.py:216-220 | Entities with equal timestamps keep their table order. |

## Left out

- **Environment.** The Flask routing, templates and HTTP status pages are not modelled. Neither are the Azure Blob and Table clients (download, upload, `get_entity`, `upsert_entity` with merge semantics, and a failing `list_entities` giving an empty list) or the `print` logging. Each handler starts from the parsed table or the entity list.
- **Time.** `datetime.utcnow()` is not read. The upload timestamp is simply the entity's stored string.
- **Display-name lookup.** The dashboard and report look up the stored display name with their own defaults. This lookup is I/O and is not modelled.
- **CSV parsing.** `pd.read_csv` tokenisation and dtype inference are not modelled; every cell is text or NaN. As a result:
  - a numeric deployment column, which never equals the requested string in the real report, matches here like text;
  - an all-NaN or numeric `SKU Name` column, on which `.str` raises in the source, is treated as text here.
- **Duplicate column names.** After trimming, the first of two equal column names wins. When `pd.concat` duplicates a column (an input already holding `Tier` or `Region`), the derived value wins.
- **Numbers.** Costs are exact reals, not IEEE doubles. The numeric grammar is an optional sign, digits and an optional decimal point; exponents, `inf`, `nan` and surrounding spaces are not accepted.
- **Character classes.** `str.lower` is modelled for ASCII letters only. The regular expression's `\d` is modelled as ASCII digits, although Python also accepts other Unicode digits.
- **Report's `Total Cost (Period)` column.** Its values are never shown; only the error raised when `Total` is missing is modelled.
- Report.ReportFor: does not model the report's display name or the rendering of the rows.
- Dashboard.Series: the sums are exact, so a group whose floating-point sum differs from the exact one in the last bit is not distinguished.
