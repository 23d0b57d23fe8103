# pi_mlops content-based game recommender, modelled in Dafny

This project models the core of a content-based recommender for Steam games. It proves properties of that model.

**Feature encoding** (`functions/preprocessing.py`) turns each game row into a 0/1 feature vector:

- the raw `price` is normalised by `float_prices`;
- missing prices are filled with the median;
- release years and prices are binned into labelled periods and cost bands, then one-hot encoded;
- the `genres` and `specs` lists are multi-hot encoded over their vocabularies, the distinct tokens in first-seen order.

**Similarity ranking** (`functions/recomender.py`): the class `CosSimComputer` holds three things:

- the feature matrix;
- the `item_id`/`app_name` table;
- a current basis vector, which every query resets.

A query drops the basis rows, scores every other row against the basis and keeps the `n` best.

**Record flattening** (`functions/ETL.py`, duplicated verbatim in `functions/functions.py`):

- `json_unpacking` turns rows holding lists of dicts into one flat record per inner dict;
- `load_dfs` strips the `../` prefix from its data paths when called from the project root.

Modules:

| file | module | models |
|---|---|---|
| Wrappers.dfy | Wrappers | `Option` and `Result` |
| PriceParsing.dfy | PriceParsing | `float_prices` (both copies): `float()` on decimal text, `round(x, 2)` as half-to-even on exact decimals, the `\B[$]\d*[.]\d*` search |
| Frames.dfy | Frames | tables as sequences of named, typed columns; the `Frame` class that steps update in place |
| Vocabulary.dfy | Vocabulary | `genres_unpacking`, `specs_unpacking`, `Series.unique` |
| Binning.dfy | Binning | `_year_binning`, `_price_binning`, `Series.map(na_action='ignore')`, the one-hot columns `get_dummies(prefix='')` makes |
| Vectors.dfy | Vectors | sums and dot products of integer rows |
| Dummies.dfy | Dummies | `_genres_dummies`, `_specs_dummies`, `genres_dummies`, `specs_dummies` |
| Stats.dfy | Stats | `Series.median` and `fillna` |
| Preprocessing.dfy | Preprocessing | `year_binning`, `price_binning`, `preprocess_games` |
| Recommender.dfy | Recommender | `CosSimComputer`, `cosine_similarity` on one pair of rows, `Series.nlargest` |
| Etl.dfy | Etl | `json_unpacking`, the path rewrite of `load_dfs` |

Four behaviours of the code are easy to miss, and the model keeps them:

- An unknown id does not raise a dedicated not-found error. The basis is then empty, and `cosine_similarity` refuses it (`NoFeatures`). An id held by two rows gives a basis twice as wide as a row, which is refused too (`ShapeMismatch`).
- A table whose only row is the queried item does not give an empty answer. pandas is left an empty frame to rank and the call fails (`NothingToRank`).
- The basis is a field of the shared computer object that every query overwrites, not a value local to the query.
- `float_prices` can raise: on text whose first match is the bare `$.`, `float('')` raises `ValueError`, and `preprocess_games` then fails (`PriceFailure`).

## Model

| member | source | states |
|---|---|---|
| PriceParsing.FallbackChain | functions/preprocessing.py:18-38 | `None` gives NaN. A number, or text that `float()` accepts, gives `c` cents exactly when `c` is within half a cent of the value and even on an exact tie (`round(x, 2)`, half to even); the text search is not consulted. Text with no match anywhere gives 0 |
| PriceParsing.PresentNeverNaN | functions/functions.py:142-166 | For the duplicate `float_prices`, within the modelled `float()` grammar (no `nan`/`inf` text): a present value never yields NaN. It fails exactly when the text is unconvertible and its first match is the bare `$.` |
| PriceParsing.FirstDollarAmount | functions/preprocessing.py:28-36 | Unconvertible text whose leftmost match is `$a.f` yields `a.f`, without the `$`, rounded to cents. The bare `$.` raises |
| PriceParsing.SearchDollar | functions/functions.py:157 | `re.search` returns the leftmost position where the pattern matches, and None only when it matches nowhere |
| PriceParsing.ParsePointed | functions/preprocessing.py:23 | `float()` accepts `a.f` for digit strings `a`, `f` that are not both empty. Its value is `a + f/10^len(f)` |
| PriceParsing.RoundCents | functions/preprocessing.py:23 | `round(x, 2)` in cents: within half a cent of `x`, and even on an exact tie |
| PriceParsing.RoundCentsUnique | functions/functions.py:147 | Those two conditions determine the rounded cents uniquely |
| PriceParsing.BareDotRejected | functions/functions.py:162 | The text after the `$` of the match `$.` is not accepted by `float()` |
| Vocabulary.Unpacking | functions/preprocessing.py:53-67 | The unpacking loop returns every token of every non-`'Empty'` list, in row then token order. With `get_unique` it is deduplicated |
| Vocabulary.GenresUnpacking | functions/preprocessing.py:41-67 | `genres_unpacking` is the unpacking of the `genres` column |
| Vocabulary.SpecsUnpacking | functions/preprocessing.py:70-99 | `specs_unpacking` is the unpacking of the `specs` column |
| Vocabulary.FlattenLength | functions/preprocessing.py:55-59 | Without deduplication the length is the sum of the non-`'Empty'` list lengths |
| Vocabulary.FlattenMembers | functions/preprocessing.py:86-90 | A token is extracted exactly when some non-`'Empty'` cell lists it |
| Vocabulary.Unique | functions/preprocessing.py:93-94 | `unique()` has no repeats, the same members as its input, and is no longer |
| Vocabulary.UniqueFirstSeenOrder | functions/preprocessing.py:62-66 | The distinct tokens appear in order of first appearance |
| Vocabulary.FirstSeenExample | functions/preprocessing.py:63 | `[[A, B], 'Empty', [B, C]]` gives `[A, B, C]`: first-seen order, not sorted |
| Binning.YearBin | functions/preprocessing.py:103-114 | Total and exclusive: `< 2000`, `[2000, 2010)`, `>= 2010` map to the three period labels, each exactly on its interval |
| Binning.PriceBin | functions/preprocessing.py:149-157 | Total and exclusive: `< 5`, `[5, 30)`, `[30, 60)`, `>= 60` map to the four cost labels, each exactly on its interval |
| Binning.YearBinMonotone | functions/preprocessing.py:109-114 | A later year never falls in an earlier period |
| Binning.PriceBinMonotone | functions/preprocessing.py:150-157 | A higher price never falls in a cheaper band |
| Binning.MapYearBins | functions/preprocessing.py:135 | Same length. A missing year stays missing, and a present one gets its bin |
| Binning.MapPriceBins | functions/preprocessing.py:177 | Same length. A missing price stays missing, and a present one gets its bin |
| Binning.YearOneHot | functions/preprocessing.py:143 | A year label sets exactly its own dummy column. A missing one sets none |
| Binning.PriceOneHot | functions/preprocessing.py:185 | A price label sets exactly its own dummy column. A missing one sets none |
| Binning.YearColumnsAre | functions/preprocessing.py:143 | The year dummy columns are `_` followed by the label, in sorted order |
| Binning.YearColumnsSorted | functions/preprocessing.py:143 | The year dummy column names strictly increase |
| Binning.PriceColumnsAre | functions/preprocessing.py:185 | The price dummy columns are `_` followed by the label, in sorted order |
| Binning.PriceColumnsSorted | functions/preprocessing.py:185 | The price dummy column names strictly increase |
| Dummies.DummiesRow | functions/preprocessing.py:203-215 | The zero array with `row[pos] = 1` set in the loop is the multi-hot row: as long as the vocabulary, 1 exactly where the list holds the token |
| Dummies.GenresDummiesRow | functions/preprocessing.py:193-215 | `_genres_dummies` is the multi-hot row of the cell |
| Dummies.SpecsDummiesRow | functions/preprocessing.py:243-254 | `_specs_dummies` is the multi-hot row of the cell |
| Dummies.MultiHotBinary | functions/preprocessing.py:203-207 | Only 0/1 entries appear, and `'Empty'` gives the zero row |
| Dummies.DecodeMultiHot | functions/preprocessing.py:210-213 | The 1 entries decode to exactly the listed tokens the vocabulary knows |
| Dummies.DotMultiHot | functions/preprocessing.py:250-253 | The dot product of two rows counts the vocabulary tokens both lists hold |
| Dummies.SumMultiHot | functions/preprocessing.py:210-213 | The ones of a row count the distinct listed tokens |
| Dummies.DummiesBlock | functions/preprocessing.py:227-230 | One row per cell, each as wide as the vocabulary |
| Dummies.BlockRoundTrip | functions/preprocessing.py:224-230 | The columns are distinct, and every row decodes back to exactly the tokens of its cell |
| Dummies.BlockEntry | functions/preprocessing.py:267-270 | Column `k` of row `i` is 1 exactly when cell `i` lists token `k`, and 0 otherwise |
| Dummies.EncodeRows | functions/preprocessing.py:227 | `apply` encodes every cell, in order |
| Dummies.BlockColumns | functions/preprocessing.py:230-233 | The dummy columns are named by the vocabulary, each a 0/1 column holding entry `k` of every row |
| Dummies.AppendDummies | functions/preprocessing.py:233-236 | The shared body of the two wrappers: a new table with the block appended, then the list column dropped when asked |
| Dummies.GenresDummies | functions/preprocessing.py:217-238 | `genres_dummies` returns a fresh table: its columns, then the genre block, `genres` dropped when asked |
| Dummies.SpecsDummies | functions/preprocessing.py:257-278 | `specs_dummies` returns a fresh table: its columns, then the spec block, `specs` dropped when asked |
| Stats.FillMedian | functions/preprocessing.py:292 | `fillna(median)` leaves present prices alone and fills each gap with the median. A median exists exactly when some price is present |
| Stats.MedianHalves | functions/preprocessing.py:292 | At least half of the prices lie at or below the median, and at least half at or above it |
| Stats.Sort | functions/preprocessing.py:292 | The sort used for the median is a permutation of the prices |
| Stats.SortSorted | functions/preprocessing.py:292 | That sort is in non-decreasing order |
| Frames.Frame.Copy | functions/preprocessing.py:286 | `copy()` is a fresh table with the same columns |
| Preprocessing.YearBinning | functions/preprocessing.py:116-146 | `year_binning` adds `release_period` in place, drops `release_year` when asked, and returns a fresh dummy table exactly when asked for dummies |
| Preprocessing.PriceBinning | functions/preprocessing.py:159-189 | `price_binning` adds `cost` in place, drops `price` when asked, and returns a fresh dummy table exactly when asked for dummies |
| Preprocessing.WithPeriods | functions/preprocessing.py:135-139 | `release_period` holds the binned years |
| Preprocessing.WithCost | functions/preprocessing.py:177-181 | `cost` holds the binned prices |
| Preprocessing.YearDummyColumns | functions/preprocessing.py:143 | Three 0/1 columns named by the sorted year labels, one entry per row |
| Preprocessing.PriceDummyColumns | functions/preprocessing.py:185 | Four 0/1 columns named by the sorted price labels, one entry per row |
| Preprocessing.NormalisedPricesSpec | functions/preprocessing.py:291 | `apply(float_prices)` fails exactly when some row raises, at the first such row. Otherwise each row holds its `float_prices` value, missing exactly when the raw price was |
| Preprocessing.FilledPrices | functions/preprocessing.py:291-292 | The `price` column ends up holding the prices with gaps filled by their median |
| Preprocessing.PreprocessGames | functions/preprocessing.py:281-307 | Works on a copy, so the caller's table is unchanged. Fails exactly when the price step fails, and otherwise returns the pipeline's table |
| Preprocessing.PreprocessedLayout | functions/preprocessing.py:286-304 | Step order: the untouched columns, then year dummies, price dummies of the median-filled prices, the genre block and the spec block; `tags` and the source columns are gone |
| Preprocessing.YearStepShape | functions/preprocessing.py:295 | The year step replaces `release_year` with its three dummy columns at the end |
| Preprocessing.PriceStepShape | functions/preprocessing.py:298 | The price step replaces `price` with its four dummy columns at the end |
| Preprocessing.ListStepShape | functions/preprocessing.py:301-304 | A list step replaces the list column with its dummy block at the end |
| Preprocessing.FeatureColumnsRow | functions/preprocessing.py:295-304 | Row `i` of the encoded block is the year one-hot, price one-hot, genre row and spec row of game `i`. It has `7 + genres + specs` entries, all 0 or 1 |
| Recommender.CosineScore | functions/recomender.py:27-31 | `_cos_sim` succeeds exactly when both vectors have the same non-zero width |
| Recommender.SignedSquareMonotone | functions/recomender.py:27-31 | `c·|c|` is strictly increasing in `c`, so the score ranks rows exactly as the cosine does |
| Recommender.CosSquaredBounds | functions/recomender.py:27-31 | For 0/1 vectors the score lies in [0, 1] |
| Recommender.CosSquaredSelf | functions/recomender.py:27-31 | A non-zero 0/1 vector scores 1 against itself |
| Recommender.NLargest | functions/recomender.py:54 | `nlargest(n)` holds `min(n, len)` entries, and none when `n <= 0` |
| Recommender.NLargestOrdered | functions/recomender.py:54 | The result is in descending order of score, and no row appears twice |
| Recommender.NLargestDominates | functions/recomender.py:54 | A candidate left out scores at most as high as every kept one. On a tie the kept one is the earlier row (`keep='first'`) |
| Recommender.NLargestFrom | functions/recomender.py:54 | Everything ranked was a candidate |
| Recommender.MatchingRows | functions/recomender.py:18 | The basis indexes are exactly the rows whose `item_id` is the id, in table order |
| Recommender.Kept | functions/recomender.py:37 | After the drop, exactly the rows not in the basis index remain, in table order |
| Recommender.BasisOf | functions/recomender.py:21-24 | `reshape(1, -1)` lays the matched rows end to end. One row gives that row itself |
| Recommender.ScoreRows | functions/recomender.py:34-42 | `apply` succeeds exactly when every kept row can be scored, giving each row its own score in order. Otherwise it fails with the first failing row's error |
| Recommender.RankedExcludesQuery | functions/recomender.py:37-54 | The queried item never appears among the results. The returned rows are in range and distinct, and there are `min(n, others)` of them |
| Recommender.RankedDominates | functions/recomender.py:51-54 | Every returned row scores at least as high as every non-returned row of another item. On a tie the returned row is earlier |
| Recommender.RankedOrdered | functions/recomender.py:54 | The returned rows come best first |
| Recommender.RankedRecords | functions/recomender.py:57-62 | With `indexes=False` the call succeeds or fails just as with `indexes=True`, and returns the `item_id`/`app_name` rows at the ranked indexes, in order |
| Recommender.RankedSucceeds | functions/recomender.py:45-54 | With rows of a positive width, a query succeeds exactly when one row holds the id and some row of another item exists |
| Recommender.RankedNeedsOneRow | functions/recomender.py:18-31 | A successful query had exactly one matching row and another item to rank |
| Recommender.OneRowSucceeds | functions/recomender.py:18-31 | One matching row and another item make the query succeed |
| Recommender.ScoreBounds | functions/recomender.py:27-31 | On a 0/1 matrix every score lies in [0, 1], and the queried item's own non-zero row would score 1 |
| Recommender.BasisBinary | functions/recomender.py:21-24 | Rows of a 0/1 matrix laid end to end are 0/1 |
| Recommender.FeatureMatrix | functions/recomender.py:9 | The matrix is exactly the columns from the first `_Released after 2010` to the last, one row per game, all rows equally wide |
| Recommender.CosSimComputer.constructor | functions/recomender.py:7-12 | The matrix and the item table are taken from the table, and there is no basis yet |
| Recommender.CosSimComputer.SetBasisVector | functions/recomender.py:16-25 | The basis becomes the matching rows laid end to end, and its index those rows |
| Recommender.CosSimComputer.Similarities | functions/recomender.py:33-43 | Scores only rows outside the basis index, each within the matrix, in increasing row order |
| Recommender.CosSimComputer.NMostSimilar | functions/recomender.py:45-62 | The basis is reset from `to`, and the answer is the ranking of the fitted table for `(n, to, indexes)`, independent of any earlier query |
| Recommender.FittedFeatureRows | functions/recomender.py:9 | Fitted on columns followed by the encoded block, the matrix row `i` is game `i`'s feature row |
| Recommender.PreprocessedMatrix | functions/recomender.py:9-10 | Fitted on the output of `preprocess_games`, the matrix has one 0/1 row per game, its feature row |
| Etl.JsonUnpacking | functions/ETL.py:61-100 | The nested loops, with one `row` dict reused and a copy appended per element, compute exactly `Unpacked`: the records, or the first `KeyError`/`TypeError` raised |
| Etl.EmitRecords | functions/functions.py:89-94 | For the duplicate `json_unpacking`: the element loop of one row, with one dict updated in place, emits the base filled from each element alone |
| Etl.FillLoop | functions/ETL.py:92-93 | `for value in values: row[value] = item[value]` on a dict updated in place, stopping at the first failing lookup |
| Etl.Refill | functions/ETL.py:94 | Refilling the reused dict from a new element equals filling a fresh copy of the base from that element alone. An earlier element never leaks into a later record |
| Etl.Overwrite | functions/functions.py:92-94 | Assigning the same keys twice equals assigning them once with the second values |
| Etl.PutAllVals | functions/ETL.py:93 | After the assignments each key holds its last assigned value, other keys keep theirs, and no key appears from nowhere |
| Etl.UnpackedLength | functions/ETL.py:85-94 | The output has one record per element of each row's `where` list, so rows with an empty list contribute nothing |
| Etl.UnpackedRecord | functions/functions.py:85-94 | Row-then-element order: the record of element `j` of row `i` follows the records of all earlier rows, and is row `i`'s base filled from element `j` |
| Etl.UnpackedPrefix | functions/ETL.py:83-94 | `items` only grows: the rows before any point unpack without error into a prefix of the final output |
| Etl.UnpackRowShape | functions/ETL.py:90-94 | One row yields one record per element of its `where` cell |
| Etl.RecordKeys | functions/ETL.py:86-93 | A record's keys are exactly `values` plus the old columns (none when `old_colums` is None). The values come from the element's dict and the source row |
| Etl.PickedValues | functions/functions.py:92-93 | Each looked-up value is the element's own value for that key |
| Etl.Subscript | functions/ETL.py:93 | `item[value]` succeeds exactly on a dict holding the key, and otherwise raises `KeyError` or `TypeError` |
| Etl.Elements | functions/ETL.py:90 | `for item in cell` raises exactly on numbers and missing values |
| Etl.LoadPaths | functions/ETL.py:113-122 | The three paths keep their keys. With `from_main` each loses exactly its leading `../`, and otherwise they are unchanged |

## Left out

- File I/O, compression and printing are not modelled: `gzip_json_file`, `load_json_gz`, the `read_json`/`read_csv` calls of `load_dfs`, and the `print` calls. `LoadPaths` stops at the paths handed to the readers.
- `get_year` is a foreign date parser behind a bare `except`. It is not part of this model.
- The analytic queries (`functions/queries.py`) and the web routes (`main.py`) are not part of this model.
- Floating point is not modelled. Prices are exact decimals and `round(x, 2)` is exact half-to-even in cents; IEEE representation error is absent.
- PriceParsing.ParseFloat: `float()` on text covers Python's whitespace, an optional sign, and decimal digits with an optional point. Exponents, `inf`/`nan`, underscores and Unicode digits are left out.
- PriceParsing.PresentNeverNaN: text such as `"nan"` or `"inf"`, which `float()` reads as NaN or infinity, lies outside the modelled grammar. The model sends it down the search path (0 or a matched amount), so the "never NaN" guarantee holds for the model only.
- PriceParsing.SearchDollar: the word characters around `\B` are ASCII letters, digits and `_`; Unicode letters are left out, and so are the Unicode digits that `\d` also matches.
- Recommender.CosineScore: the score is `cos·|cos|`, the cosine squared with its sign, as an exact real. It is not the cosine itself, because the cosine needs a square root. The ranking, the [0, 1] bound on 0/1 rows and the self-score of 1 are the same.
- Recommender.Ranked: `nlargest` ties are broken by keeping the earlier row (`keep='first'`), and the returned indexes are table positions. This assumes the default `RangeIndex`.
- Recommender.CosSimComputer: the table the computer was built from (`self.df`) is not kept. The id column is read once at construction, so later mutations of a shared frame are not modelled.
- Recommender.FeatureMatrix: `loc[:, '_Released after 2010':]` starts at the first column of that name. A second column with that name is not modelled further. A table without that column is excluded by `Fittable` instead of raising `KeyError`; on the output of `preprocess_games` this is reachable in the code (see Preprocessing.Preprocessed) but not in the model.
- Recommender.PreprocessedMatrix: holds for the model's `preprocess_games`, which keeps every dummy column. In the code the rows can be narrower, or the fit can raise `KeyError` (see Preprocessing.Preprocessed).
- Preprocessing.FeatureColumnsRow: the width `7 + genres + specs` counts every bin and label. The code's width drops the bins and labels that no game has.
- Preprocessing.Preprocessed: name clashes are excluded by `NoClashes`. That means an input column called `release_period` or `cost`, or a genre or spec named like a list column. `get_dummies` dropping labels that never occur is not modelled: all label columns are kept. The dot products and norms are unchanged, but two behaviours of the code are lost. When no game falls in `Released after 2010`, the code has no `_Released after 2010` column and `CosSimComputer` raises `KeyError` at `df.loc[:, '_Released after 2010':]`, while the model's output always has it and the computer is always fitted. And the code's rows are narrower than `7 + genres + specs` when a bin or a label never occurs.
- Preprocessing.FilledPrices: `fillna(inplace=True)` on the column is modelled as writing back into the table (the pandas behaviour without copy-on-write).
- Etl.Unpacked: the final `pd.DataFrame(items)` conversion is not modelled, so the result is the list of records. Dicts are ordered key lists with values, numbers are integers, and a duplicate row index is not modelled.
- Etl.Elements: a DataFrame's cells are assumed to be JSON-like values. Iterating other containers (tuples, arrays, sets) is not modelled.
