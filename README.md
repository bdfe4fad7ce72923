# Dataset materialisation and command validation, modelled in Dafny

This project models the core of a species-identification pipeline's dataset
loader (`library/dataset_Loader.py`) and its command enumeration
(`common/command.py`).

The loader turns a corpus of observation pages into the labelled training
table. Each page (a *fragment*: a list of flattened records) is reduced to
the dataset columns. Then four columns are rewritten:

- each photo descriptor's URL gets the medium-size tag instead of the square one;
- the species guess and the taxon name are lower-cased and stripped, with a falsy value becoming `UNKNOWN`;
- a falsy user login becomes `UNKNOWN`.

The transformed fragments are concatenated in order and filtered to the rows
whose rank is the species rank. The distinct taxon names are one-hot encoded
and every kept row gets its name's vector in a new column. The table is then
written to a CSV file as the very last step.

Modules:

- `Results` (`results.dfy`): `Option` and `Result`, with the failure members `:-` uses.
- `Strings` (`strings.dfy`): Python's `str.lower`, `str.strip`, `str.replace` and `<` on strings.
- `Frames` (`frames.dfy`): cells, rows and tables, plus the pandas operations the loader uses:
  - column selection after `json_normalize`;
  - `Series.apply` with assignment;
  - `concat`;
  - boolean-mask filtering;
  - `unique`.
- `LabelEncoder` (`label_encoder.dfy`): `encode_labels`.
- `Commands` (`command.dfy`): `Command` and `validate_command`.
- `DatasetLoader` (`dataset_loader.dfy`):
  - the loader's constants as a `Config` value;
  - `normalize_text`;
  - the per-column rewrites;
  - a record-by-record specification of the transform and the imperative transform itself;
  - the specification `Materialize` of what `save_json_dataset` writes;
  - the `CsvFile` the method writes to, and the method `SaveJsonDataset`.

The transform and the save are methods that run the source's steps one after
the other with early exits for exceptions. Each method is proved to succeed exactly
when its specification function does, and then to return (or write) that
function's result. Which exception a failing method raises is not tied to the
function's error (see "## Left out"). The properties are proved about those
functions.

Raised exceptions are `Err` values:

- `KeyError`: a missing column, a missing `"dataset"` key, a photo descriptor without a `"url"` key, an unknown label.
- `TypeError`: indexing a non-dictionary photo, a list used as a key, a taxon name that is not a text when the labels are read.
- `ValueError`: concatenating no tables, fitting the encoder on no labels.
- `NotText`: a truthy list in the guess or name column (see `DatasetLoader.NormalizedOrUnknown` under "## Left out").

## Model

| member | source | states |
|---|---|---|
| Strings.LowerChar | library/dataset_Loader.py:49 | lower-casing one character turns an upper-case letter into the same letter in lower case, keeps whitespace as whitespace and changes nothing else |
| Strings.Lower | library/dataset_Loader.py:49 | the lower-cased string has the input's length, no upper-case letter, whitespace exactly where the input has it, each upper-case letter turned into the same letter in lower case, and every other character unchanged |
| Strings.Strip | library/dataset_Loader.py:49 | the stripped string neither starts nor ends with whitespace |
| Strings.LowerIgnoresCase | library/dataset_Loader.py:49 | strings equal up to the case of their ASCII letters lower-case to the same string |
| Strings.StripIsStripped | library/dataset_Loader.py:49 | `strip()` removes a run of whitespace at each end and nothing else: its result is a contiguous slice of the input with only whitespace before and after it |
| Strings.StrippedIsStrip | library/dataset_Loader.py:49 | conversely, any slice with non-space ends and only whitespace around it is the strip of the input, so the characterisation is exact |
| Strings.StripAllSpace | library/dataset_Loader.py:49 | a whitespace-only string strips to the empty string |
| Strings.StripIdempotent | library/dataset_Loader.py:49 | stripping twice is stripping once |
| Strings.LowerUnchanged | library/dataset_Loader.py:49 | lower-casing a string without upper-case letters leaves it unchanged |
| Strings.StripKeepsCharacters | library/dataset_Loader.py:49 | every character of the stripped string is a character of the input |
| Strings.StripKeepsLowerCase | library/dataset_Loader.py:49 | stripping a string without upper-case letters leaves none, so `lower().strip()` has none |
| Strings.Replace | library/dataset_Loader.py:74 | replacing a non-empty pattern by itself changes nothing, and by a replacement of the same length keeps the length |
| Strings.ReplaceFirstOccurrence | library/dataset_Loader.py:74 | the first occurrence of the pattern is replaced and the scan resumes after it, so every non-overlapping occurrence is replaced, from the left |
| Strings.ReplaceSkips | library/dataset_Loader.py:74 | `str.replace` copies unchanged any prefix in which the pattern does not start |
| Strings.ReplaceAbsent | library/dataset_Loader.py:74 | a URL without the square tag is returned unchanged |
| Strings.OccursInSuffix | library/dataset_Loader.py:74 | an occurrence in a suffix is an occurrence in the whole string, shifted |
| Strings.ReplaceSingle | library/dataset_Loader.py:74 | a URL holding the tag exactly once, as `p + tag + q`, becomes `p + replacement + q` |
| Strings.LessIrreflexive | library/dataset_Loader.py:53-54 | `Strings.Less`, the code-point order the encoder sorts its categories by, is irreflexive |
| Strings.LessTransitive | library/dataset_Loader.py:53-54 | that order is transitive |
| Strings.LessTotal | library/dataset_Loader.py:53-54 | that order is total on distinct strings, so each label has a well-defined position |
| Frames.KeysOf | library/dataset_Loader.py:69 | the columns `json_normalize` produces are exactly the keys some record has |
| Frames.FirstMissing | library/dataset_Loader.py:71 | the column reported missing is a requested column that is absent; none is reported exactly when all are present |
| Frames.Project | library/dataset_Loader.py:69-71 | a projected record has exactly the selected columns, each holding the record's value, or `NaN` where the record lacks that key |
| Frames.SelectColumns | library/dataset_Loader.py:69-71 | column selection fails (KeyError) exactly when some dataset column is a key of no record; otherwise one row per record, in order, over exactly the selected columns |
| Frames.AddColumn | library/dataset_Loader.py:110 | assigning a column adds its name to the column set and nothing else; the existing columns keep their order, and a new column is appended last, which fixes the CSV header's order |
| Frames.MapAll | library/dataset_Loader.py:99-101 | a list comprehension succeeds exactly when every element's call succeeds, and then gives one result per element, in order |
| Frames.MapAllSnoc | library/dataset_Loader.py:99-101 | the comprehension over one more element succeeds exactly when the shorter one and the new call do, and appends that call's result |
| Frames.MapAllInit | library/dataset_Loader.py:99-101 | a successful comprehension over a non-empty list is the comprehension over all but the last element followed by the last element's result |
| Frames.ApplySeries | library/dataset_Loader.py:110 | `Series.apply` succeeds exactly when the function succeeds on every cell, giving one result per row, in order |
| Frames.ApplyColumn | library/dataset_Loader.py:110 | applying over a source column and assigning a target is a KeyError for a missing source; otherwise each row gains the target cell and keeps every other cell, and the table stays valid |
| Frames.Rewrite | library/dataset_Loader.py:72-85 | an in-place column rewrite of one row fails exactly when the column is missing or the function fails, and otherwise replaces just that cell |
| Frames.RewriteRow | library/dataset_Loader.py:72-85 | a sequence of rewrites keeps the row's key set |
| Frames.ApplyStep | library/dataset_Loader.py:72-85 | a whole-column rewrite fails exactly when the column is missing or some row's cell fails; otherwise every row is rewritten in place, the columns stay the same and the table stays valid |
| Frames.ApplySteps | library/dataset_Loader.py:72-85 | a sequence of column rewrites leaves a valid table |
| Frames.ApplyStepsRowwise | library/dataset_Loader.py:72-85 | applying the rewrites column by column equals applying them row by row: success exactly when every column exists and every row's rewrite chain succeeds, and then the same rows in the same order |
| Frames.FailingRow | library/dataset_Loader.py:72-85 | when every column exists but the column-wise rewrites fail, some row's chain fails |
| Frames.AllRowsMembers | library/dataset_Loader.py:102 | the concatenated rows are exactly the rows of the tables |
| Frames.Concat | library/dataset_Loader.py:102 | `pd.concat` is a ValueError exactly for no tables; otherwise its rows are all rows in table order, its columns are the tables', and it is valid when they are |
| Frames.Filter | library/dataset_Loader.py:103 | the filter keeps exactly the elements that satisfy the predicate, and no more than the input has |
| Frames.FilterAppend | library/dataset_Loader.py:103 | filtering a concatenation is concatenating the filtered parts, so the kept rows keep their order |
| Frames.FilterCount | library/dataset_Loader.py:103-104 | the number of kept rows is the number of positions whose row satisfies the mask |
| Frames.FilterSameCount | library/dataset_Loader.py:103-104 | two lists of equal length that agree position by position on the mask keep equally many elements |
| Frames.KeepRows | library/dataset_Loader.py:103 | the boolean-mask filter is a KeyError exactly when the column is missing; otherwise it keeps, in order, exactly the rows whose cell equals the value, over the same columns |
| Frames.Unique | library/dataset_Loader.py:107 | `unique()` holds exactly the values of the input, each once |
| LabelEncoder.EncodeLabels | library/dataset_Loader.py:51-58 | fails (ValueError) exactly for no labels; otherwise the keys are exactly the labels and each vector has one position per distinct label |
| LabelEncoder.Rank | library/dataset_Loader.py:53-54 | a label's position, its number of smaller categories, lies inside the vector |
| LabelEncoder.OneHot | library/dataset_Loader.py:55-57 | the encoder's row for a position has one entry per category and is the basis vector with its 1 at that position |
| LabelEncoder.RankInjective | library/dataset_Loader.py:53-54 | distinct labels get distinct positions |
| LabelEncoder.RankGrows | library/dataset_Loader.py:53-54 | a label ordered before another gets a smaller position |
| LabelEncoder.RanksDense | library/dataset_Loader.py:53-54 | the positions of the labels are exactly `0 .. k-1` |
| LabelEncoder.EncodeLabelsBasis | library/dataset_Loader.py:55-57 | each label maps to a one-hot vector whose 1 is at the label's position |
| LabelEncoder.EncodeLabelsInjective | library/dataset_Loader.py:55-57 | distinct labels map to distinct vectors |
| LabelEncoder.OneHotOfRanks | library/dataset_Loader.py:55-57 | each category's vector is a basis vector of length k, and two categories share a vector exactly when they are equal |
| LabelEncoder.EncodeLabelsDense | library/dataset_Loader.py:55-57 | every basis vector of length k is some label's vector |
| LabelEncoder.EncodeLabelsOrderFree | library/dataset_Loader.py:51-58 | the mapping depends only on which labels occur, not on their order or repetition |
| Commands.FromValue | common/command.py:4-10 | the enum lookup finds the member whose value is the string, and finds none exactly when no member has that value |
| Commands.ValidateCommand | common/command.py:13-21 | validation always answers, with true exactly for "download" and "predict", that is, for a member's value |
| Commands.RoundTrip | common/command.py:4-21 | looking a member up by its own value returns that member, and its value validates |
| Commands.ValueInjective | common/command.py:4-10 | two members with the same value are the same member |
| DatasetLoader.NormalizeTextMeaning | library/dataset_Loader.py:48-49 | the normalised text is the lower-cased input with exactly the surrounding whitespace removed: no upper-case letter, no whitespace at either end |
| DatasetLoader.NormalizeTextCaseInsensitive | library/dataset_Loader.py:48-49 | texts that differ only in the case of their ASCII letters normalise to the same text, so they get the same label |
| DatasetLoader.NormalizeTextChanges | library/dataset_Loader.py:48-49 | a text holding an upper-case letter is never its own normalisation |
| DatasetLoader.NormalizeTextIdempotent | library/dataset_Loader.py:48-49 | normalising twice is normalising once |
| DatasetLoader.NormalizeBlank | library/dataset_Loader.py:48-49 | whitespace-only text normalises to the empty string |
| DatasetLoader.NormalizeText | library/dataset_Loader.py:48-49 | the normalised text is no longer than the input, has no whitespace at either end and no upper-case letter |
| DatasetLoader.NormalizeNan | library/dataset_Loader.py:48-49 | `str(NaN)`, the text "nan", normalises to itself |
| DatasetLoader.MediumUrls | library/dataset_Loader.py:74 | mapping the photo descriptors fails (KeyError) exactly when one has no `url`; otherwise one URL per descriptor, in order, each with the square tag replaced by the medium tag |
| DatasetLoader.MediumUrlOfSquareUrl | library/dataset_Loader.py:72-78 | a photo list with one URL holding the square tag once becomes the same URL with the medium tag |
| DatasetLoader.PhotoUrls | library/dataset_Loader.py:72-78 | the photos rule: a cell that is not a list becomes []; an empty list stays []; a non-empty list of strings is a TypeError; a list of descriptors succeeds exactly when each has a `url`, giving one URL per descriptor, in order, with the square tag replaced by the medium tag |
| DatasetLoader.NormalizedOrUnknownCases | library/dataset_Loader.py:79-85 | the guess and name rule (`NormalizedOrUnknown`): it fails exactly for a truthy list; a falsy cell becomes UNKNOWN; a truthy text becomes its normalisation, so a whitespace-only one becomes "" and not UNKNOWN; `NaN` becomes "nan"; every result is a text |
| DatasetLoader.LoginOrUnknownCases | library/dataset_Loader.py:82 | the login rule (`LoginOrUnknown`): a truthy login is kept exactly as it is and a falsy one becomes UNKNOWN; a login with an upper-case letter is not normalised, unlike a guess or name |
| DatasetLoader.NormalizeRow | library/dataset_Loader.py:72-85 | normalising a record keeps its set of fields |
| DatasetLoader.NormalizeRowFields | library/dataset_Loader.py:72-85 | a record normalises exactly when its photos, guess and name cells do; then the photos, guess, login and name cells are their rewrites (a truthy login kept as it is) and every other field is unchanged |
| DatasetLoader.NormalizeRowNameIsText | library/dataset_Loader.py:83-85 | a normalised record's taxon name is always a text |
| DatasetLoader.NormalizeRowTotal | library/dataset_Loader.py:72-85 | a record whose photos cell is not a list and whose guess and name are scalars always normalises; its photos become [], and a falsy guess, login or name becomes UNKNOWN |
| DatasetLoader.NormalizeRows | library/dataset_Loader.py:72-85 | the rows normalise exactly when each record does, giving one normalised row per record, in order, with its fields kept |
| DatasetLoader.NormalizeFragment | library/dataset_Loader.py:60-86 | a transformed fragment is a valid table over exactly the dataset columns, which include the four rewritten ones |
| DatasetLoader.NormalizeFragmentSucceeds | library/dataset_Loader.py:69-85 | the transform succeeds exactly when every dataset column is a key of some record, the rewritten columns are among them, and every projected record normalises |
| DatasetLoader.NormalizeSelectedSucceeds | library/dataset_Loader.py:72-85 | once the columns are selected, the transform succeeds exactly when every projected record normalises |
| DatasetLoader.NormalizeFragmentRows | library/dataset_Loader.py:69-85 | a successful transform has exactly one row per record, in order, each the normalisation of that projected record |
| DatasetLoader.NormalizeFragmentCopies | library/dataset_Loader.py:69-85 | in a transformed fragment, every dataset column that is not rewritten holds the record's own value, or `NaN` where the record lacks it |
| DatasetLoader.ProjectedRowAbsent | library/dataset_Loader.py:69-85 | for one record with a rewritten field missing: missing photos become [], a missing guess or name becomes "nan", and a missing login stays `NaN`; none becomes UNKNOWN |
| DatasetLoader.NormalizeFragmentAbsent | library/dataset_Loader.py:69-85 | the same missing-field outcome for every row of a transformed fragment |
| DatasetLoader.FragmentSpeciesRows | library/dataset_Loader.py:69-85 | a transformed row has the species rank exactly when its raw record does, so the rank filter keeps as many transformed rows as raw records |
| DatasetLoader.NormalizeRowIsSteps | library/dataset_Loader.py:72-85 | the record normalisation is the four column rewrites applied to the record in the source's order |
| DatasetLoader.StepsAgree | library/dataset_Loader.py:72-85 | the four column-wise rewrites of the selected table succeed exactly when the record-by-record normalisation does, and give the same table |
| DatasetLoader.RowsAreSteps | library/dataset_Loader.py:72-85 | each selected row's rewrite chain is its normalisation |
| DatasetLoader.StepsSucceed | library/dataset_Loader.py:72-85 | when the column-wise rewrites succeed, the row-wise normalisation succeeds with the same table |
| DatasetLoader.StepsFail | library/dataset_Loader.py:72-85 | when the column-wise rewrites fail, the row-wise normalisation fails too |
| DatasetLoader.TransformAgrees | library/dataset_Loader.py:60-86 | the transform's select-then-rewrite sequence equals the record-by-record specification |
| DatasetLoader.TransformJsonToDataset | library/dataset_Loader.py:60-86 | the transform, run step by step with an exit at each exception, succeeds exactly when the specification does and returns its table |
| DatasetLoader.NormalizeFragments | library/dataset_Loader.py:99-101 | every fragment transformed: succeeds exactly when each fragment's transform does, one table per fragment, in order |
| DatasetLoader.NormalizeFragmentsInit | library/dataset_Loader.py:99-101 | transforming all fragments but the last gives the earlier tables, and the last fragment's transform gives the last table |
| DatasetLoader.NormalizeFragmentsTransformed | library/dataset_Loader.py:99-101 | every transformed table is valid, over the dataset columns, with a text in each taxon-name cell |
| DatasetLoader.FragmentNamesAreText | library/dataset_Loader.py:83-85 | every row of a transformed fragment has a text taxon name |
| DatasetLoader.Labels | library/dataset_Loader.py:107-109 | the column's cells read as labels: a TypeError unless every cell is a text, and then the texts, in order |
| DatasetLoader.UniqueLabels | library/dataset_Loader.py:107 | the distinct names query is a KeyError for a missing column; otherwise it holds exactly the column's names, each once |
| DatasetLoader.LookupLabel | library/dataset_Loader.py:110 | the lookup succeeds exactly for a text that is a key, and then gives that key's vector |
| DatasetLoader.Materialize | library/dataset_Loader.py:97 | a corpus without a `"dataset"` key is a KeyError |
| DatasetLoader.SpeciesRowsAppend | library/dataset_Loader.py:102-103 | the species rows of one more table come after those of the earlier tables |
| DatasetLoader.SpeciesRows | library/dataset_Loader.py:102-103 | the species rows are exactly the concatenated rows whose rank cell is the species rank |
| DatasetLoader.KeptRows | library/dataset_Loader.py:102-103 | concatenation then the rank filter gives exactly the species rows, in table order and then row order, over the dataset columns, each with a text taxon name |
| DatasetLoader.KeptLabels | library/dataset_Loader.py:107 | the labels the encoder is fitted on are exactly the distinct names of the kept rows, and there are none exactly when no row is kept |
| DatasetLoader.LabelFramesSucceeds | library/dataset_Loader.py:102-110 | labelling succeeds exactly when there is a table, the rank column is a dataset column and some row is a species row |
| DatasetLoader.LabelFrames | library/dataset_Loader.py:102-110 | a labelled table is valid, over the dataset columns plus the label column |
| DatasetLoader.KeptVectors | library/dataset_Loader.py:107-110 | for kept rows with text names, the encoder fits, and each row's lookup gives the one-hot vector at its name's rank among the distinct names |
| DatasetLoader.LabelFramesRows | library/dataset_Loader.py:102-110 | the labelled table has one row per species row, in order, as many as the rank filter's matching positions, each the species row plus its name's one-hot vector, over the dataset columns plus the label column |
| DatasetLoader.LabelFramesVectors | library/dataset_Loader.py:107-110 | each row's label is a basis vector with one position per distinct species name, and two rows share a vector exactly when they share a name |
| DatasetLoader.LabelFramesDense | library/dataset_Loader.py:107-110 | every position of the vectors is the 1 of some row's label |
| DatasetLoader.MaterializeSucceeds | library/dataset_Loader.py:88-118 | the save succeeds exactly when the corpus has a `"dataset"` key, every fragment transforms, there is a fragment, the rank column is selected and some row is a species row |
| DatasetLoader.SpeciesCount | library/dataset_Loader.py:99-103 | the transformed corpus has exactly as many species rows as the raw records (`Records`, all fragments in order) have species-rank records |
| DatasetLoader.MaterializeCount | library/dataset_Loader.py:97-110 | the saved table has one row per raw record whose rank is the species rank, when the rank column is not rewritten |
| DatasetLoader.CsvFile.constructor | library/dataset_Loader.py:113 | a new file has the given path and holds no table |
| DatasetLoader.CsvFile.ToCsv | library/dataset_Loader.py:113 | writing a table leaves the file holding exactly that table |
| DatasetLoader.TransformFragments | library/dataset_Loader.py:99-101 | the loop transforms the fragments in turn, stops at the first exception, and agrees with the specification in success and in the tables it returns |
| DatasetLoader.SaveJsonDataset | library/dataset_Loader.py:88-118 | the save raises exactly when the specification fails, otherwise writes exactly the specification's table; on every failure the file is left untouched, because the write is the last step |

## Left out

- Loading a saved dataset (`load_dataset`), downloading photos (`download_dataset`), the crawler, the trainer, the entry point and packaging are not part of this model.
- File and CSV I/O are reduced to `CsvFile.table`. The CSV text format is not modelled, and neither is logging.
- The values of `common/constants.py` are not part of this model. They are the fields of the `Config` parameter, so every property holds for every choice of constants.
- `pd.json_normalize` flattening of nested objects is not modelled. Records arrive already flattened as maps from column name to cell.
- The corpus argument is typed as a map from key to a list of fragments. A `"dataset"` value of another shape is not modelled.
- A dataset column absent from one record but present in another becomes `NaN` in pandas. `Frames.Project` fills that `NaN` cell. `NaN` is truthy, so the falsy-becomes-UNKNOWN rewrites leave it alone: a missing guess or name becomes "nan", a missing login stays `NaN`, and missing photos become [] (`DatasetLoader.NormalizeFragmentAbsent`).
- `Concat` requires every table to have the same column list. Every transformed fragment has exactly the dataset columns, so this always holds in the loader.
- Duplicate names in the dataset column list are not modelled.
- Photo descriptors hold only string values.
- Numbers in cells are carried as `Text`. This loses two things. A numeric `0` or `0.0` is falsy in Python, so a guess, login or name of zero would become `UNKNOWN`, but `Text("0")` is truthy in the model. And `str()` of a float need not be the number's JSON text, so the normalised text of a numeric cell may differ.
- Encoded labels are dense vectors of integers 0 and 1. The encoder's sparse floating-point rows are not modelled.
- `Strings.LowerChar`: lower-cases ASCII letters only, whereas Python's `str.lower` also lower-cases non-ASCII letters.
- `Strings.Lower`: built on `Strings.LowerChar`, so it lower-cases ASCII letters only, and so does `DatasetLoader.NormalizeText`.
- `DatasetLoader.NormalizedOrUnknown`: a truthy list in the guess or name column gives a `NotText` error. Python would normalise its `str()` rendering instead. Photo lists never reach this column in the source.
- `DatasetLoader.Labels`: a non-text name is a `TypeError`. It cannot arise after the transform (see `DatasetLoader.FragmentNamesAreText`).
- `DatasetLoader.TransformJsonToDataset`: states success and the returned table, not which exception is raised. When several records fail, the column-wise order may report a different record's error than the record-wise specification.
- `DatasetLoader.SaveJsonDataset`: states success and the returned table, not which exception is raised, for the same reason.
- `DatasetLoader.Materialize`: its own contract states only the missing-key case. Its full meaning is stated by `DatasetLoader.MaterializeSucceeds`, `DatasetLoader.LabelFramesRows`, `DatasetLoader.LabelFramesVectors`, `DatasetLoader.LabelFramesDense` and `DatasetLoader.MaterializeCount`.
- scikit-learn's `OneHotEncoder` sorts its categories, so a label's position is its rank in code-point order. The mapping does not depend on the order of the labels (`LabelEncoder.EncodeLabelsOrderFree`).
