/** `library/dataset_Loader.py`, the computation of `DatasetLoader` that turns
    the raw observation corpus into the labelled table: record normalisation
    (`normalize_text`, `transform_json_to_dataset`), fragment concatenation
    and species filtering, one-hot label encoding, and the final write
    (`save_json_dataset`). */
module DatasetLoader {
  import opened Results
  import opened Strings
  import opened Frames
  import opened LabelEncoder

  /** The names the loader imports from `common.constants`. */
  datatype Config = Config(
    columns: seq<string>,   // DATASET_COLUMNS
    photos: string,         // PHOTOS
    speciesGuess: string,   // SPECIES_GUESSES
    userLogin: string,      // USER_LOGIN
    taxonName: string,      // TAXON_NAME
    taxonRank: string,      // TAXON_RANK
    encodedLabels: string,  // ENCODED_LABELS
    squareSuffix: string,   // SQUARE_SUFIX
    mediumSuffix: string,   // MEDIUM_SUFIX
    unknown: string,        // UNKNOWN
    speciesName: string     // SPECIES_NAME
  ) {
    /** The four columns the transform rewrites. */
    function Rewritten(): seq<string> {
      [photos, speciesGuess, userLogin, taxonName]
    }

    /** The column rewrites of `transform_json_to_dataset`, in its order. */
    function Steps(): seq<Step> {
      [PhotoStep(this), GuessStep(this), LoginStep(this), NameStep(this)]
    }

    /** The four rewritten columns are among the selected columns. */
    predicate SelectsRewritten() {
      forall c :: c in Rewritten() ==> c in columns
    }

    /** The four rewritten columns are four different names. */
    predicate DistinctRewrites() {
      && photos != speciesGuess && photos != userLogin && photos != taxonName
      && speciesGuess != userLogin && speciesGuess != taxonName
      && userLogin != taxonName
    }
  }

  // ---------------------------------------------------------------------
  // Text normalisation

  /** `normalize_text`: the text lower-cased, then stripped of the whitespace
      at both ends. */
  function NormalizeText(text: string): (r: string)
    ensures |r| <= |text|
    ensures r == [] || (!IsSpace(r[0]) && !IsSpace(r[|r| - 1]))
    ensures forall k :: 0 <= k < |r| ==> !IsUpper(r[k])
  {
    StripKeepsLowerCase(Lower(text));
    Strip(Lower(text))
  }

  /** The normalised text is the lower-cased input with the surrounding
      whitespace, and only that, removed: it has no upper-case letter and
      neither starts nor ends with whitespace. */
  lemma NormalizeTextMeaning(text: string)
    ensures StrippedFrom(NormalizeText(text), Lower(text))
    ensures forall k :: 0 <= k < |NormalizeText(text)| ==> !IsUpper(NormalizeText(text)[k])
    ensures var r := NormalizeText(text); r == [] || (!IsSpace(r[0]) && !IsSpace(r[|r| - 1]))
  {
    StripIsStripped(Lower(text));
    StripKeepsCharacters(Lower(text));
  }

  /** A text with an upper-case letter is changed by normalisation. */
  lemma NormalizeTextChanges(text: string, k: nat)
    requires k < |text| && IsUpper(text[k])
    ensures NormalizeText(text) != text
  {
    if |NormalizeText(text)| == |text| {
      assert !IsUpper(NormalizeText(text)[k]);
    }
  }

  /** Normalisation folds case: texts that differ only in the case of their
      letters, such as "Apis mellifera" and "apis mellifera", normalise to
      the same text, and so get the same label. */
  lemma NormalizeTextCaseInsensitive(s: string, t: string)
    requires |s| == |t| && forall k :: 0 <= k < |s| ==> SameIgnoringCase(s[k], t[k])
    ensures NormalizeText(s) == NormalizeText(t)
  {
    LowerIgnoresCase(s, t);
  }

  /** Normalising twice is normalising once. */
  lemma NormalizeTextIdempotent(text: string)
    ensures NormalizeText(NormalizeText(text)) == NormalizeText(text)
  {
    var lowered := Lower(text);
    var r := Strip(lowered);
    LowerUnchanged(r);
    StripIdempotent(lowered);
  }

  /** Text made only of whitespace normalises to the empty string. */
  lemma NormalizeBlank(text: string)
    requires AllSpace(text)
    ensures NormalizeText(text) == []
  {
    var t := Lower(text);
    assert forall k :: 0 <= k < |t| ==> IsSpace(t[k]) by {
      forall k | 0 <= k < |t| ensures IsSpace(t[k]) {
        assert IsSpace(text[k]);
      }
    }
    StripAllSpace(t);
  }

  /** `str(x)` for the scalar cells that reach `normalize_text`. */
  function Str(v: Value): string
    requires v.Null? || v.NaN? || v.Text?
  {
    match v
    case Null => "None"
    case NaN => "nan"
    case Text(s) => s
  }

  // ---------------------------------------------------------------------
  // The per-cell rewrites of `transform_json_to_dataset`

  /** The photo lambda at dataset_Loader.py:72-78 on a list of descriptors: each descriptor's
      `"url"`, with the square tag swapped for the medium tag; a KeyError
      for the first descriptor without a URL. */
  function MediumUrls(cfg: Config, photos: seq<Descriptor>): (r: Result<seq<string>, Error>)
    ensures r.Ok? <==> forall i :: 0 <= i < |photos| ==> "url" in photos[i]
    ensures r.Ok? ==> |r.value| == |photos|
    ensures r.Ok? ==> forall i :: 0 <= i < |photos| ==>
                        r.value[i] == Replace(photos[i]["url"], cfg.squareSuffix, cfg.mediumSuffix)
  {
    if photos == [] then Ok([])
    else if "url" !in photos[0] then Err(KeyError(Text("url")))
    else
      var rest :- MediumUrls(cfg, photos[1..]);
      assert forall i :: 1 <= i < |photos| ==> photos[1..][i - 1] == photos[i];
      Ok([Replace(photos[0]["url"], cfg.squareSuffix, cfg.mediumSuffix)] + rest)
  }

  /** The photo lambda at dataset_Loader.py:72-78: a list is mapped descriptor by descriptor
      (subscripting a string or a number raises TypeError); anything that is
      not a list becomes the empty list. The result is always a list of
      URLs: one per descriptor, in order, each with the square tag replaced;
      a KeyError when a descriptor has no URL, a TypeError for a non-empty
      list of anything but descriptors. */
  function PhotoUrls(cfg: Config, v: Value): (r: Result<Value, Error>)
    ensures r.Ok? ==> r.value.Texts?
    ensures !(v.Items? || v.Texts? || v.Vector?) ==> r == Ok(Texts([]))
    ensures v.Texts? || v.Vector? ==> (r.Ok? <==> !Truthy(v)) && (r.Ok? ==> r.value == Texts([]))
    ensures v.Items? ==> (r.Ok? <==> forall i :: 0 <= i < |v.items| ==> "url" in v.items[i])
    ensures v.Items? && r.Ok? ==>
              && |r.value.texts| == |v.items|
              && forall i :: 0 <= i < |v.items| ==>
                   r.value.texts[i] == Replace(v.items[i]["url"], cfg.squareSuffix, cfg.mediumSuffix)
  {
    match v
    case Items(photos) =>
      var urls :- MediumUrls(cfg, photos);
      Ok(Texts(urls))
    case Texts(xs) => if xs == [] then Ok(Texts([])) else Err(TypeError)
    case Vector(xs) => if xs == [] then Ok(Texts([])) else Err(TypeError)
    case Null => Ok(Texts([]))
    case NaN => Ok(Texts([]))
    case Text(_) => Ok(Texts([]))
  }

  /** The lambda for the species guess (dataset_Loader.py:79-81) and the taxon name (dataset_Loader.py:83-85):
      a falsy cell becomes UNKNOWN, a truthy scalar becomes the normalised
      text of its string; a truthy list is not a text. */
  function NormalizedOrUnknown(cfg: Config, v: Value): Result<Value, Error>
  {
    if !Truthy(v) then Ok(Text(cfg.unknown))
    else if v.Null? || v.NaN? || v.Text? then Ok(Text(NormalizeText(Str(v))))
    else Err(NotText)
  }

  /** The lambda for the user login (dataset_Loader.py:82): a truthy cell is kept as it is, a
      falsy one becomes UNKNOWN. */
  function LoginOrUnknown(cfg: Config, v: Value): Value {
    if Truthy(v) then v else Text(cfg.unknown)
  }

  /** The guess and name rule: a falsy cell becomes UNKNOWN and a truthy text
      its normalisation, always a text; only a truthy list fails. A blank text
      is truthy, so it becomes the empty string, not UNKNOWN; a missing cell
      that pandas filled with NaN is truthy too and becomes "nan". */
  lemma NormalizedOrUnknownCases(cfg: Config, v: Value)
    ensures NormalizedOrUnknown(cfg, v).Ok? ==> NormalizedOrUnknown(cfg, v).value.Text?
    ensures NormalizedOrUnknown(cfg, v).Err? <==> Truthy(v) && (v.Items? || v.Texts? || v.Vector?)
    ensures !Truthy(v) ==> NormalizedOrUnknown(cfg, v) == Ok(Text(cfg.unknown))
    ensures Truthy(v) && v.Text? ==> NormalizedOrUnknown(cfg, v) == Ok(Text(NormalizeText(v.s)))
    ensures v.Text? && v.s != [] && AllSpace(v.s) ==> NormalizedOrUnknown(cfg, v) == Ok(Text([]))
    ensures v.NaN? ==> NormalizedOrUnknown(cfg, v) == Ok(Text("nan"))
  {
    if v.Text? && v.s != [] && AllSpace(v.s) {
      NormalizeBlank(v.s);
    }
    if v.NaN? {
      NormalizeNan();
    }
  }

  /** "nan" is already normalised. */
  lemma NormalizeNan()
    ensures NormalizeText("nan") == "nan"
  {
    var s := "nan";
    LowerUnchanged(s);
    StripSlice(s, s, 0);
    assert s[0..0 + |s|] == s;
  }

  /** The login is never normalised: a truthy login is kept exactly as it is,
      so one with an upper-case letter differs from what the guess and name
      rule would make of it, and a falsy one becomes UNKNOWN. */
  lemma LoginOrUnknownCases(cfg: Config, v: Value)
    ensures Truthy(v) ==> LoginOrUnknown(cfg, v) == v
    ensures !Truthy(v) ==> LoginOrUnknown(cfg, v) == Text(cfg.unknown)
    ensures v.Text? && (exists k :: 0 <= k < |v.s| && IsUpper(v.s[k])) ==>
              LoginOrUnknown(cfg, v) != NormalizedOrUnknown(cfg, v).value
  {
    if v.Text? && (exists k :: 0 <= k < |v.s| && IsUpper(v.s[k])) {
      var k :| 0 <= k < |v.s| && IsUpper(v.s[k]);
      NormalizeTextChanges(v.s, k);
      assert Truthy(v) && Str(v) == v.s;
      assert NormalizedOrUnknown(cfg, v) == Ok(Text(NormalizeText(v.s)));
    }
  }

  /** A photo URL holding the square tag once gets the medium tag in its
      place and is otherwise unchanged; a URL without the tag is unchanged. */
  lemma MediumUrlOfSquareUrl(cfg: Config, p: string, q: string)
    requires cfg.squareSuffix != []
    requires forall i :: 0 <= i <= |p + cfg.squareSuffix + q| && i != |p| ==>
               !OccursAt(p + cfg.squareSuffix + q, cfg.squareSuffix, i)
    ensures PhotoUrls(cfg, Items([map["url" := p + cfg.squareSuffix + q]]))
            == Ok(Texts([p + cfg.mediumSuffix + q]))
  {
    var d: Descriptor := map["url" := p + cfg.squareSuffix + q];
    ReplaceSingle(p, cfg.squareSuffix, q, cfg.mediumSuffix);
    assert MediumUrls(cfg, [d][1..]) == Ok([]);
    assert d["url"] == p + cfg.squareSuffix + q;
    assert [d][0] == d;
    assert MediumUrls(cfg, [d]) == Ok([Replace(d["url"], cfg.squareSuffix, cfg.mediumSuffix)] + []);
    var u := Replace(d["url"], cfg.squareSuffix, cfg.mediumSuffix);
    assert u == p + cfg.mediumSuffix + q;
    assert [u] + [] == [u];
  }

  /** The rewrite of the photos column (dataset_Loader.py:72-78). */
  function PhotoStep(cfg: Config): Step {
    Step(cfg.photos, v => PhotoUrls(cfg, v))
  }

  /** The rewrite of the species-guess column (dataset_Loader.py:79-81). */
  function GuessStep(cfg: Config): Step {
    Step(cfg.speciesGuess, v => NormalizedOrUnknown(cfg, v))
  }

  /** The rewrite of the user-login column (dataset_Loader.py:82). */
  function LoginStep(cfg: Config): Step {
    Step(cfg.userLogin, v => Ok(LoginOrUnknown(cfg, v)))
  }

  /** The rewrite of the taxon-name column (dataset_Loader.py:83-85). */
  function NameStep(cfg: Config): Step {
    Step(cfg.taxonName, v => NormalizedOrUnknown(cfg, v))
  }

  // ---------------------------------------------------------------------
  // Record normalisation: the row-by-row reading of the transform

  /** The normalisation of one projected record: the four rewrites applied
      in the order the transform applies them to whole columns. */
  function NormalizeRow(cfg: Config, row: Row): (r: Result<Row, Error>)
    requires forall c :: c in cfg.Rewritten() ==> c in row
    ensures r.Ok? ==> r.value.Keys == row.Keys
  {
    var photos :- PhotoUrls(cfg, row[cfg.photos]);
    var row1 := row[cfg.photos := photos];
    var guess :- NormalizedOrUnknown(cfg, row1[cfg.speciesGuess]);
    var row2 := row1[cfg.speciesGuess := guess];
    var row3 := row2[cfg.userLogin := LoginOrUnknown(cfg, row2[cfg.userLogin])];
    var name :- NormalizedOrUnknown(cfg, row3[cfg.taxonName]);
    Ok(row3[cfg.taxonName := name])
  }

  /** What normalising a record does, field by field: it fails exactly when
      the photos cell cannot be mapped or a text cell is a list; otherwise
      the photos, guess, login and taxon name are rewritten by their rules,
      the taxon name is always a text, and every other column is copied. */
  lemma NormalizeRowFields(cfg: Config, row: Row)
    requires cfg.DistinctRewrites()
    requires forall c :: c in cfg.Rewritten() ==> c in row
    ensures NormalizeRow(cfg, row).Ok? <==>
              && PhotoUrls(cfg, row[cfg.photos]).Ok?
              && NormalizedOrUnknown(cfg, row[cfg.speciesGuess]).Ok?
              && NormalizedOrUnknown(cfg, row[cfg.taxonName]).Ok?
    ensures NormalizeRow(cfg, row).Ok? ==>
              var out := NormalizeRow(cfg, row).value;
              && out.Keys == row.Keys
              && out[cfg.photos] == PhotoUrls(cfg, row[cfg.photos]).value
              && out[cfg.speciesGuess] == NormalizedOrUnknown(cfg, row[cfg.speciesGuess]).value
              && out[cfg.userLogin] == LoginOrUnknown(cfg, row[cfg.userLogin])
              && out[cfg.taxonName] == NormalizedOrUnknown(cfg, row[cfg.taxonName]).value
              && forall c :: c in row && c !in cfg.Rewritten() ==> out[c] == row[c]
  {
  }

  /** The taxon name of a normalised record is always a text. */
  lemma NormalizeRowNameIsText(cfg: Config, row: Row)
    requires forall c :: c in cfg.Rewritten() ==> c in row
    requires NormalizeRow(cfg, row).Ok?
    ensures cfg.taxonName in NormalizeRow(cfg, row).value
    ensures NormalizeRow(cfg, row).value[cfg.taxonName].Text?
  {
  }

  /** A record whose photos cell is not a list and whose guess and name are
      scalars always normalises: missing values never raise. Its photos
      become the empty list, and a falsy guess, login or name becomes
      UNKNOWN. */
  lemma NormalizeRowTotal(cfg: Config, row: Row)
    requires forall c :: c in cfg.Rewritten() ==> c in row
    requires !row[cfg.photos].Items? && !row[cfg.photos].Texts? && !row[cfg.photos].Vector?
    requires cfg.DistinctRewrites()
    requires row[cfg.speciesGuess].Null? || row[cfg.speciesGuess].NaN? || row[cfg.speciesGuess].Text?
    requires row[cfg.taxonName].Null? || row[cfg.taxonName].NaN? || row[cfg.taxonName].Text?
    ensures NormalizeRow(cfg, row).Ok?
    ensures NormalizeRow(cfg, row).value[cfg.photos] == Texts([])
    ensures !Truthy(row[cfg.speciesGuess]) ==> NormalizeRow(cfg, row).value[cfg.speciesGuess] == Text(cfg.unknown)
    ensures !Truthy(row[cfg.userLogin]) ==> NormalizeRow(cfg, row).value[cfg.userLogin] == Text(cfg.unknown)
    ensures !Truthy(row[cfg.taxonName]) ==> NormalizeRow(cfg, row).value[cfg.taxonName] == Text(cfg.unknown)
  {
    NormalizeRowFields(cfg, row);
    NormalizedOrUnknownCases(cfg, row[cfg.speciesGuess]);
    NormalizedOrUnknownCases(cfg, row[cfg.taxonName]);
  }

  /** Every record of a fragment normalised, in order; the first failure
      propagates. */
  function NormalizeRows(cfg: Config, rows: seq<Row>): (r: Result<seq<Row>, Error>)
    requires forall i, c :: 0 <= i < |rows| && c in cfg.Rewritten() ==> c in rows[i]
    ensures r.Ok? <==> forall i :: 0 <= i < |rows| ==> NormalizeRow(cfg, rows[i]).Ok?
    ensures r.Ok? ==> |r.value| == |rows| && forall i :: 0 <= i < |rows| ==> r.value[i] == NormalizeRow(cfg, rows[i]).value
    ensures r.Ok? ==> forall i :: 0 <= i < |rows| ==> r.value[i].Keys == rows[i].Keys
  {
    if rows == [] then Ok([])
    else
      var first :- NormalizeRow(cfg, rows[0]);
      var rest :- NormalizeRows(cfg, rows[1..]);
      assert forall i :: 1 <= i < |rows| ==> rows[1..][i - 1] == rows[i];
      Ok([first] + rest)
  }

  /** `transform_json_to_dataset(fragment)` read record by record: select the
      dataset columns, check that the rewritten columns are among them, and
      normalise every projected record. */
  function NormalizeFragment(cfg: Config, fragment: seq<Row>): (r: Result<Frame, Error>)
    ensures r.Ok? ==> r.value.Valid() && r.value.columns == cfg.columns && cfg.SelectsRewritten()
  {
    var df :- SelectColumns(cfg.columns, fragment);
    match FirstMissing(cfg.Rewritten(), ColumnSet(cfg.columns))
    case Some(c) => Err(KeyError(Text(c)))
    case None =>
      SelectedRowsHaveRewritten(cfg, df);
      var rows :- NormalizeRows(cfg, df.rows);
      Ok(Frame(cfg.columns, rows))
  }

  /** Every row of a table with the dataset columns has the rewritten columns
      when they are among the dataset columns. */
  lemma SelectedRowsHaveRewritten(cfg: Config, df: Frame)
    requires df.Valid() && df.columns == cfg.columns
    requires forall c :: c in cfg.Rewritten() ==> c in ColumnSet(cfg.columns)
    ensures forall i, c :: 0 <= i < |df.rows| && c in cfg.Rewritten() ==> c in df.rows[i]
  {
    forall i, c | 0 <= i < |df.rows| && c in cfg.Rewritten() ensures c in df.rows[i] {
      assert c in ColumnSet(cfg.columns);
      assert df.rows[i].Keys == ColumnSet(cfg.columns);
    }
  }

  /** When the transform succeeds: a KeyError when a dataset column is a key
      of no record or a rewritten column is not a dataset column, otherwise
      whatever the first failing record raises. */
  lemma NormalizeFragmentSucceeds(cfg: Config, fragment: seq<Row>)
    ensures NormalizeFragment(cfg, fragment).Ok? <==>
              && (forall c :: c in cfg.columns ==> exists i :: 0 <= i < |fragment| && c in fragment[i])
              && cfg.SelectsRewritten()
              && (forall i :: 0 <= i < |fragment| ==> NormalizeRow(cfg, Project(cfg.columns, fragment[i])).Ok?)
  {
    if SelectColumns(cfg.columns, fragment).Ok? {
      FragmentViaRows(cfg, fragment);
      if cfg.SelectsRewritten() {
        NormalizeSelectedSucceeds(cfg, fragment);
      }
    }
  }

  /** Once the columns are selected, the transform fails exactly when some
      record fails to normalise. */
  lemma NormalizeSelectedSucceeds(cfg: Config, fragment: seq<Row>)
    requires SelectColumns(cfg.columns, fragment).Ok? && cfg.SelectsRewritten()
    ensures NormalizeFragment(cfg, fragment).Ok? <==>
              forall i :: 0 <= i < |fragment| ==> NormalizeRow(cfg, Project(cfg.columns, fragment[i])).Ok?
  {
    var sel := SelectColumns(cfg.columns, fragment);
    FragmentViaRows(cfg, fragment);
    SelectedRowsHaveRewritten(cfg, sel.value);
    forall i | 0 <= i < |fragment|
      ensures NormalizeRow(cfg, sel.value.rows[i]) == NormalizeRow(cfg, Project(cfg.columns, fragment[i]))
    {
      assert sel.value.rows[i] == Project(cfg.columns, fragment[i]);
    }
  }

  /** What the transform produces: exactly one normalised row per record, in
      the records' order. */
  lemma NormalizeFragmentRows(cfg: Config, fragment: seq<Row>)
    requires NormalizeFragment(cfg, fragment).Ok?
    ensures |NormalizeFragment(cfg, fragment).value.rows| == |fragment|
    ensures forall i :: 0 <= i < |fragment| ==>
              NormalizeRow(cfg, Project(cfg.columns, fragment[i])) == Ok(NormalizeFragment(cfg, fragment).value.rows[i])
  {
    var sel := SelectColumns(cfg.columns, fragment);
    FragmentViaRows(cfg, fragment);
    SelectedRowsHaveRewritten(cfg, sel.value);
    var rows := NormalizeFragment(cfg, fragment).value.rows;
    forall i | 0 <= i < |fragment| ensures NormalizeRow(cfg, Project(cfg.columns, fragment[i])) == Ok(rows[i]) {
      assert sel.value.rows[i] == Project(cfg.columns, fragment[i]);
    }
  }

  /** Normalising a record copies every field other than the four rewritten
      ones; the same fact as the last clause of `NormalizeRowFields`, without
      its requirement that the four rewritten columns be distinct. */
  lemma NormalizeRowKeeps(cfg: Config, row: Row)
    requires forall c :: c in cfg.Rewritten() ==> c in row
    requires NormalizeRow(cfg, row).Ok?
    ensures forall c :: c in row && c !in cfg.Rewritten() ==> NormalizeRow(cfg, row).value[c] == row[c]
  {
  }

  /** A dataset column the transform does not rewrite is copied from the raw
      record: the record's own value, or NaN where the record lacks a key
      that another record of the fragment has. */
  lemma NormalizeFragmentCopies(cfg: Config, fragment: seq<Row>, i: int, c: string)
    requires NormalizeFragment(cfg, fragment).Ok?
    requires 0 <= i < |fragment| && c in cfg.columns && c !in cfg.Rewritten()
    ensures |NormalizeFragment(cfg, fragment).value.rows| == |fragment|
    ensures c in NormalizeFragment(cfg, fragment).value.rows[i]
    ensures NormalizeFragment(cfg, fragment).value.rows[i][c] == (if c in fragment[i] then fragment[i][c] else NaN)
  {
    NormalizeFragmentRows(cfg, fragment);
    var p := Project(cfg.columns, fragment[i]);
    NormalizeRowKeeps(cfg, p);
  }

  /** A record that lacks the photos, guess, login or name key while another
      record of its fragment has it gets NaN there, which is truthy: the
      photos become the empty list, the guess and the name become "nan" and
      the login stays NaN; none of them becomes UNKNOWN. */
  lemma NormalizeFragmentAbsent(cfg: Config, fragment: seq<Row>, i: int)
    requires cfg.DistinctRewrites()
    requires NormalizeFragment(cfg, fragment).Ok? && 0 <= i < |fragment|
    ensures |NormalizeFragment(cfg, fragment).value.rows| == |fragment|
    ensures var row := NormalizeFragment(cfg, fragment).value.rows[i];
      && (forall c :: c in cfg.Rewritten() ==> c in row)
      && (cfg.photos !in fragment[i] ==> row[cfg.photos] == Texts([]))
      && (cfg.speciesGuess !in fragment[i] ==> row[cfg.speciesGuess] == Text("nan"))
      && (cfg.userLogin !in fragment[i] ==> row[cfg.userLogin] == NaN)
      && (cfg.taxonName !in fragment[i] ==> row[cfg.taxonName] == Text("nan"))
  {
    NormalizeFragmentRows(cfg, fragment);
    ProjectedRowAbsent(cfg, fragment[i]);
  }

  /** The missing-field rule for one record, after projection onto the
      dataset columns has filled its absent cells with NaN. */
  lemma ProjectedRowAbsent(cfg: Config, record: Row)
    requires cfg.DistinctRewrites() && cfg.SelectsRewritten()
    requires NormalizeRow(cfg, Project(cfg.columns, record)).Ok?
    ensures var row := NormalizeRow(cfg, Project(cfg.columns, record)).value;
      && (forall c :: c in cfg.Rewritten() ==> c in row)
      && (cfg.photos !in record ==> row[cfg.photos] == Texts([]))
      && (cfg.speciesGuess !in record ==> row[cfg.speciesGuess] == Text("nan"))
      && (cfg.userLogin !in record ==> row[cfg.userLogin] == NaN)
      && (cfg.taxonName !in record ==> row[cfg.taxonName] == Text("nan"))
  {
    NormalizeRowFields(cfg, Project(cfg.columns, record));
    NormalizedOrUnknownCases(cfg, NaN);
  }

  /** The rank column is copied from the raw records, so a transformed row
      passes the species filter exactly when its raw record carries the
      species rank, and the filter keeps as many transformed rows as there
      are such records. */
  lemma FragmentSpeciesRows(cfg: Config, fragment: seq<Row>)
    requires NormalizeFragment(cfg, fragment).Ok?
    requires cfg.taxonRank in cfg.columns && cfg.taxonRank !in cfg.Rewritten()
    ensures var rows := NormalizeFragment(cfg, fragment).value.rows;
      var species := HasValue(cfg.taxonRank, Text(cfg.speciesName));
      && |rows| == |fragment|
      && (forall i :: 0 <= i < |rows| ==> (species(rows[i]) <==> species(fragment[i])))
      && |Filter(rows, species)| == |Filter(fragment, species)|
  {
    var rows := NormalizeFragment(cfg, fragment).value.rows;
    var species := HasValue(cfg.taxonRank, Text(cfg.speciesName));
    NormalizeFragmentRows(cfg, fragment);
    forall i | 0 <= i < |rows| ensures species(rows[i]) <==> species(fragment[i]) {
      NormalizeFragmentCopies(cfg, fragment, i, cfg.taxonRank);
    }
    FilterSameCount(rows, fragment, species);
  }

  /** Applying the four column rewrites to a record one after the other is
      normalising it. */
  lemma NormalizeRowIsSteps(cfg: Config, row: Row)
    requires forall c :: c in cfg.Rewritten() ==> c in row
    ensures RewriteRow(row, cfg.Steps()) == NormalizeRow(cfg, row)
  {
    RewriteFour(row, PhotoStep(cfg), GuessStep(cfg), LoginStep(cfg), NameStep(cfg));
  }

  /** Once the columns are selected, the fragment normalises exactly when the
      rewritten columns are among them and every row normalises. */
  lemma FragmentViaRows(cfg: Config, fragment: seq<Row>)
    requires SelectColumns(cfg.columns, fragment).Ok?
    ensures var df := SelectColumns(cfg.columns, fragment).value;
      && (NormalizeFragment(cfg, fragment).Ok? <==> cfg.SelectsRewritten() && NormalizeRows(cfg, df.rows).Ok?)
      && (NormalizeFragment(cfg, fragment).Ok? ==> NormalizeFragment(cfg, fragment).value == Frame(cfg.columns, NormalizeRows(cfg, df.rows).value))
  {
  }

  /** The column-wise rewrites of a selected table agree with normalising its
      rows one by one: same success, same rows. */
  lemma StepsAgree(cfg: Config, df: Frame)
    requires df.Valid() && df.columns == cfg.columns
    ensures ApplySteps(df, cfg.Steps()).Ok? <==> cfg.SelectsRewritten() && NormalizeRows(cfg, df.rows).Ok?
    ensures ApplySteps(df, cfg.Steps()).Ok? ==>
              ApplySteps(df, cfg.Steps()).value == Frame(cfg.columns, NormalizeRows(cfg, df.rows).value)
  {
    var steps := cfg.Steps();
    ApplyStepsRowwise(df, steps);
    assert forall k :: 0 <= k < |steps| ==> steps[k].column == cfg.Rewritten()[k];
    if !cfg.SelectsRewritten() {
      var c :| c in cfg.Rewritten() && c !in cfg.columns;
      assert ApplySteps(df, steps).Err?;
    } else if ApplySteps(df, steps).Ok? {
      StepsSucceed(cfg, df);
    } else {
      StepsFail(cfg, df);
    }
  }

  lemma RowsAreSteps(cfg: Config, df: Frame)
    requires df.Valid() && df.columns == cfg.columns && cfg.SelectsRewritten()
    ensures forall i :: 0 <= i < |df.rows| ==> RewriteRow(df.rows[i], cfg.Steps()) == NormalizeRow(cfg, df.rows[i])
  {
    forall i | 0 <= i < |df.rows| ensures RewriteRow(df.rows[i], cfg.Steps()) == NormalizeRow(cfg, df.rows[i]) {
      NormalizeRowIsSteps(cfg, df.rows[i]);
    }
  }

  lemma StepsSucceed(cfg: Config, df: Frame)
    requires df.Valid() && df.columns == cfg.columns && cfg.SelectsRewritten()
    requires ApplySteps(df, cfg.Steps()).Ok?
    ensures NormalizeRows(cfg, df.rows).Ok?
    ensures ApplySteps(df, cfg.Steps()).value == Frame(cfg.columns, NormalizeRows(cfg, df.rows).value)
  {
    ApplyStepsRowwise(df, cfg.Steps());
    RowsAreSteps(cfg, df);
    assert ApplySteps(df, cfg.Steps()).value.rows == NormalizeRows(cfg, df.rows).value;
  }

  lemma StepsFail(cfg: Config, df: Frame)
    requires df.Valid() && df.columns == cfg.columns && cfg.SelectsRewritten()
    requires ApplySteps(df, cfg.Steps()).Err?
    ensures NormalizeRows(cfg, df.rows).Err?
  {
    StepColumnsSelected(cfg);
    var i := FailingRow(df, cfg.Steps());
    NormalizeRowIsSteps(cfg, df.rows[i]);
  }

  lemma StepColumnsSelected(cfg: Config)
    requires cfg.SelectsRewritten()
    ensures forall k :: 0 <= k < |cfg.Steps()| ==> cfg.Steps()[k].column in cfg.columns
  {
    var steps := cfg.Steps();
    forall k | 0 <= k < |steps| ensures steps[k].column in cfg.columns {
      assert steps[k].column == cfg.Rewritten()[k];
    }
  }

  /** The column-wise rewrites of the selected table give what the record-by-
      record normalisation gives. */
  lemma TransformAgrees(cfg: Config, fragment: seq<Row>)
    requires SelectColumns(cfg.columns, fragment).Ok?
    ensures var applied := ApplySteps(SelectColumns(cfg.columns, fragment).value, cfg.Steps());
      && (applied.Ok? <==> NormalizeFragment(cfg, fragment).Ok?)
      && (applied.Ok? ==> applied.value == NormalizeFragment(cfg, fragment).value)
  {
    FragmentViaRows(cfg, fragment);
    StepsAgree(cfg, SelectColumns(cfg.columns, fragment).value);
  }

  /** `transform_json_to_dataset(fragment)` as the source runs it: project the
      records onto the dataset columns, then overwrite the photos, guess,
      login and taxon name columns one after the other. It agrees with the
      record-by-record normalisation: same success, same table. */
  method TransformJsonToDataset(cfg: Config, fragment: seq<Row>) returns (r: Result<Frame, Error>)
    ensures r.Ok? <==> NormalizeFragment(cfg, fragment).Ok?
    ensures r.Ok? ==> r.value == NormalizeFragment(cfg, fragment).value
  {
    var df0 := SelectColumns(cfg.columns, fragment);
    if df0.Err? {
      return Err(df0.error);
    }
    TransformAgrees(cfg, fragment);
    ApplyFour(df0.value, PhotoStep(cfg), GuessStep(cfg), LoginStep(cfg), NameStep(cfg));
    var df1 := ApplyStep(df0.value, PhotoStep(cfg));
    if df1.Err? {
      return Err(df1.error);
    }
    var df2 := ApplyStep(df1.value, GuessStep(cfg));
    if df2.Err? {
      return Err(df2.error);
    }
    var df3 := ApplyStep(df2.value, LoginStep(cfg));
    if df3.Err? {
      return Err(df3.error);
    }
    var df4 := ApplyStep(df3.value, NameStep(cfg));
    if df4.Err? {
      return Err(df4.error);
    }
    return Ok(df4.value);
  }

  // ---------------------------------------------------------------------
  // Materialisation: concatenation, species filter, label encoding

  /** Every fragment of the corpus transformed, in order; the first failure
      propagates. */
  function NormalizeFragments(cfg: Config, fragments: seq<seq<Row>>): (r: Result<seq<Frame>, Error>)
    ensures r.Ok? <==> forall k :: 0 <= k < |fragments| ==> NormalizeFragment(cfg, fragments[k]).Ok?
    ensures r.Ok? ==> |r.value| == |fragments|
    ensures r.Ok? ==> forall k :: 0 <= k < |fragments| ==> r.value[k] == NormalizeFragment(cfg, fragments[k]).value
  {
    MapAll(fragments, TransformOf(cfg))
  }

  /** `transform_json_to_dataset` as a function value. */
  function TransformOf(cfg: Config): seq<Row> -> Result<Frame, Error> {
    fragment => NormalizeFragment(cfg, fragment)
  }

  /** Every row holds a text in the taxon-name column. */
  ghost predicate NamesAreText(cfg: Config, rows: seq<Row>) {
    forall row: Row :: row in rows ==> cfg.taxonName in row && row[cfg.taxonName].Text?
  }

  /** What the transform guarantees of its tables: valid, over the dataset
      columns, the rewritten columns among them, a text in every taxon-name
      cell. */
  ghost predicate Transformed(cfg: Config, frames: seq<Frame>) {
    forall k :: 0 <= k < |frames| ==>
      && frames[k].Valid()
      && frames[k].columns == cfg.columns
      && cfg.SelectsRewritten()
      && NamesAreText(cfg, frames[k].rows)
  }

  lemma NormalizeFragmentsTransformed(cfg: Config, fragments: seq<seq<Row>>)
    requires NormalizeFragments(cfg, fragments).Ok?
    ensures Transformed(cfg, NormalizeFragments(cfg, fragments).value)
  {
    var frames := NormalizeFragments(cfg, fragments).value;
    forall k | 0 <= k < |frames| ensures NamesAreText(cfg, frames[k].rows) {
      FragmentNamesAreText(cfg, fragments[k]);
    }
  }

  lemma FragmentNamesAreText(cfg: Config, fragment: seq<Row>)
    requires NormalizeFragment(cfg, fragment).Ok?
    ensures NamesAreText(cfg, NormalizeFragment(cfg, fragment).value.rows)
  {
    var rows := NormalizeFragment(cfg, fragment).value.rows;
    NormalizeFragmentRows(cfg, fragment);
    forall row: Row | row in rows ensures cfg.taxonName in row && row[cfg.taxonName].Text? {
      var i :| 0 <= i < |rows| && rows[i] == row;
      NormalizeRowNameIsText(cfg, Project(cfg.columns, fragment[i]));
    }
  }

  /** The cells of a column read as strings; a TypeError if one is not a text. */
  function Labels(values: seq<Value>): (r: Result<seq<string>, Error>)
    ensures r.Ok? <==> forall i :: 0 <= i < |values| ==> values[i].Text?
    ensures r.Ok? ==> |r.value| == |values| && forall i :: 0 <= i < |values| ==> values[i] == Text(r.value[i])
  {
    if values == [] then Ok([])
    else if !values[0].Text? then Err(TypeError)
    else
      var rest :- Labels(values[1..]);
      assert forall i :: 1 <= i < |values| ==> values[1..][i - 1] == values[i];
      Ok([values[0].s] + rest)
  }

  /** The distinct-values query on the taxon-name column (dataset_Loader.py:107): the distinct names of the column, each
      once. */
  function UniqueLabels(df: Frame, column: string): (r: Result<seq<string>, Error>)
    requires df.Valid()
    ensures r.Ok? <==> column in df.columns && forall i :: 0 <= i < |df.rows| ==> df.rows[i][column].Text?
    ensures r.Ok? ==> forall l :: l in r.value <==> exists i :: 0 <= i < |df.rows| && df.rows[i][column] == Text(l)
    ensures r.Ok? ==> forall i, j :: 0 <= i < j < |r.value| ==> r.value[i] != r.value[j]
  {
    if column !in df.columns then Err(KeyError(Text(column)))
    else
      var labels :- Labels(Column(df, column));
      LabelsOfColumn(df, column);
      Ok(Unique(labels))
  }

  /** The labels read from a column are the texts of its cells. */
  lemma LabelsOfColumn(df: Frame, column: string)
    requires df.Valid() && column in df.columns && Labels(Column(df, column)).Ok?
    ensures forall l :: l in Labels(Column(df, column)).value <==>
              exists i :: 0 <= i < |df.rows| && df.rows[i][column] == Text(l)
  {
    var labels := Labels(Column(df, column)).value;
    forall l | l in labels ensures exists i :: 0 <= i < |df.rows| && df.rows[i][column] == Text(l) {
      var i :| 0 <= i < |labels| && labels[i] == l;
      assert Column(df, column)[i] == Text(l);
    }
    forall l | (exists i :: 0 <= i < |df.rows| && df.rows[i][column] == Text(l)) ensures l in labels {
      var i :| 0 <= i < |df.rows| && df.rows[i][column] == Text(l);
      assert Column(df, column)[i] == Text(labels[i]);
    }
  }

  /** The dictionary lookup of dataset_Loader.py:110: the vector of a known name; a KeyError for
      an unknown key and a TypeError for a list, which cannot be a key. */
  function LookupLabel(encoding: map<string, seq<int>>, v: Value): (r: Result<Value, Error>)
    ensures r.Ok? <==> v.Text? && v.s in encoding
    ensures r.Ok? ==> r.value == Vector(encoding[v.s])
  {
    match v
    case Text(s) => if s in encoding then Ok(Vector(encoding[s])) else Err(KeyError(v))
    case Items(_) => Err(TypeError)
    case Texts(_) => Err(TypeError)
    case Vector(_) => Err(TypeError)
    case Null => Err(KeyError(v))
    case NaN => Err(KeyError(v))
  }

  /** The lambda of dataset_Loader.py:110. */
  function Lookup(encoding: map<string, seq<int>>): Value -> Result<Value, Error> {
    v => LookupLabel(encoding, v)
  }

  /** The rows of the transformed tables whose rank is the species rank, in
      table order and then row order. */
  function SpeciesRows(cfg: Config, frames: seq<Frame>): (r: seq<Row>)
    ensures forall row :: row in r <==>
              row in AllRows(frames) && cfg.taxonRank in row && row[cfg.taxonRank] == Text(cfg.speciesName)
  {
    Filter(AllRows(frames), HasValue(cfg.taxonRank, Text(cfg.speciesName)))
  }

  /** The distinct taxon names of `rows`. */
  function SpeciesNames(cfg: Config, rows: seq<Row>): set<string> {
    set i | 0 <= i < |rows| && cfg.taxonName in rows[i] && rows[i][cfg.taxonName].Text? :: rows[i][cfg.taxonName].s
  }

  /** `save_json_dataset` after the fragments are transformed (dataset_Loader.py:102-110):
      concatenate, keep the species rows, encode their distinct names and
      attach each row's vector. */
  function LabelFrames(cfg: Config, frames: seq<Frame>): (r: Result<Frame, Error>)
    requires Transformed(cfg, frames)
    ensures r.Ok? ==> r.value.Valid() && r.value.columns == AddColumn(cfg.columns, cfg.encodedLabels)
  {
    var all :- Concat(frames);
    var kept :- KeepRows(all, cfg.taxonRank, Text(cfg.speciesName));
    var labels :- UniqueLabels(kept, cfg.taxonName);
    var encoding :- EncodeLabels(labels);
    ApplyColumn(kept, cfg.taxonName, cfg.encodedLabels, Lookup(encoding))
  }

  /** The table `save_json_dataset(json_content)` writes, or the exception it
      raises before writing: a KeyError without a `"dataset"` key, otherwise
      the first failure of the transform or of the labelling. */
  function Materialize(cfg: Config, json: map<string, seq<seq<Row>>>): (r: Result<Frame, Error>)
    ensures "dataset" !in json ==> r == Err(KeyError(Text("dataset")))
  {
    if "dataset" !in json then Err(KeyError(Text("dataset")))
    else
      var frames :- NormalizeFragments(cfg, json["dataset"]);
      NormalizeFragmentsTransformed(cfg, json["dataset"]);
      LabelFrames(cfg, frames)
  }

  /** Fragment order: the species rows of one more table come after those of
      the tables before it. */
  lemma SpeciesRowsAppend(cfg: Config, frames: seq<Frame>, f: Frame)
    ensures SpeciesRows(cfg, frames + [f]) ==
              SpeciesRows(cfg, frames) + Filter(f.rows, HasValue(cfg.taxonRank, Text(cfg.speciesName)))
  {
    AllRowsAppend(frames, f);
    FilterAppend(AllRows(frames), f.rows, HasValue(cfg.taxonRank, Text(cfg.speciesName)));
  }

  /** The rows the filter keeps: the species rows, over the dataset columns,
      each with a text taxon name. */
  lemma KeptRows(cfg: Config, frames: seq<Frame>)
    requires Transformed(cfg, frames) && frames != [] && cfg.taxonRank in cfg.columns
    ensures Concat(frames).Ok? && Concat(frames).value.Valid()
    ensures KeepRows(Concat(frames).value, cfg.taxonRank, Text(cfg.speciesName)).Ok?
    ensures var kept := KeepRows(Concat(frames).value, cfg.taxonRank, Text(cfg.speciesName)).value;
      && kept.columns == cfg.columns
      && kept.rows == SpeciesRows(cfg, frames)
      && cfg.SelectsRewritten()
      && forall i :: 0 <= i < |kept.rows| ==> cfg.taxonName in kept.rows[i] && kept.rows[i][cfg.taxonName].Text?
  {
    var all := Concat(frames).value;
    var kept := KeepRows(all, cfg.taxonRank, Text(cfg.speciesName)).value;
    AllRowsMembers(frames);
    forall i | 0 <= i < |kept.rows| ensures cfg.taxonName in kept.rows[i] && kept.rows[i][cfg.taxonName].Text? {
      assert kept.rows[i] in all.rows;
      var k :| 0 <= k < |frames| && kept.rows[i] in frames[k].rows;
    }
  }

  /** The names the encoder learns are the distinct taxon names of the kept rows. */
  lemma KeptLabels(cfg: Config, kept: Frame)
    requires kept.Valid() && cfg.taxonName in kept.columns
    requires forall i :: 0 <= i < |kept.rows| ==> kept.rows[i][cfg.taxonName].Text?
    ensures UniqueLabels(kept, cfg.taxonName).Ok?
    ensures ColumnSet(UniqueLabels(kept, cfg.taxonName).value) == SpeciesNames(cfg, kept.rows)
    ensures UniqueLabels(kept, cfg.taxonName).value == [] <==> kept.rows == []
  {
    var labels := UniqueLabels(kept, cfg.taxonName).value;
    forall l | l in SpeciesNames(cfg, kept.rows) ensures l in labels {
      var i :| 0 <= i < |kept.rows| && cfg.taxonName in kept.rows[i] && kept.rows[i][cfg.taxonName].Text? && kept.rows[i][cfg.taxonName].s == l;
      assert kept.rows[i][cfg.taxonName] == Text(l);
    }
    if kept.rows != [] {
      assert kept.rows[0][cfg.taxonName] == Text(kept.rows[0][cfg.taxonName].s);
      assert kept.rows[0][cfg.taxonName].s in labels;
    }
  }

  /** The labelling succeeds exactly when there is at least one table, the
      rank is a dataset column and some row has the species rank: the
      encoder refuses an empty set of names, and otherwise every lookup
      finds its name. */
  lemma LabelFramesSucceeds(cfg: Config, frames: seq<Frame>)
    requires Transformed(cfg, frames)
    ensures LabelFrames(cfg, frames).Ok? <==>
              frames != [] && cfg.taxonRank in cfg.columns && SpeciesRows(cfg, frames) != []
  {
    if frames != [] && cfg.taxonRank in cfg.columns {
      KeptRows(cfg, frames);
      var kept := KeepRows(Concat(frames).value, cfg.taxonRank, Text(cfg.speciesName)).value;
      KeptLabels(cfg, kept);
      var labels := UniqueLabels(kept, cfg.taxonName).value;
      if kept.rows != [] {
        var encoding := EncodeLabels(labels).value;
        forall i | 0 <= i < |kept.rows| ensures LookupLabel(encoding, kept.rows[i][cfg.taxonName]).Ok? {
          assert kept.rows[i][cfg.taxonName] == Text(kept.rows[i][cfg.taxonName].s);
        }
      }
    }
  }

  /** The written rows: one per species row, in order, each the species row
      with its name's indicator vector in the label column; as many as there
      are species-rank rows in the transformed tables. */
  lemma LabelFramesRows(cfg: Config, frames: seq<Frame>)
    requires Transformed(cfg, frames) && LabelFrames(cfg, frames).Ok?
    ensures var r := LabelFrames(cfg, frames).value;
      var species := SpeciesRows(cfg, frames);
      var names := SpeciesNames(cfg, species);
      && r.columns == AddColumn(cfg.columns, cfg.encodedLabels)
      && |r.rows| == |species| == |Positions(AllRows(frames), HasValue(cfg.taxonRank, Text(cfg.speciesName)))|
      && forall i :: 0 <= i < |species| ==>
           && cfg.taxonName in species[i] && species[i][cfg.taxonName].Text?
           && r.rows[i] == species[i][cfg.encodedLabels := Vector(OneHot(|names|, Rank(species[i][cfg.taxonName].s, names)))]
  {
    LabelFramesSucceeds(cfg, frames);
    KeptRows(cfg, frames);
    var kept := KeepRows(Concat(frames).value, cfg.taxonRank, Text(cfg.speciesName)).value;
    KeptVectors(cfg, kept);
    FilterCount(AllRows(frames), HasValue(cfg.taxonRank, Text(cfg.speciesName)));
  }

  /** Looking up a kept row's name in the encoding of the kept names gives
      the indicator vector of that name's rank. */
  lemma KeptVectors(cfg: Config, kept: Frame)
    requires kept.Valid() && cfg.taxonName in kept.columns && kept.rows != []
    requires forall i :: 0 <= i < |kept.rows| ==> kept.rows[i][cfg.taxonName].Text?
    ensures UniqueLabels(kept, cfg.taxonName).Ok? && EncodeLabels(UniqueLabels(kept, cfg.taxonName).value).Ok?
    ensures var names := SpeciesNames(cfg, kept.rows);
      var encoding := EncodeLabels(UniqueLabels(kept, cfg.taxonName).value).value;
      forall i :: 0 <= i < |kept.rows| ==>
        LookupLabel(encoding, kept.rows[i][cfg.taxonName]) == Ok(Vector(OneHot(|names|, Rank(kept.rows[i][cfg.taxonName].s, names))))
  {
    KeptLabels(cfg, kept);
    var names := SpeciesNames(cfg, kept.rows);
    var encoding := EncodeLabels(UniqueLabels(kept, cfg.taxonName).value).value;
    forall i | 0 <= i < |kept.rows|
      ensures LookupLabel(encoding, kept.rows[i][cfg.taxonName]) == Ok(Vector(OneHot(|names|, Rank(kept.rows[i][cfg.taxonName].s, names))))
    {
      assert kept.rows[i][cfg.taxonName] == Text(kept.rows[i][cfg.taxonName].s);
    }
  }

  /** Every written row's label is a standard basis vector with one position
      per distinct species name, at its name's rank; two rows share a vector
      exactly when they share a name. */
  lemma LabelFramesVectors(cfg: Config, frames: seq<Frame>, i: int, j: int)
    requires Transformed(cfg, frames) && LabelFrames(cfg, frames).Ok?
    requires 0 <= i < |SpeciesRows(cfg, frames)| && 0 <= j < |SpeciesRows(cfg, frames)|
    ensures var r := LabelFrames(cfg, frames).value;
      var species := SpeciesRows(cfg, frames);
      var names := SpeciesNames(cfg, species);
      && |r.rows| == |species|
      && cfg.encodedLabels in r.rows[i] && r.rows[i][cfg.encodedLabels].Vector?
      && IsBasis(r.rows[i][cfg.encodedLabels].bits, Rank(species[i][cfg.taxonName].s, names))
      && |r.rows[i][cfg.encodedLabels].bits| == |names|
      && (species[i][cfg.taxonName] == species[j][cfg.taxonName] <==> r.rows[i][cfg.encodedLabels] == r.rows[j][cfg.encodedLabels])
  {
    LabelFramesRows(cfg, frames);
    var species := SpeciesRows(cfg, frames);
    var names := SpeciesNames(cfg, species);
    var a, b := species[i][cfg.taxonName].s, species[j][cfg.taxonName].s;
    assert a in names && b in names;
    OneHotOfRanks(names, a, b);
  }

  /** No holes: every basis vector of length k, for k distinct species
      names, is the label of some written row. */
  lemma LabelFramesDense(cfg: Config, frames: seq<Frame>, position: int)
    requires Transformed(cfg, frames) && LabelFrames(cfg, frames).Ok?
    requires 0 <= position < |SpeciesNames(cfg, SpeciesRows(cfg, frames))|
    ensures var r := LabelFrames(cfg, frames).value;
      exists i :: 0 <= i < |r.rows| && cfg.encodedLabels in r.rows[i] && r.rows[i][cfg.encodedLabels].Vector? &&
                  IsBasis(r.rows[i][cfg.encodedLabels].bits, position)
  {
    var species := SpeciesRows(cfg, frames);
    var names := SpeciesNames(cfg, species);
    RanksDense(names);
    assert position in Indices(|names|);
    var l :| l in names && Rank(l, names) == position;
    var i := RowOfName(cfg, species, l);
    LabelFramesVectors(cfg, frames, i, i);
    var r := LabelFrames(cfg, frames).value;
    assert 0 <= i < |r.rows| && IsBasis(r.rows[i][cfg.encodedLabels].bits, position);
  }

  /** A row that carries a given species name. */
  lemma RowOfName(cfg: Config, rows: seq<Row>, name: string) returns (i: int)
    requires name in SpeciesNames(cfg, rows)
    ensures 0 <= i < |rows| && cfg.taxonName in rows[i] && rows[i][cfg.taxonName] == Text(name)
  {
    i :| 0 <= i < |rows| && cfg.taxonName in rows[i] && rows[i][cfg.taxonName].Text? && rows[i][cfg.taxonName].s == name;
  }

  /** `save_json_dataset` writes exactly when the corpus has a `"dataset"`
      key holding at least one fragment, every fragment transforms, the rank
      is a dataset column and some row has the species rank. */
  lemma MaterializeSucceeds(cfg: Config, json: map<string, seq<seq<Row>>>)
    ensures Materialize(cfg, json).Ok? <==>
              && "dataset" in json
              && NormalizeFragments(cfg, json["dataset"]).Ok?
              && json["dataset"] != []
              && cfg.taxonRank in cfg.columns
              && SpeciesRows(cfg, NormalizeFragments(cfg, json["dataset"]).value) != []
  {
    if "dataset" in json && NormalizeFragments(cfg, json["dataset"]).Ok? {
      NormalizeFragmentsTransformed(cfg, json["dataset"]);
      LabelFramesSucceeds(cfg, NormalizeFragments(cfg, json["dataset"]).value);
    }
  }

  /** The raw records of a corpus, fragment after fragment. */
  function Records(fragments: seq<seq<Row>>): seq<Row> {
    if fragments == [] then [] else Records(fragments[..|fragments| - 1]) + fragments[|fragments| - 1]
  }

  /** Transforming one fragment fewer gives the tables of the earlier ones. */
  lemma NormalizeFragmentsInit(cfg: Config, fragments: seq<seq<Row>>)
    requires fragments != [] && NormalizeFragments(cfg, fragments).Ok?
    ensures var n := |fragments| - 1;
      var frames := NormalizeFragments(cfg, fragments).value;
      && NormalizeFragments(cfg, fragments[..n]).Ok?
      && frames == NormalizeFragments(cfg, fragments[..n]).value + [frames[n]]
      && NormalizeFragment(cfg, fragments[n]) == Ok(frames[n])
  {
    MapAllInit(fragments, TransformOf(cfg));
  }

  /** The species rows of the transformed corpus are exactly as many as the
      raw records whose rank is the species rank. */
  lemma {:induction false} SpeciesCount(cfg: Config, fragments: seq<seq<Row>>)
    requires NormalizeFragments(cfg, fragments).Ok?
    requires cfg.taxonRank in cfg.columns && cfg.taxonRank !in cfg.Rewritten()
    ensures |SpeciesRows(cfg, NormalizeFragments(cfg, fragments).value)|
            == |Filter(Records(fragments), HasValue(cfg.taxonRank, Text(cfg.speciesName)))|
    decreases |fragments|
  {
    if fragments != [] {
      var n := |fragments| - 1;
      var frames := NormalizeFragments(cfg, fragments).value;
      var species := HasValue(cfg.taxonRank, Text(cfg.speciesName));
      NormalizeFragmentsInit(cfg, fragments);
      SpeciesCount(cfg, fragments[..n]);
      SpeciesRowsAppend(cfg, NormalizeFragments(cfg, fragments[..n]).value, frames[n]);
      FilterAppend(Records(fragments[..n]), fragments[n], species);
      FragmentSpeciesRows(cfg, fragments[n]);
    }
  }

  /** The table the save writes has one row per raw record of the corpus
      whose rank is the species rank. */
  lemma MaterializeCount(cfg: Config, json: map<string, seq<seq<Row>>>)
    requires Materialize(cfg, json).Ok?
    requires cfg.taxonRank !in cfg.Rewritten()
    ensures "dataset" in json
    ensures |Materialize(cfg, json).value.rows|
            == |Filter(Records(json["dataset"]), HasValue(cfg.taxonRank, Text(cfg.speciesName)))|
  {
    MaterializeSucceeds(cfg, json);
    var frames := NormalizeFragments(cfg, json["dataset"]).value;
    NormalizeFragmentsTransformed(cfg, json["dataset"]);
    LabelFramesRows(cfg, frames);
    SpeciesCount(cfg, json["dataset"]);
  }

  // ---------------------------------------------------------------------
  // The write

  /** The CSV file `to_csv` writes (dataset_Loader.py:113): the table it last received, if any. */
  class CsvFile {
    const path: string
    var table: Option<Frame>

    constructor(path: string)
      ensures this.path == path && table == None
    {
      this.path := path;
      table := None;
    }

    /** Writing a table to the file: the file now holds `df`. */
    method ToCsv(df: Frame)
      modifies this
      ensures table == Some(df)
    {
      table := Some(df);
    }
  }

  /** The list comprehension of dataset_Loader.py:99-101: each fragment transformed in turn;
      the first exception propagates. */
  method TransformFragments(cfg: Config, fragments: seq<seq<Row>>) returns (r: Result<seq<Frame>, Error>)
    ensures r.Ok? <==> NormalizeFragments(cfg, fragments).Ok?
    ensures r.Ok? ==> r.value == NormalizeFragments(cfg, fragments).value
  {
    var frames: seq<Frame> := [];
    ghost var transform := TransformOf(cfg);
    assert fragments[..0] == [];
    for k := 0 to |fragments|
      invariant MapAll(fragments[..k], transform) == Ok(frames)
    {
      PrefixSnoc(fragments, k);
      MapAllSnoc(fragments[..k], fragments[k], transform);
      var df := TransformJsonToDataset(cfg, fragments[k]);
      if df.Err? {
        assert transform(fragments[k]).Err?;
        return Err(df.error);
      }
      frames := frames + [df.value];
    }
    assert fragments[..|fragments|] == fragments;
    return Ok(frames);
  }

  /** `save_json_dataset` (dataset_Loader.py:88-118): each
      fragment is transformed in turn, then the tables are concatenated,
      filtered and labelled, and the file is written as the very last step.
      It raises (here: returns the error) exactly when the specification
      function fails, writes exactly the table it computes, and leaves the
      file untouched on every failure. */
  method SaveJsonDataset(cfg: Config, file: CsvFile, json: map<string, seq<seq<Row>>>) returns (r: Result<Frame, Error>)
    modifies file
    ensures r.Ok? <==> Materialize(cfg, json).Ok?
    ensures r.Ok? ==> r.value == Materialize(cfg, json).value
    ensures file.table == (if r.Ok? then Some(r.value) else old(file.table))
  {
    if "dataset" !in json {
      return Err(KeyError(Text("dataset")));
    }
    var fragments := json["dataset"];
    var transformed := TransformFragments(cfg, fragments);
    if transformed.Err? {
      return Err(transformed.error);
    }
    var frames := transformed.value;
    NormalizeFragmentsTransformed(cfg, fragments);
    var all := Concat(frames);
    if all.Err? {
      return Err(all.error);
    }
    var kept := KeepRows(all.value, cfg.taxonRank, Text(cfg.speciesName));
    if kept.Err? {
      return Err(kept.error);
    }
    var labels := UniqueLabels(kept.value, cfg.taxonName);
    if labels.Err? {
      return Err(labels.error);
    }
    var encoding := EncodeLabels(labels.value);
    if encoding.Err? {
      return Err(encoding.error);
    }
    var df := ApplyColumn(kept.value, cfg.taxonName, cfg.encodedLabels, Lookup(encoding.value));
    if df.Err? {
      return Err(df.error);
    }
    file.ToCsv(df.value);
    return Ok(df.value);
  }
}
