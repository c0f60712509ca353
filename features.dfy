/**
 * Feature-vector construction for one house (app.py, `yn`, `base_vals` and
 * `build_features_df`): the form values become a single row whose columns
 * are what the loaded regression model was fit with.
 *
 * A row is a sequence of named cells, in the insertion order a Python dict
 * and a one-row pandas DataFrame keep. Reading a column the row does not
 * have is a `KeyError` in pandas; here `Lookup` requires the column.
 */
module Features {
  import opened Wrappers

  datatype Cell = Cell(name: string, value: int)
  type Row = seq<Cell>

  /** The three choices of the "Furnishing Status" select box. */
  datatype Furnishing = Furnished | SemiFurnished | Unfurnished

  /** What the form collects for one house (the free-text location is not a feature). */
  datatype House = House(
    area: int, bedrooms: int, bathrooms: int, stories: int, parking: int,
    mainroad: string, guestroom: string, basement: string,
    hotwaterheating: string, airconditioning: string, prefarea: string,
    furnishing: Furnishing)

  /** What the loaded model declares about its inputs: `n_features_in_` and `feature_names_in_`, each possibly absent. */
  datatype Schema = Schema(expectedCount: Option<int>, expectedNames: Option<seq<string>>)

  /** The names of the columns of a row, in order. */
  function Columns(row: Row): (names: seq<string>)
    ensures |names| == |row|
    ensures forall i :: 0 <= i < |row| ==> names[i] == row[i].name
  {
    if row == [] then [] else [row[0].name] + Columns(row[1..])
  }

  ghost predicate Distinct(names: seq<string>) {
    forall i, j :: 0 <= i < j < |names| ==> names[i] != names[j]
  }

  /** The value of column `name`: the first cell carrying that name. */
  function Lookup(row: Row, name: string): (v: int)
    requires name in Columns(row)
    ensures Cell(name, v) in row
  {
    if row[0].name == name then row[0].value else Lookup(row[1..], name)
  }

  /** The value of column `name`, or 0 when the row has no such column. */
  function ValueOrZero(row: Row, name: string): (v: int) {
    if name in Columns(row) then Lookup(row, name) else 0
  }

  /** The `yn` lambda: "Yes" becomes 1, any other string 0. */
  function Yn(v: string): (flag: int)
    ensures 0 <= flag <= 1
    ensures flag == 1 <==> v == "Yes"
  {
    if v == "Yes" then 1 else 0
  }

  /** The `fs_map` of the label-encoded layout. */
  function LabelCode(f: Furnishing): (code: int)
    ensures 0 <= code <= 2
  {
    match f
    case Furnished => 0
    case SemiFurnished => 1
    case Unfurnished => 2
  }

  /** The keys of `base_vals`, in the order the dict literal lists them. */
  const BaseColumns: seq<string> := [
    "area", "bedrooms", "bathrooms", "stories", "mainroad", "guestroom",
    "basement", "hotwaterheating", "airconditioning", "parking", "prefarea"]

  const LabelColumn: string := "furnishingstatus"
  const FurnishedColumn: string := "furnishingstatus_furnished"
  const SemiFurnishedColumn: string := "furnishingstatus_semi-furnished"

  /** `base_vals`: the eleven numeric and yes/no fields. */
  function BaseVals(h: House): (row: Row)
    ensures Columns(row) == BaseColumns
  {
    [Cell("area", h.area), Cell("bedrooms", h.bedrooms), Cell("bathrooms", h.bathrooms),
     Cell("stories", h.stories), Cell("mainroad", Yn(h.mainroad)),
     Cell("guestroom", Yn(h.guestroom)), Cell("basement", Yn(h.basement)),
     Cell("hotwaterheating", Yn(h.hotwaterheating)),
     Cell("airconditioning", Yn(h.airconditioning)), Cell("parking", h.parking),
     Cell("prefarea", Yn(h.prefarea))]
  }

  /**
   * The layout test `expected_features and expected_features == len(base_vals)+1`:
   * a present, non-zero count one more than the number of base fields.
   */
  predicate UsesLabelEncoding(expectedCount: Option<int>)
    ensures UsesLabelEncoding(expectedCount) <==> expectedCount == Some(12)
  {
    expectedCount.Some? && expectedCount.value != 0 &&
    expectedCount.value == |BaseColumns| + 1
  }

  /** The row before alignment: base fields, then the furnishing column(s) of the chosen layout. */
  function Encode(h: House, expectedCount: Option<int>): (row: Row)
    ensures |row| == if UsesLabelEncoding(expectedCount) then 12 else 13
    ensures row[..|BaseColumns|] == BaseVals(h)
  {
    if UsesLabelEncoding(expectedCount) then
      BaseVals(h) + [Cell(LabelColumn, LabelCode(h.furnishing))]
    else
      BaseVals(h) + [Cell(FurnishedColumn, if h.furnishing == Furnished then 1 else 0),
                     Cell(SemiFurnishedColumn, if h.furnishing == SemiFurnished then 1 else 0)]
  }

  /** Exactly the declared names in their order, each carrying the row's value for it or 0. */
  function Aligned(row: Row, names: seq<string>): (out: Row)
    ensures Columns(out) == names
  {
    seq(|names|, i requires 0 <= i < |names| => Cell(names[i], ValueOrZero(row, names[i])))
  }

  /** The row `build_features_df` returns, stated without its loops. */
  function FeatureRow(h: House, schema: Schema): (row: Row)
    ensures schema.expectedNames.Some? ==> Columns(row) == schema.expectedNames.value
    ensures schema.expectedNames.None? ==> |row| == if schema.expectedCount == Some(12) then 12 else 13
  {
    var encoded := Encode(h, schema.expectedCount);
    match schema.expectedNames
    case None => encoded
    case Some(names) => Aligned(encoded, names)
  }

  /** Appending a cell does not change an existing column and adds the new one. */
  lemma {:induction false} LookupAppend(row: Row, c: Cell, name: string)
    requires name in Columns(row) || name == c.name
    ensures Columns(row + [c]) == Columns(row) + [c.name]
    ensures name in Columns(row + [c])
    ensures Lookup(row + [c], name) == if name in Columns(row) then Lookup(row, name) else c.value
  {
    assert Columns(row + [c]) == Columns(row) + [c.name];
    if row != [] {
      assert (row + [c])[1..] == row[1..] + [c];
      if row[0].name != name {
        assert name in Columns(row) ==> name in Columns(row[1..]) by {
          if name in Columns(row) {
            var k :| 0 <= k < |row| && Columns(row)[k] == name;
            assert Columns(row[1..])[k - 1] == name;
          }
        }
        LookupAppend(row[1..], c, name);
      }
    }
  }

  /** In a row without repeated names, the column of cell `i` reads back that cell's value. */
  lemma {:induction false} LookupDistinct(row: Row, i: int)
    requires Distinct(Columns(row)) && 0 <= i < |row|
    ensures Lookup(row, row[i].name) == row[i].value
  {
    if i > 0 {
      assert Columns(row)[0] != Columns(row)[i];
      assert Distinct(Columns(row[1..])) by {
        forall a, b | 0 <= a < b < |row| - 1 ensures Columns(row[1..])[a] != Columns(row[1..])[b] {
          assert Columns(row)[a + 1] != Columns(row)[b + 1];
        }
      }
      assert row[1..][i - 1] == row[i];
      LookupDistinct(row[1..], i - 1);
    }
  }

  /**
   * One step of the padding loop keeps its invariant: appending a new column
   * with value 0 leaves every column reading the encoded value, or 0.
   */
  lemma PadStep(row: Row, x: Row, c: Cell)
    requires forall n :: n in Columns(x) ==> Lookup(x, n) == ValueOrZero(row, n)
    requires forall n :: n in Columns(row) ==> n in Columns(x)
    requires c.name !in Columns(x) && c.value == 0
    ensures Columns(x + [c]) == Columns(x) + [c.name]
    ensures forall n :: n in Columns(x + [c]) ==> Lookup(x + [c], n) == ValueOrZero(row, n)
  {
    LookupAppend(x, c, c.name);
    forall n | n in Columns(x + [c])
      ensures Lookup(x + [c], n) == ValueOrZero(row, n)
    {
      LookupAppend(x, c, n);
    }
  }

  /**
   * The invariant of the padding loop after the first `k` declared names:
   * `x` is `row` followed by appended zero columns, each a declared name
   * missing from `row` and appended once, and every one of those `k` names
   * is a column.
   */
  ghost predicate PaddedUpTo(row: Row, names: seq<string>, k: int, x: Row)
    requires 0 <= k <= |names|
  {
    && |row| <= |x| && x[..|row|] == row
    && (forall i :: |row| <= i < |x| ==>
          x[i].value == 0 && x[i].name in names[..k] && x[i].name !in Columns(row))
    && (forall i, j :: |row| <= i < j < |x| ==> x[i].name != x[j].name)
    && (forall n :: n in Columns(row) ==> n in Columns(x))
    && (forall j :: 0 <= j < k ==> names[j] in Columns(x))
    && (forall n :: n in Columns(x) ==> Lookup(x, n) == ValueOrZero(row, n))
  }

  /** One iteration of the padding loop keeps its invariant. */
  lemma PadLoopStep(row: Row, names: seq<string>, k: int, x: Row)
    requires 0 <= k < |names| && PaddedUpTo(row, names, k, x)
    ensures names[k] in Columns(x) ==> PaddedUpTo(row, names, k + 1, x)
    ensures names[k] !in Columns(x) ==> PaddedUpTo(row, names, k + 1, x + [Cell(names[k], 0)])
  {
    assert names[..k + 1] == names[..k] + [names[k]];
    if names[k] !in Columns(x) {
      var c := Cell(names[k], 0);
      PadStep(row, x, c);
      assert (x + [c])[..|row|] == x[..|row|];
      assert names[k] !in Columns(row);
    }
  }

  /** Names without repeats, followed by new names that do not repeat, have no repeats. */
  lemma AppendedDistinct(a: seq<string>, b: seq<string>)
    requires Distinct(a)
    requires |a| <= |b| && forall i :: 0 <= i < |a| ==> b[i] == a[i]
    requires forall i :: |a| <= i < |b| ==> b[i] !in a
    requires forall i, j :: |a| <= i < j < |b| ==> b[i] != b[j]
    ensures Distinct(b)
  {
    forall i, j | 0 <= i < j < |b| ensures b[i] != b[j] {
      if i < |a| && |a| <= j {
        assert a[i] in a;
      }
    }
  }

  /**
   * The padding loop of `build_features_df`: every declared name the row
   * lacks is appended with value 0 (`X_local[c]=0`), the rest is untouched.
   */
  method AddMissingColumns(row: Row, names: seq<string>) returns (x: Row)
    ensures |row| <= |x| && x[..|row|] == row
    ensures forall i :: |row| <= i < |x| ==>
      x[i].value == 0 && x[i].name in names && x[i].name !in Columns(row)
    ensures forall i, j :: |row| <= i < j < |x| ==> x[i].name != x[j].name
    ensures Distinct(Columns(row)) ==> Distinct(Columns(x))
    ensures forall n :: n in names ==> n in Columns(x)
    ensures forall n :: n in Columns(x) ==> Lookup(x, n) == ValueOrZero(row, n)
  {
    x := row;
    for k := 0 to |names|
      invariant PaddedUpTo(row, names, k, x)
    {
      PadLoopStep(row, names, k, x);
      if names[k] !in Columns(x) {
        x := x + [Cell(names[k], 0)];
      }
    }
    assert names[..|names|] == names;
    if Distinct(Columns(row)) {
      AppendedDistinct(Columns(row), Columns(x)) by {
        forall i | 0 <= i < |row| ensures Columns(x)[i] == Columns(row)[i] {
          assert x[..|row|][i] == x[i];
        }
      }
    }
  }

  /**
   * `X_local[[c for c in feature_names_in]]`: the named columns, in that
   * order; each must exist. The row's own names are distinct, so each
   * name selects exactly one cell.
   */
  method SelectColumns(row: Row, names: seq<string>) returns (selected: Row)
    requires Distinct(Columns(row))
    requires forall n :: n in names ==> n in Columns(row)
    ensures |selected| == |names|
    ensures forall j :: 0 <= j < |names| ==> selected[j] == Cell(names[j], Lookup(row, names[j]))
  {
    selected := [];
    for k := 0 to |names|
      invariant |selected| == k
      invariant forall j :: 0 <= j < k ==> selected[j] == Cell(names[j], Lookup(row, names[j]))
    {
      selected := selected + [Cell(names[k], Lookup(row, names[k]))];
    }
  }

  /**
   * `build_features_df`: encode, then, when the model declares its column
   * names, add every missing name with value 0 and select exactly those
   * names in their order.
   */
  method BuildFeatures(h: House, schema: Schema) returns (x: Row)
    ensures x == FeatureRow(h, schema)
  {
    var encoded := Encode(h, schema.expectedCount);
    x := encoded;
    if schema.expectedNames.Some? {
      var names := schema.expectedNames.value;
      EncodedColumns(h, schema.expectedCount);
      var padded := AddMissingColumns(encoded, names);
      x := SelectColumns(padded, names);
      assert x == Aligned(encoded, names);
    }
  }

  /** `v` is the 0/1 flag of a yes/no answer: 1 exactly when the answer is "Yes". */
  predicate EncodesYesNo(v: int, answer: string) {
    (v == 0 || v == 1) && (v == 1 <==> answer == "Yes")
  }

  /** The columns of an encoded row: the base columns, then the furnishing column(s) of the layout. */
  function LayoutColumns(labelEncoded: bool): (names: seq<string>) {
    BaseColumns + if labelEncoded then [LabelColumn] else [FurnishedColumn, SemiFurnishedColumn]
  }

  lemma LayoutColumnsDistinct(labelEncoded: bool)
    ensures Distinct(LayoutColumns(labelEncoded))
  {
    var names := LayoutColumns(labelEncoded);
    forall i, j | 0 <= i < j < |names| ensures names[i] != names[j] {
      if |names[i]| == |names[j]| {
        assert names[i][0] != names[j][0] || names[i][1] != names[j][1];
      }
    }
  }

  lemma ColumnsConcat(a: Row, b: Row)
    ensures Columns(a + b) == Columns(a) + Columns(b)
  {
    assert |Columns(a + b)| == |Columns(a) + Columns(b)|;
    forall i | 0 <= i < |a + b| ensures Columns(a + b)[i] == (Columns(a) + Columns(b))[i] {
      if i >= |a| {
        assert (a + b)[i] == b[i - |a|];
      }
    }
  }

  /** An encoded row has the columns of its layout, and no column name occurs twice. */
  lemma EncodedColumns(h: House, expectedCount: Option<int>)
    ensures Columns(Encode(h, expectedCount)) == LayoutColumns(UsesLabelEncoding(expectedCount))
    ensures Distinct(Columns(Encode(h, expectedCount)))
  {
    var base := BaseVals(h);
    if UsesLabelEncoding(expectedCount) {
      ColumnsConcat(base, [Cell(LabelColumn, LabelCode(h.furnishing))]);
    } else {
      ColumnsConcat(base, [Cell(FurnishedColumn, if h.furnishing == Furnished then 1 else 0),
                           Cell(SemiFurnishedColumn, if h.furnishing == SemiFurnished then 1 else 0)]);
    }
    LayoutColumnsDistinct(UsesLabelEncoding(expectedCount));
  }

  /**
   * Label layout (count 12): the eleven base columns then one `furnishingstatus`
   * column holding Furnished 0, Semi-Furnished 1, Unfurnished 2.
   */
  lemma LabelLayout(h: House, expectedCount: Option<int>)
    requires expectedCount == Some(12)
    ensures Columns(Encode(h, expectedCount)) == BaseColumns + [LabelColumn]
    ensures |Encode(h, expectedCount)| == 12
    ensures var v := Lookup(Encode(h, expectedCount), LabelColumn);
      && 0 <= v <= 2
      && (v == 0 <==> h.furnishing == Furnished)
      && (v == 1 <==> h.furnishing == SemiFurnished)
      && (v == 2 <==> h.furnishing == Unfurnished)
  {
    var enc := Encode(h, expectedCount);
    EncodedColumns(h, expectedCount);
    LookupDistinct(enc, 11);
  }

  /**
   * One-hot layout (any other count, or none): the eleven base columns then the
   * two drop-first indicators; at most one is set, and both are 0 exactly for Unfurnished.
   */
  lemma OneHotLayout(h: House, expectedCount: Option<int>)
    requires expectedCount != Some(12)
    ensures Columns(Encode(h, expectedCount)) == BaseColumns + [FurnishedColumn, SemiFurnishedColumn]
    ensures |Encode(h, expectedCount)| == 13
    ensures var enc := Encode(h, expectedCount);
      var furnished, semi := Lookup(enc, FurnishedColumn), Lookup(enc, SemiFurnishedColumn);
      && 0 <= furnished <= 1 && 0 <= semi <= 1 && furnished + semi <= 1
      && (furnished == 1 <==> h.furnishing == Furnished)
      && (semi == 1 <==> h.furnishing == SemiFurnished)
      && (furnished == 0 && semi == 0 <==> h.furnishing == Unfurnished)
  {
    var enc := Encode(h, expectedCount);
    EncodedColumns(h, expectedCount);
    LookupDistinct(enc, 11);
    LookupDistinct(enc, 12);
  }

  /** Each base column of an encoded row reads the value `base_vals` computed for it. */
  lemma LookupBase(h: House, expectedCount: Option<int>, i: int)
    requires 0 <= i < |BaseColumns|
    ensures BaseColumns[i] in Columns(Encode(h, expectedCount))
    ensures Lookup(Encode(h, expectedCount), BaseColumns[i]) == BaseVals(h)[i].value
  {
    var enc := Encode(h, expectedCount);
    EncodedColumns(h, expectedCount);
    assert enc[i] == BaseVals(h)[i];
    LookupDistinct(enc, i);
  }

  /**
   * The base columns carry the form's numbers unchanged and each yes/no field
   * as 1 exactly when it is "Yes", 0 otherwise.
   */
  lemma BaseFieldsEncoded(h: House, expectedCount: Option<int>)
    ensures Columns(Encode(h, expectedCount)) == LayoutColumns(UsesLabelEncoding(expectedCount))
    ensures var enc := Encode(h, expectedCount);
      && Lookup(enc, "area") == h.area && Lookup(enc, "bedrooms") == h.bedrooms
      && Lookup(enc, "bathrooms") == h.bathrooms && Lookup(enc, "stories") == h.stories
      && Lookup(enc, "parking") == h.parking
      && EncodesYesNo(Lookup(enc, "mainroad"), h.mainroad)
      && EncodesYesNo(Lookup(enc, "guestroom"), h.guestroom)
      && EncodesYesNo(Lookup(enc, "basement"), h.basement)
      && EncodesYesNo(Lookup(enc, "hotwaterheating"), h.hotwaterheating)
      && EncodesYesNo(Lookup(enc, "airconditioning"), h.airconditioning)
      && EncodesYesNo(Lookup(enc, "prefarea"), h.prefarea)
  {
    EncodedColumns(h, expectedCount);
    LookupBase(h, expectedCount, 0); LookupBase(h, expectedCount, 1);
    LookupBase(h, expectedCount, 2); LookupBase(h, expectedCount, 3);
    LookupBase(h, expectedCount, 4); LookupBase(h, expectedCount, 5);
    LookupBase(h, expectedCount, 6); LookupBase(h, expectedCount, 7);
    LookupBase(h, expectedCount, 8); LookupBase(h, expectedCount, 9);
    LookupBase(h, expectedCount, 10);
  }

  /**
   * Without declared names the row is the encoded one: the base columns in
   * dict order then the furnishing column(s), 12 columns in the label layout and 13 otherwise.
   */
  lemma UnalignedRow(h: House, schema: Schema)
    requires schema.expectedNames == None
    ensures FeatureRow(h, schema) == Encode(h, schema.expectedCount)
    ensures Columns(FeatureRow(h, schema)) == BaseColumns +
      (if schema.expectedCount == Some(12) then [LabelColumn] else [FurnishedColumn, SemiFurnishedColumn])
    ensures |FeatureRow(h, schema)| == if schema.expectedCount == Some(12) then 12 else 13
  {
    if schema.expectedCount == Some(12) {
      LabelLayout(h, schema.expectedCount);
    } else {
      OneHotLayout(h, schema.expectedCount);
    }
  }

  /**
   * With declared names the columns are exactly those names in order; a name
   * the encoding did not produce reads 0, and a computed column the model
   * does not declare is dropped.
   */
  lemma AlignedRow(h: House, schema: Schema)
    requires schema.expectedNames.Some?
    ensures var names, out := schema.expectedNames.value, FeatureRow(h, schema);
      && Columns(out) == names
      && (forall j :: 0 <= j < |names| && names[j] !in Columns(Encode(h, schema.expectedCount)) ==>
            out[j].value == 0)
      && (forall n :: n in Columns(Encode(h, schema.expectedCount)) && n !in names ==> n !in Columns(out))
  {
  }

  /** A declared name that the encoding produced keeps the value it was computed with. */
  lemma AlignedKeepsComputed(h: House, schema: Schema, i: int, j: int)
    requires schema.expectedNames.Some?
    requires 0 <= i < |Encode(h, schema.expectedCount)| && 0 <= j < |schema.expectedNames.value|
    requires schema.expectedNames.value[j] == Encode(h, schema.expectedCount)[i].name
    ensures FeatureRow(h, schema)[j] == Encode(h, schema.expectedCount)[i]
  {
    var enc := Encode(h, schema.expectedCount);
    EncodedColumns(h, schema.expectedCount);
    LookupDistinct(enc, i);
  }

  /**
   * Aligning a row that is already in the declared layout changes nothing,
   * so the row handed to the model is a fixed point of the alignment.
   */
  lemma AlignIdempotent(row: Row, names: seq<string>)
    ensures Aligned(Aligned(row, names), names) == Aligned(row, names)
  {
    var once := Aligned(row, names);
    forall j | 0 <= j < |names| ensures ValueOrZero(once, names[j]) == ValueOrZero(row, names[j]) {
      var v := Lookup(once, names[j]);
      var k :| 0 <= k < |once| && once[k] == Cell(names[j], v);
      assert names[k] == names[j];
    }
  }
}
