/**
 * The capacity table (`base_quantities.xlsx`): one entry per product code with
 * the number of pieces per box. Loading checks the required columns, pads
 * every key with `zfill(8)` (and, in tags_clean2.py, strips it afterwards)
 * and turns the rows into a dictionary in which a later row with the same
 * key replaces an earlier one.
 */
module CapacityTable {
  import opened Results
  import opened Text

  /** The two columns of a sheet row that loading reads. */
  datatype Entry = Entry(product: string, capacity: int)

  /** A sheet: its column headers and, per row, the product and capacity cells. */
  datatype Sheet = Sheet(columns: seq<string>, entries: seq<Entry>)

  /** The headers tags_clean.py and tags_clean2.py read. */
  const ProductColumns: seq<string> := ["Produto", "Qtd.Embalagem"]

  /** The headers tags_excel.py requires. */
  const ExcelColumns: seq<string> := ["COD.PRODUTO", "QTD.EMBALAGEM"]

  /** `[c for c in required if c not in columns]`. */
  function MissingColumns(required: seq<string>, columns: seq<string>): (m: seq<string>)
    ensures |m| <= |required|
    ensures forall c :: c in m <==> c in required && c !in columns
    decreases |required|
  {
    if required == [] then []
    else
      var init := MissingColumns(required[..|required| - 1], columns);
      var c := required[|required| - 1];
      assert forall x :: x in required <==> x in required[..|required| - 1] || x == c;
      if c in columns then init else init + [c]
  }

  /** `df.set_index(key)[value].to_dict()` with keys normalised by `key`. */
  function ToDict(entries: seq<Entry>, key: string -> string): map<string, int>
    decreases |entries|
  {
    if entries == [] then map[]
    else
      var e := entries[|entries| - 1];
      ToDict(entries[..|entries| - 1], key)[key(e.product) := e.capacity]
  }

  /** tags_clean.py: `str.zfill(8)`. */
  function PaddedKey(product: string): string {
    ZFill(product, 8)
  }

  /** tags_clean2.py: `str.zfill(8).str.strip()`. */
  function PaddedStrippedKey(product: string): string {
    Trim(ZFill(product, 8))
  }

  /**
   * Loading the table: an error naming the missing required columns, or the
   * dictionary of padded keys.
   */
  function LoadTable(sheet: Sheet, key: string -> string): (r: Result<map<string, int>, seq<string>>)
    ensures r.Failure? <==> exists c :: c in ProductColumns && c !in sheet.columns
    ensures r.Failure? ==> r.error != [] && forall c :: c in r.error ==> c in ProductColumns && c !in sheet.columns
  {
    var missing := MissingColumns(ProductColumns, sheet.columns);
    if missing != [] then Failure(missing) else Success(ToDict(sheet.entries, key))
  }

  /** tags_excel.py's check: the error lists exactly the absent headers. */
  function CheckExcelColumns(columns: seq<string>): (r: Result<(), seq<string>>)
    ensures r.Failure? <==> exists c :: c in ExcelColumns && c !in columns
    ensures r.Failure? ==> forall c :: c in r.error <==> c in ExcelColumns && c !in columns
  {
    var missing := MissingColumns(ExcelColumns, columns);
    if missing != [] then Failure(missing) else Success(())
  }

  /** A key is in the dictionary exactly when some row yields it. */
  lemma {:induction false} ToDictKeys(entries: seq<Entry>, key: string -> string, k: string)
    ensures k in ToDict(entries, key) <==> exists j :: 0 <= j < |entries| && key(entries[j].product) == k
    decreases |entries|
  {
    if entries != [] {
      var init := entries[..|entries| - 1];
      ToDictKeys(init, key, k);
      assert forall j :: 0 <= j < |init| ==> init[j] == entries[j];
      if key(entries[|entries| - 1].product) == k {
        assert k in ToDict(entries, key);
      }
    }
  }

  /** The last row with a key decides its capacity. */
  lemma {:induction false} ToDictLastWins(entries: seq<Entry>, key: string -> string, j: nat)
    requires j < |entries|
    requires forall i :: j < i < |entries| ==> key(entries[i].product) != key(entries[j].product)
    ensures var d := ToDict(entries, key);
      key(entries[j].product) in d && d[key(entries[j].product)] == entries[j].capacity
    decreases |entries|
  {
    if j < |entries| - 1 {
      var init := entries[..|entries| - 1];
      assert forall i :: j < i < |init| ==> init[i] == entries[i];
      ToDictLastWins(init, key, j);
    }
  }

  /**
   * In tags_clean.py keys and row codes are padded alike, so a digit code
   * of up to 8 characters finds the row of any code with the same number.
   */
  lemma PaddedKeysMatchByNumber(code: string, product: string)
    requires All(Digit, code) && All(Digit, product) && |code| <= 8 && |product| <= 8
    ensures PaddedKey(code) == PaddedKey(product) <==> Value(code) == Value(product)
  {
    ZFillSameNumber(code, product, 8);
  }

  /** A digit key keeps at least 8 characters after padding and stripping. */
  lemma StrippedDigitKey(product: string)
    requires All(Digit, product)
    ensures PaddedStrippedKey(product) == ZFill(product, 8) && |PaddedStrippedKey(product)| >= 8
  {
    var z := ZFill(product, 8);
    if |product| < 8 {
      ZFillOfDigits(product, 8);
      assert All(Digit, Zeros(8 - |product|) + product);
    }
    assert All(Digit, z);
    TrimOfTrimmed(z);
  }

  /**
   * tags_clean2.py looks rows up by their unpadded code: a code of fewer
   * than 8 digits never finds a table of digit keys, and so gets the
   * default capacity.
   */
  lemma ShortCodeMissesPaddedTable(entries: seq<Entry>, code: string)
    requires forall j :: 0 <= j < |entries| ==> All(Digit, entries[j].product)
    requires |code| < 8
    ensures code !in ToDict(entries, PaddedStrippedKey)
  {
    ToDictKeys(entries, PaddedStrippedKey, code);
    forall j | 0 <= j < |entries|
      ensures PaddedStrippedKey(entries[j].product) != code
    {
      StrippedDigitKey(entries[j].product);
    }
  }
}
