/**
 * `format_data_for_pinecone`: turning a loaded data source into the ordered
 * `{id, text}` records sent for embedding.
 */
module Normalizer {
  import opened Wrappers
  import opened Text

  /** One record of the upload payload: `{"id": ..., "text": ...}`. */
  datatype Record = Record(id: string, text: string)

  /**
   * A loaded CSV: column names in order and, per row, the `str()` rendering
   * of each cell in column order. Rows are positional (the default 0-based
   * index that `pd.read_csv` assigns).
   */
  datatype Table = Table(columns: seq<string>, rows: seq<seq<string>>)

  predicate Rectangular(t: Table) {
    forall r :: 0 <= r < |t.rows| ==> |t.rows[r]| == |t.columns|
  }

  /** A data frame always has one value per column in every row. */
  type Frame = t: Table | Rectangular(t) witness Table([], [])

  /**
   * The shapes the normaliser tells apart: a list all of whose items are
   * strings, a data frame, and anything else (including a list holding a
   * non-string item).
   */
  datatype SourceData = TextList(items: seq<string>) | DataFrame(frame: Frame) | Unsupported

  /** The designated text column looked for in a data frame. */
  const TEXT_COLUMN: string := "your_text_column_name"

  /** The first position of `name` in `columns`, if any. */
  function IndexOf(columns: seq<string>, name: string): (r: Option<nat>)
    ensures r.None? <==> name !in columns
    ensures r.Some? ==> r.value < |columns| && columns[r.value] == name && name !in columns[..r.value]
    decreases |columns|
  {
    if |columns| == 0 then None
    else if columns[0] == name then Some(0)
    else
      match IndexOf(columns[1..], name)
      case None => None
      case Some(i) =>
        assert columns[..i + 1] == [columns[0]] + columns[1..][..i];
        Some(i + 1)
  }

  /** The id of the record at 0-based position `k`: `f"vec{k+1}"`. */
  function VecId(k: nat): string {
    "vec" + NatToString(k + 1)
  }

  /** Records at different positions never share an id. */
  lemma VecIdInjective(j: nat, k: nat)
    ensures VecId(j) == VecId(k) ==> j == k
  {
    if VecId(j) == VecId(k) {
      assert VecId(j)[3..] == NatToString(j + 1);
      assert VecId(k)[3..] == NatToString(k + 1);
      NatToStringInjective(j + 1, k + 1);
    }
  }

  /** How many records a source yields. */
  function RecordCount(data: SourceData): nat {
    match data
    case TextList(items) => |items|
    case DataFrame(frame) => |frame.rows|
    case Unsupported => 0
  }

  /** The text of the record at 0-based position `k`. */
  function RecordText(data: SourceData, k: nat): string
    requires k < RecordCount(data)
  {
    match data
    case TextList(items) => items[k]
    case DataFrame(frame) =>
      match IndexOf(frame.columns, TEXT_COLUMN)
      case Some(c) => frame.rows[k][c]
      case None => JoinWithSpace(frame.rows[k])
  }

  /** The record sequence the normaliser produces, as a value. */
  function Normalize(data: SourceData): seq<Record> {
    seq(RecordCount(data), k requires 0 <= k < RecordCount(data) => Record(VecId(k), RecordText(data, k)))
  }

  /**
   * The normaliser: one record per list item or table row, in order, with
   * positional ids; an unsupported shape gives no records.
   */
  method FormatData(data: SourceData) returns (records: seq<Record>)
    ensures records == Normalize(data)
  {
    records := [];
    match data {
      case TextList(items) =>
        for i := 0 to |items|
          invariant |records| == i
          invariant forall k :: 0 <= k < i ==> records[k] == Record(VecId(k), items[k])
        {
          records := records + [Record(VecId(i), items[i])];
        }
      case DataFrame(frame) =>
        var textColumn := IndexOf(frame.columns, TEXT_COLUMN);
        if textColumn.Some? {
          for i := 0 to |frame.rows|
            invariant |records| == i
            invariant forall k :: 0 <= k < i ==> records[k] == Record(VecId(k), frame.rows[k][textColumn.value])
          {
            records := records + [Record(VecId(i), frame.rows[i][textColumn.value])];
          }
        } else {
          for i := 0 to |frame.rows|
            invariant |records| == i
            invariant forall k :: 0 <= k < i ==> records[k] == Record(VecId(k), JoinWithSpace(frame.rows[k]))
          {
            records := records + [Record(VecId(i), JoinWithSpace(frame.rows[i]))];
          }
        }
      case Unsupported =>
    }
  }

  /** A list of strings: record k carries item k under the id `vec{k+1}`. */
  lemma NormalizeTextList(items: seq<string>)
    ensures |Normalize(TextList(items))| == |items|
    ensures forall k :: 0 <= k < |items| ==>
      Normalize(TextList(items))[k] == Record("vec" + NatToString(k + 1), items[k])
  {
  }

  /** A table with the text column: each text is that column's value, whatever the other columns hold. */
  lemma NormalizeTextColumn(frame: Frame, c: nat)
    requires c < |frame.columns| && frame.columns[c] == TEXT_COLUMN
    requires TEXT_COLUMN !in frame.columns[..c]
    ensures |Normalize(DataFrame(frame))| == |frame.rows|
    ensures forall k :: 0 <= k < |frame.rows| ==>
      Normalize(DataFrame(frame))[k] == Record(VecId(k), frame.rows[k][c])
  {
  }

  /** A table without the text column: each text is the row's values joined by single spaces. */
  lemma NormalizeJoinedRows(frame: Frame)
    requires TEXT_COLUMN !in frame.columns
    ensures |Normalize(DataFrame(frame))| == |frame.rows|
    ensures forall k :: 0 <= k < |frame.rows| ==>
      Normalize(DataFrame(frame))[k] == Record(VecId(k), JoinWithSpace(frame.rows[k]))
  {
  }

  /** Neither a list of strings nor a table (and also the empty list): no records. */
  lemma NormalizeEmpty(data: SourceData)
    requires data.Unsupported? || data == TextList([])
    ensures Normalize(data) == []
  {
  }

  /** The ids within one run are pairwise distinct. */
  lemma NormalizeIdsDistinct(data: SourceData, j: nat, k: nat)
    requires j < k < |Normalize(data)|
    ensures Normalize(data)[j].id != Normalize(data)[k].id
  {
    VecIdInjective(j, k);
  }

  /** The ids depend only on the number of records, never on their text. */
  lemma NormalizeIdsPositional(a: SourceData, b: SourceData)
    requires RecordCount(a) == RecordCount(b)
    ensures |Normalize(a)| == |Normalize(b)|
    ensures forall k :: 0 <= k < |Normalize(a)| ==> Normalize(a)[k].id == Normalize(b)[k].id
  {
  }
}
