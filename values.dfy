/** The values the stores hold, abstracted from pandas and json: a metadata
    record, option dictionaries, and a data frame whose cells are integers. */
module Values {

  /** A JSON-serialisable metadata value (`Meta.Data = dict[str, Any]`). */
  datatype MetaValue =
    | Null
    | Bool(b: bool)
    | Int(i: int)
    | Str(s: string)
    | List(items: seq<MetaValue>)

  type Record = map<string, MetaValue>

  /** A keyword-argument value passed to `pd.read_csv` or `DataFrame.to_csv`. */
  datatype OptionValue =
    | OBool(b: bool)
    | OInt(i: int)
    | OInts(ints: seq<int>)
    | OStr(s: string)

  type Options = map<string, OptionValue>

  /** A two-dimensional array of integers with an explicit shape. */
  datatype Grid = Grid(rows: nat, cols: nat, at: seq<seq<int>>) {
    predicate Rectangular() {
      |at| == rows && forall i | 0 <= i < rows :: |at[i]| == cols
    }
  }

  type Matrix = g: Grid | g.Rectangular() witness Grid(0, 0, [])

  /** A column label: a position, as pandas numbers the columns of a frame
      built from a bare matrix, or a tuple of names for multi-level headers. */
  datatype Label = Position(n: nat) | Named(parts: seq<string>)

  /** A data frame: row labels, column labels and a matrix of values. */
  datatype DataFrame = DataFrame(index: seq<int>, columns: seq<Label>, values: Matrix) {
    predicate Coherent() {
      |index| == values.rows && |columns| == values.cols
    }
  }

  type Frame = f: DataFrame | f.Coherent() witness DataFrame([], [], Grid(0, 0, []))

  /** The frame `pd.DataFrame()` builds from no data. */
  const EmptyFrame: Frame := DataFrame([], [], Grid(0, 0, []))
}
