/** One field of the transform CSV files, as pandas writes it and as the two
    readers convert it back. pandas writes an integer column as the decimal text
    of each integer and a float column as the shortest text that reads back as the
    same float, so a field is kept here by what it denotes. */
module CsvFields {
  import opened Wrappers
  import Decimal

  datatype Field =
    | IntegerText(i: int)    // the text str(i)
    | FloatText(r: real)     // the repr of a finite float, which has a '.' or an exponent
    | OtherText(s: string)   // text that is not a number, such as a column name

  /** The text of an integer field, `str(i)`. */
  function IntegerTextOf(f: Field): string
    requires f.IntegerText?
  {
    Decimal.FormatInt(f.i)
  }

  /** `int(field)`: integer text reads back as its integer; float text and other
      text raise ValueError (None), as `int()` takes neither a '.' nor an exponent. */
  function ToInt(f: Field): (r: Option<int>)
    ensures r.Some? <==> f.IntegerText?
  {
    match f
    case IntegerText(i) => Some(i)
    case FloatText(_) => None
    case OtherText(_) => None
  }

  /** ToInt agrees with Python's `int()` applied to the text `str(i)`. */
  lemma ToIntReadsText(f: Field)
    requires f.IntegerText?
    ensures ToInt(f) == Decimal.ParseInt(IntegerTextOf(f))
  {
    Decimal.ParseFormatInt(f.i);
  }

  /** `float(field)`: integer and float text read back exactly; other text raises
      ValueError. */
  function ToReal(f: Field): Option<real> {
    match f
    case IntegerText(i) => Some(i as real)
    case FloatText(r) => Some(r)
    case OtherText(_) => None
  }
}
