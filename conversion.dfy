/** `new Mfm(data)` (src/MfmToYaml/Mfm.cs:13-35): a reader fills an empty
    table from the buffer, then the capitalisation pass runs over it. */
module Conversion {
  import opened Bytes
  import opened Outcomes
  import opened Names
  import opened ParserSpec
  import D = Declarations
  import MfmToYaml
  import Readers

  /** The table `new Mfm(data)` ends up holding, or the exception it throws:
      the reader's, else the capitalisation pass's. */
  function Loaded(data: seq<Byte>): (r: Result<D.Tables>)
    ensures r.Ok? <==> Parse(data).Ok? && Formattable(Parse(data).value)
    ensures r.Ok? ==> r.value == FormattedTables(Parse(data).value)
    ensures r.Err? && Parse(data).Ok? ==> r.error == IndexOutOfRange(0)
  {
    var t :- Parse(data);
    FormatTables(t)
  }

  /** The constructor `Mfm(Span<byte> data)`: a fresh table holding exactly
      what Loaded says, or Loaded's error. */
  method NewMfm(data: seq<Byte>) returns (r: Result<MfmToYaml.Mfm>)
    ensures r.Ok? <==> Loaded(data).Ok?
    ensures r.Ok? ==> fresh(r.value) && r.value.Tables() == Loaded(data).value
    ensures r.Err? ==> r.error == Loaded(data).error
  {
    var mfm := new MfmToYaml.Mfm.Empty();
    var reader := new Readers.MfmReader(data, mfm);
    var read := reader.Read();
    if read.Err? {
      return Err(read.error);
    }
    var formatted := mfm.FormatNames();
    if formatted.Err? {
      return Err(formatted.error);
    }
    r := Ok(mfm);
  }

  /** A table `new Mfm(data)` returns holds no function key twice, and every
      name the pass formats starts with a byte that is not a lower-case
      letter. */
  lemma LoadedWellFormed(data: seq<Byte>)
    requires Loaded(data).Ok?
    ensures var u := Loaded(data).value;
      && D.UniqueKeys(u.functions)
      && (forall i :: 0 <= i < |u.functions| ==> StartsUpper(u.functions[i].1.name))
      && (forall i :: 0 <= i < |u.enums| ==> StartsUpper(u.enums[i].0))
  {
    var t := Parse(data).value;
    FormatKeepsFunctionKeys(t);
    FormattedNamesStartUpper(t);
  }
}
