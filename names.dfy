/** The capitalisation pass of the Mfm constructor (src/MfmToYaml/Mfm.cs:18-34)
    and FormatName (src/MfmToYaml/Mfm.cs:85-91), as functions of the table. */
module Names {
  import opened Bytes
  import opened Outcomes
  import opened Declarations

  /** The first byte upper-cased, the rest kept; empty stays empty. */
  function Capitalized(s: Name): Name {
    if s == [] then [] else [ToUpper(s[0])] + s[1..]
  }

  /** FormatName: replaces the first character with its upper-case form;
      indexing the first character of an empty name fails. */
  function FormatName(s: Name): (r: Result<Name>)
    ensures r.Ok? <==> s != []
    ensures r.Err? ==> r.error == IndexOutOfRange(0)
    ensures r.Ok? ==> |r.value| == |s| && r.value[1..] == s[1..]
    ensures r.Ok? ==> !IsLower(r.value[0])
    ensures r.Ok? ==> if IsLower(s[0]) then r.value[0] as int == s[0] as int - 32 else r.value[0] == s[0]
  {
    if s == [] then Err(IndexOutOfRange(0)) else Ok(Capitalized(s))
  }

  /** Formatting a name twice is the same as formatting it once. */
  lemma FormatNameIdempotent(s: Name)
    requires s != []
    ensures FormatName(FormatName(s).value) == FormatName(s)
  {
  }

  function FormatParameter(p: (Name, Name), enumNames: seq<Name>): (Name, Name) {
    (if p.0 in enumNames then Capitalized(p.0) else p.0, Capitalized(p.1))
  }

  function FormatFunction(f: Function, enumNames: seq<Name>): Function {
    Function(Capitalized(f.name),
             seq(|f.parameters|, j requires 0 <= j < |f.parameters| => FormatParameter(f.parameters[j], enumNames)))
  }

  function FormatEnum(e: FunctionEnum): FunctionEnum {
    FunctionEnum(e.elementType,
                 seq(|e.values|, j requires 0 <= j < |e.values| => (e.values[j].0, Capitalized(e.values[j].1))))
  }

  /** The table after the pass: every function, parameter, enum and enum-value
      name capitalised; a parameter type only when it is the name of an enum
      (looked up before the enums are formatted); enum element types never. */
  function FormattedTables(t: Tables): Tables {
    var enumNames := Keys(t.enums);
    Tables(seq(|t.enums|, i requires 0 <= i < |t.enums| => (Capitalized(t.enums[i].0), FormatEnum(t.enums[i].1))),
           seq(|t.functions|, i requires 0 <= i < |t.functions| =>
                 (t.functions[i].0, FormatFunction(t.functions[i].1, enumNames))))
  }

  predicate FunctionFormattable(f: Function, enumNames: seq<Name>) {
    && f.name != []
    && forall j :: 0 <= j < |f.parameters| ==>
         f.parameters[j].1 != [] && (f.parameters[j].0 in enumNames ==> f.parameters[j].0 != [])
  }

  predicate EnumFormattable(entry: (Name, FunctionEnum)) {
    entry.0 != [] && forall j :: 0 <= j < |entry.1.values| ==> entry.1.values[j].1 != []
  }

  /** Every name the pass formats is non-empty, so no FormatName call fails. */
  predicate Formattable(t: Tables) {
    && (forall i :: 0 <= i < |t.functions| ==> FunctionFormattable(t.functions[i].1, Keys(t.enums)))
    && (forall i :: 0 <= i < |t.enums| ==> EnumFormattable(t.enums[i]))
  }

  /** The pass as a whole: it fails exactly when some name it formats is empty. */
  function FormatTables(t: Tables): (r: Result<Tables>)
    ensures r.Ok? <==> Formattable(t)
    ensures r.Err? ==> r.error == IndexOutOfRange(0)
  {
    if Formattable(t) then Ok(FormattedTables(t)) else Err(IndexOutOfRange(0))
  }

  /** The pass adds, removes and reorders nothing: the same keys in the same
      order, the same values, counts and element types; only identifier text
      changes, and each name keeps its length. */
  lemma FormatPreservesShape(t: Tables)
    ensures var u := FormattedTables(t);
      && |u.enums| == |t.enums| && |u.functions| == |t.functions|
      && (forall i :: 0 <= i < |t.functions| ==>
            && u.functions[i].0 == t.functions[i].0
            && |u.functions[i].1.name| == |t.functions[i].1.name|
            && |u.functions[i].1.parameters| == |t.functions[i].1.parameters|)
      && (forall i :: 0 <= i < |t.enums| ==>
            && |u.enums[i].0| == |t.enums[i].0|
            && u.enums[i].1.elementType == t.enums[i].1.elementType
            && |u.enums[i].1.values| == |t.enums[i].1.values|
            && forall j :: 0 <= j < |t.enums[i].1.values| ==> u.enums[i].1.values[j].0 == t.enums[i].1.values[j].0)
  {
  }

  predicate StartsUpper(s: Name) {
    s != [] && !IsLower(s[0])
  }

  /** After a successful pass every function, parameter, enum and enum-value
      name starts with a byte that is not a lower-case letter. */
  lemma FormattedNamesStartUpper(t: Tables)
    requires Formattable(t)
    ensures var u := FormattedTables(t);
      && (forall i :: 0 <= i < |u.functions| ==>
            && StartsUpper(u.functions[i].1.name)
            && forall j :: 0 <= j < |u.functions[i].1.parameters| ==> StartsUpper(u.functions[i].1.parameters[j].1))
      && (forall i :: 0 <= i < |u.enums| ==>
            && StartsUpper(u.enums[i].0)
            && forall j :: 0 <= j < |u.enums[i].1.values| ==> StartsUpper(u.enums[i].1.values[j].1))
  {
    var u := FormattedTables(t);
    forall i | 0 <= i < |u.functions|
      ensures StartsUpper(u.functions[i].1.name)
      ensures forall j :: 0 <= j < |u.functions[i].1.parameters| ==> StartsUpper(u.functions[i].1.parameters[j].1)
    {
      assert FunctionFormattable(t.functions[i].1, Keys(t.enums));
    }
    forall i | 0 <= i < |u.enums|
      ensures StartsUpper(u.enums[i].0)
      ensures forall j :: 0 <= j < |u.enums[i].1.values| ==> StartsUpper(u.enums[i].1.values[j].1)
    {
      assert EnumFormattable(t.enums[i]);
    }
  }

  /** A parameter type is rewritten only when it is the name of an enum as
      that name stood before the pass, and it then receives the same rewrite
      as the enum's name, so the tag still names an emitted enum. Any other
      parameter type is left exactly as written. */
  lemma ParameterTypeFollowsEnumName(t: Tables, i: nat, j: nat)
    requires i < |t.functions| && j < |t.functions[i].1.parameters|
    ensures var (paramType, formatted) := (t.functions[i].1.parameters[j].0,
                                           FormattedTables(t).functions[i].1.parameters[j].0);
      && (formatted != paramType ==> paramType in Keys(t.enums))
      && (forall k :: 0 <= k < |t.enums| && t.enums[k].0 == paramType ==>
            FormattedTables(t).enums[k].0 == formatted)
  {
  }

  lemma CapitalizedIdempotent(s: Name)
    ensures Capitalized(Capitalized(s)) == Capitalized(s)
  {
  }

  /** Running the pass on its own output changes nothing more. */
  lemma FormattedTablesIdempotent(t: Tables)
    ensures FormattedTables(FormattedTables(t)) == FormattedTables(t)
  {
    var u := FormattedTables(t);
    var v := FormattedTables(u);
    var names := Keys(t.enums);
    forall i | 0 <= i < |t.functions|
      ensures v.functions[i] == u.functions[i]
    {
      var ps := t.functions[i].1.parameters;
      forall j | 0 <= j < |ps|
        ensures v.functions[i].1.parameters[j] == u.functions[i].1.parameters[j]
      {
        var ty := ps[j].0;
        var once := u.functions[i].1.parameters[j].0;
        if once in Keys(u.enums) {
          var k :| 0 <= k < |u.enums| && u.enums[k].0 == once;
          if ty in names {
            CapitalizedIdempotent(ty);
          } else {
            assert once == ty == Capitalized(t.enums[k].0);
            CapitalizedIdempotent(t.enums[k].0);
          }
        }
        CapitalizedIdempotent(ps[j].1);
      }
      assert v.functions[i].1.parameters == u.functions[i].1.parameters;
      CapitalizedIdempotent(t.functions[i].1.name);
    }
    assert v.functions == u.functions;
    forall i | 0 <= i < |t.enums|
      ensures v.enums[i] == u.enums[i]
    {
      CapitalizedIdempotent(t.enums[i].0);
      forall j | 0 <= j < |t.enums[i].1.values| {
        CapitalizedIdempotent(t.enums[i].1.values[j].1);
      }
      assert v.enums[i].1.values == u.enums[i].1.values;
    }
    assert v.enums == u.enums;
  }

  /** Function keys are numbers the pass never touches, so the table's
      function keys stay unique. */
  lemma FormatKeepsFunctionKeys(t: Tables)
    requires UniqueKeys(t.functions)
    ensures UniqueKeys(FormattedTables(t).functions)
  {
    FormatPreservesShape(t);
  }

  /** Enum names are rewritten without a look at the other keys: two enums
      whose names differ only in the case of their first byte, distinct keys
      before the pass, end up under the same name. */
  lemma EnumNamesMayMerge()
    ensures var t := Tables([("kind", FunctionEnum("i32", [])), ("Kind", FunctionEnum("i32", []))], []);
      && UniqueKeys(t.enums) && Formattable(t)
      && !UniqueKeys(FormattedTables(t).enums)
  {
    var t := Tables([("kind", FunctionEnum("i32", [])), ("Kind", FunctionEnum("i32", []))], []);
    assert t.enums[0].0 != t.enums[1].0 by { assert t.enums[0].0[0] != t.enums[1].0[0]; }
    assert Capitalized("kind") == "Kind";
    assert FormattedTables(t).enums[0].0 == FormattedTables(t).enums[1].0;
  }
}
