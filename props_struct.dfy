/**
 * The script that generates the table `ARIA_PROP_TYPES` of the
 * `aria-proptypes` lint rule from a list of ARIA properties: each property
 * becomes one table entry, whose permitted tokens are the property's string
 * values, which accepts booleans when the value list holds one, and which
 * accepts `undefined` when the property says so.
 *
 * The script prints each entry as a line of Rust; the model produces the
 * entries as values instead of text.
 */
module PropsStruct {
  import opened Wrappers
  import opened AriaProptypes

  /** A value in a property's `values` list: a string or a boolean. */
  datatype JsValue = JsString(s: string) | JsBool(b: bool)

  /**
   * A property's configuration object: its `type`, its `values` list if it
   * has one, and its `allowundefined` flag if it has one.
   */
  datatype PropConf = PropConf(propType: string, values: Option<seq<JsValue>>, allowundefined: Option<bool>)

  // ---------------------------------------------------------------------------
  // The list `properties`, in source order, in five runs of consecutive
  // entries (the verifier takes them one run at a time).

  /** Properties 0 to 10 (source lines 4 to 42). */
  const Properties0: seq<(string, PropConf)> := [
    ("aria-activedescendant", PropConf("id", None, None)),
    ("aria-atomic", PropConf("boolean", None, None)),
    ("aria-autocomplete", PropConf("token", Some([JsString("inline"), JsString("list"), JsString("both"), JsString("none")]), None)),
    ("aria-braillelabel", PropConf("string", None, None)),
    ("aria-brailleroledescription", PropConf("string", None, None)),
    ("aria-busy", PropConf("boolean", None, None)),
    ("aria-checked", PropConf("tristate", None, None)),
    ("aria-colcount", PropConf("integer", None, None)),
    ("aria-colindex", PropConf("integer", None, None)),
    ("aria-colspan", PropConf("integer", None, None)),
    ("aria-controls", PropConf("idlist", None, None))
  ]

  /** Properties 11 to 21 (source lines 43 to 103). */
  const Properties1: seq<(string, PropConf)> := [
    ("aria-current", PropConf("token", Some([JsString("page"), JsString("step"), JsString("location"), JsString("date"), JsString("time"), JsBool(true), JsBool(false)]), None)),
    ("aria-describedby", PropConf("idlist", None, None)),
    ("aria-description", PropConf("string", None, None)),
    ("aria-details", PropConf("id", None, None)),
    ("aria-disabled", PropConf("boolean", None, None)),
    ("aria-dropeffect", PropConf("tokenlist", Some([JsString("copy"), JsString("execute"), JsString("link"), JsString("move"), JsString("none"), JsString("popup")]), None)),
    ("aria-errormessage", PropConf("id", None, None)),
    ("aria-expanded", PropConf("boolean", None, Some(true))),
    ("aria-flowto", PropConf("idlist", None, None)),
    ("aria-grabbed", PropConf("boolean", None, Some(true))),
    ("aria-haspopup", PropConf("token", Some([JsBool(false), JsBool(true), JsString("menu"), JsString("listbox"), JsString("tree"), JsString("grid"), JsString("dialog")]), None))
  ]

  /** Properties 22 to 32 (source lines 104 to 153). */
  const Properties2: seq<(string, PropConf)> := [
    ("aria-hidden", PropConf("boolean", None, Some(true))),
    ("aria-invalid", PropConf("token", Some([JsString("grammar"), JsBool(false), JsString("spelling"), JsBool(true)]), None)),
    ("aria-keyshortcuts", PropConf("string", None, None)),
    ("aria-label", PropConf("string", None, None)),
    ("aria-labelledby", PropConf("idlist", None, None)),
    ("aria-level", PropConf("integer", None, None)),
    ("aria-live", PropConf("token", Some([JsString("assertive"), JsString("off"), JsString("polite")]), None)),
    ("aria-modal", PropConf("boolean", None, None)),
    ("aria-multiline", PropConf("boolean", None, None)),
    ("aria-multiselectable", PropConf("boolean", None, None)),
    ("aria-orientation", PropConf("token", Some([JsString("vertical"), JsString("undefined"), JsString("horizontal")]), None))
  ]

  /** Properties 33 to 43 (source lines 154 to 192). */
  const Properties3: seq<(string, PropConf)> := [
    ("aria-owns", PropConf("idlist", None, None)),
    ("aria-placeholder", PropConf("string", None, None)),
    ("aria-posinset", PropConf("integer", None, None)),
    ("aria-pressed", PropConf("tristate", None, None)),
    ("aria-readonly", PropConf("boolean", None, None)),
    ("aria-relevant", PropConf("tokenlist", Some([JsString("additions"), JsString("all"), JsString("removals"), JsString("text")]), None)),
    ("aria-required", PropConf("boolean", None, None)),
    ("aria-roledescription", PropConf("string", None, None)),
    ("aria-rowcount", PropConf("integer", None, None)),
    ("aria-rowindex", PropConf("integer", None, None)),
    ("aria-rowspan", PropConf("integer", None, None))
  ]

  /** Properties 44 to 50 (source lines 193 to 220). */
  const Properties4: seq<(string, PropConf)> := [
    ("aria-selected", PropConf("boolean", None, Some(true))),
    ("aria-setsize", PropConf("integer", None, None)),
    ("aria-sort", PropConf("token", Some([JsString("ascending"), JsString("descending"), JsString("none"), JsString("other")]), None)),
    ("aria-valuemax", PropConf("number", None, None)),
    ("aria-valuemin", PropConf("number", None, None)),
    ("aria-valuenow", PropConf("number", None, None)),
    ("aria-valuetext", PropConf("string", None, None))
  ]

  /** `properties`: the 51 ARIA properties in source order. */
  const Properties: seq<(string, PropConf)> := Properties0 + Properties1 + Properties2 + Properties3 + Properties4

  // ---------------------------------------------------------------------------
  // `map_type` and the conversion of one property

  /** `map_type`: the Rust variant for a type name; any other name gives `undefined`. */
  function MapType(propType: string): Option<AriaPropType> {
    match propType
    case "string" => Some(String)
    case "id" => Some(Id)
    case "integer" => Some(Integer)
    case "number" => Some(Number)
    case "boolean" => Some(Boolean)
    case "token" => Some(Token)
    case "tokenlist" => Some(TokenList)
    case "idlist" => Some(IdList)
    case "tristate" => Some(Tristate)
    case _ => None
  }

  /** The type name that stands for each variant. */
  function TypeName(t: AriaPropType): string {
    match t
    case String => "string"
    case Id => "id"
    case Integer => "integer"
    case Number => "number"
    case Boolean => "boolean"
    case Token => "token"
    case TokenList => "tokenlist"
    case IdList => "idlist"
    case Tristate => "tristate"
  }

  /** `map_type` knows every variant by its name, and only those nine names. */
  lemma MapTypeInverse(t: AriaPropType, name: string)
    ensures MapType(TypeName(t)) == Some(t)
    ensures MapType(name).Some? ==> TypeName(MapType(name).value) == name
  {
  }

  /** `values.filter(val => typeof val !== "boolean")`: the strings of the list, in order. */
  function StringValues(values: seq<JsValue>): seq<string>
    decreases |values|
  {
    if values == [] then []
    else
      match values[0]
      case JsString(s) => [s] + StringValues(values[1..])
      case JsBool(_) => StringValues(values[1..])
  }

  /** The filter keeps exactly the strings of the list, and is no longer than the list. */
  lemma {:induction false} StringValuesMembers(values: seq<JsValue>)
    ensures |StringValues(values)| <= |values|
    ensures forall s :: s in StringValues(values) <==> JsString(s) in values
    decreases |values|
  {
    if values != [] {
      StringValuesMembers(values[1..]);
      assert forall v :: v in values <==> v == values[0] || v in values[1..];
    }
  }

  /**
   * The filter keeps the strings in list order: filtering a concatenation
   * filters each part and keeps them in order, a string is kept as it is
   * and a boolean is dropped.
   */
  lemma {:induction false} StringValuesAppend(a: seq<JsValue>, b: seq<JsValue>, s: string, v: bool)
    ensures StringValues(a + b) == StringValues(a) + StringValues(b)
    ensures StringValues([JsString(s)]) == [s] && StringValues([JsBool(v)]) == []
    decreases |a|
  {
    if a == [] {
      assert a + b == b;
    } else {
      assert (a + b)[0] == a[0];
      assert (a + b)[1..] == a[1..] + b;
      StringValuesAppend(a[1..], b, s, v);
    }
  }

  /** `values.some(val => typeof val === "boolean")`. */
  function SomeBoolean(values: seq<JsValue>): bool
    decreases |values|
  {
    values != [] && (values[0].JsBool? || SomeBoolean(values[1..]))
  }

  /** The test holds exactly when some value of the list is a boolean. */
  lemma {:induction false} SomeBooleanExists(values: seq<JsValue>)
    ensures SomeBoolean(values) <==> exists i :: 0 <= i < |values| && values[i].JsBool?
    decreases |values|
  {
    if values != [] {
      SomeBooleanExists(values[1..]);
      if !values[0].JsBool? && exists i :: 0 <= i < |values| && values[i].JsBool? {
        var i :| 0 <= i < |values| && values[i].JsBool?;
        assert values[1..][i - 1].JsBool?;
      }
      if SomeBoolean(values[1..]) {
        var i :| 0 <= i < |values[1..]| && values[1..][i].JsBool?;
        assert values[i + 1].JsBool?;
      }
    }
  }

  /**
   * A table entry as the script prints it: the name, the type `map_type`
   * gives, the permitted tokens, and the two flags.
   */
  datatype Entry = Entry(
    name: string,
    propType: Option<AriaPropType>,
    allowedValues: Option<seq<string>>,
    allowUndefined: bool,
    allowBooleanValues: bool)

  /** The entry the loop body prints for one property. */
  function Convert(prop: (string, PropConf)): Entry {
    var conf := prop.1;
    Entry(
      prop.0,
      MapType(conf.propType),
      if conf.values.Some? then Some(StringValues(conf.values.value)) else None,
      conf.allowundefined == Some(true),
      conf.values.Some? && SomeBoolean(conf.values.value))
  }

  /** The permitted tokens of an entry are exactly the string values of its property. */
  lemma ConvertAllowedValues(prop: (string, PropConf), s: string)
    ensures Convert(prop).allowedValues.Some? <==> prop.1.values.Some?
    ensures prop.1.values.Some? ==> (s in Convert(prop).allowedValues.value <==> JsString(s) in prop.1.values.value)
  {
    if prop.1.values.Some? {
      StringValuesMembers(prop.1.values.value);
    }
  }

  /** An entry accepts booleans exactly when its property lists a boolean value. */
  lemma ConvertBooleanValues(prop: (string, PropConf))
    ensures Convert(prop).allowBooleanValues <==>
              prop.1.values.Some? && exists i :: 0 <= i < |prop.1.values.value| && prop.1.values.value[i].JsBool?
  {
    if prop.1.values.Some? {
      SomeBooleanExists(prop.1.values.value);
    }
  }

  /** An entry accepts `undefined` exactly when its property's `allowundefined` is true. */
  lemma ConvertUndefined(prop: (string, PropConf))
    ensures Convert(prop).allowUndefined <==> prop.1.allowundefined == Some(true)
  {
  }

  // ---------------------------------------------------------------------------
  // The loop over the properties

  /**
   * The `for (prop of properties)` loop: each iteration sets the entry's
   * variables afresh and emits one entry, so the output has one entry per
   * property, in order.
   */
  method Generate(properties: seq<(string, PropConf)>) returns (entries: seq<Entry>)
    ensures |entries| == |properties|
    ensures forall i :: 0 <= i < |properties| ==> entries[i] == Convert(properties[i])
  {
    entries := [];
    for i := 0 to |properties|
      invariant |entries| == i
      invariant forall j :: 0 <= j < i ==> entries[j] == Convert(properties[j])
    {
      var propName := properties[i].0;
      var conf := properties[i].1;
      var allowBooleanValues := false;
      var values: Option<seq<string>>;
      if conf.values.Some? {
        values := Some(StringValues(conf.values.value));
        allowBooleanValues := SomeBoolean(conf.values.value);
      } else {
        values := None;
      }
      var allowUndefined := conf.allowundefined == Some(true);
      entries := entries + [Entry(propName, MapType(conf.propType), values, allowUndefined, allowBooleanValues)];
    }
  }

  // ---------------------------------------------------------------------------
  // Agreement with the table of the lint rule

  /** The set of the strings of a list (the `phf_set!` the script prints for them). */
  function SetOf(xs: seq<string>): set<string>
    decreases |xs|
  {
    if xs == [] then {} else {xs[0]} + SetOf(xs[1..])
  }

  /** The set holds exactly the strings of the list. */
  lemma {:induction false} SetOfMembers(xs: seq<string>)
    ensures forall s :: s in SetOf(xs) <==> s in xs
    decreases |xs|
  {
    if xs != [] {
      SetOfMembers(xs[1..]);
      assert forall s :: s in xs <==> s == xs[0] || s in xs[1..];
    }
  }

  /** The table row an entry denotes, when its type is known: the tokens become a set. */
  function TableRow(e: Entry): Option<(string, AriaPropTypeStruct)> {
    match e.propType
    case None => None
    case Some(t) =>
      var allowed := if e.allowedValues.Some? then Some(SetOf(e.allowedValues.value)) else None;
      Some((e.name, AriaPropTypeStruct(t, allowed, e.allowUndefined, e.allowBooleanValues)))
  }

  /** `aria-autocomplete` turns into its row: its string values become the permitted tokens. */
  lemma AutocompleteRow()
    ensures TableRow(Convert(Properties0[2])) == Some(Rows0[2])
  {
    var v := [JsString("inline"), JsString("list"), JsString("both"), JsString("none")];
    assert Properties0[2].1.values == Some(v);
    assert StringValues(v) == ["inline", "list", "both", "none"];
    assert !SomeBoolean(v);
    assert MapType("token") == Some(Token);
    assert SetOf(["inline", "list", "both", "none"]) == {"inline", "list", "both", "none"};
  }

  /** `aria-current` turns into its row: its string values become the permitted tokens. */
  lemma CurrentRow()
    ensures TableRow(Convert(Properties1[0])) == Some(Rows1[0])
  {
    var v := [JsString("page"), JsString("step"), JsString("location"), JsString("date"), JsString("time"), JsBool(true), JsBool(false)];
    assert Properties1[0].1.values == Some(v);
    assert StringValues(v) == ["page", "step", "location", "date", "time"];
    assert SomeBoolean(v);
    assert MapType("token") == Some(Token);
    assert SetOf(["page", "step", "location", "date", "time"]) == {"page", "step", "location", "date", "time"};
  }

  /** `aria-dropeffect` turns into its row: its string values become the permitted tokens. */
  lemma DropeffectRow()
    ensures TableRow(Convert(Properties1[5])) == Some(Rows1[5])
  {
    var v := [JsString("copy"), JsString("execute"), JsString("link"), JsString("move"), JsString("none"), JsString("popup")];
    assert Properties1[5].1.values == Some(v);
    assert StringValues(v) == ["copy", "execute", "link", "move", "none", "popup"];
    assert !SomeBoolean(v);
    assert MapType("tokenlist") == Some(TokenList);
    assert SetOf(["move", "none", "popup"]) == {"move", "none", "popup"};
    assert SetOf(["copy", "execute", "link", "move", "none", "popup"]) == {"copy", "execute", "link", "move", "none", "popup"};
  }

  /** `aria-haspopup` turns into its row: its string values become the permitted tokens. */
  lemma HaspopupRow()
    ensures TableRow(Convert(Properties1[10])) == Some(Rows1[10])
  {
    var v := [JsBool(false), JsBool(true), JsString("menu"), JsString("listbox"), JsString("tree"), JsString("grid"), JsString("dialog")];
    assert Properties1[10].1.values == Some(v);
    assert StringValues(v) == ["menu", "listbox", "tree", "grid", "dialog"];
    assert SomeBoolean(v);
    assert MapType("token") == Some(Token);
    assert SetOf(["menu", "listbox", "tree", "grid", "dialog"]) == {"menu", "listbox", "tree", "grid", "dialog"};
  }

  /** `aria-invalid` turns into its row: its string values become the permitted tokens. */
  lemma InvalidRow()
    ensures TableRow(Convert(Properties2[1])) == Some(Rows2[1])
  {
    var v := [JsString("grammar"), JsBool(false), JsString("spelling"), JsBool(true)];
    assert Properties2[1].1.values == Some(v);
    assert StringValues(v) == ["grammar", "spelling"];
    assert SomeBoolean(v);
    assert MapType("token") == Some(Token);
    assert SetOf(["grammar", "spelling"]) == {"grammar", "spelling"};
  }

  /** `aria-live` turns into its row: its string values become the permitted tokens. */
  lemma LiveRow()
    ensures TableRow(Convert(Properties2[6])) == Some(Rows2[6])
  {
    var v := [JsString("assertive"), JsString("off"), JsString("polite")];
    assert Properties2[6].1.values == Some(v);
    assert StringValues(v) == ["assertive", "off", "polite"];
    assert !SomeBoolean(v);
    assert MapType("token") == Some(Token);
    assert SetOf(["assertive", "off", "polite"]) == {"assertive", "off", "polite"};
  }

  /** `aria-orientation` turns into its row: its string values become the permitted tokens. */
  lemma OrientationRow()
    ensures TableRow(Convert(Properties2[10])) == Some(Rows2[10])
  {
    var v := [JsString("vertical"), JsString("undefined"), JsString("horizontal")];
    assert Properties2[10].1.values == Some(v);
    assert StringValues(v) == ["vertical", "undefined", "horizontal"];
    assert !SomeBoolean(v);
    assert MapType("token") == Some(Token);
    assert SetOf(["vertical", "undefined", "horizontal"]) == {"vertical", "undefined", "horizontal"};
  }

  /** `aria-relevant` turns into its row: its string values become the permitted tokens. */
  lemma RelevantRow()
    ensures TableRow(Convert(Properties3[5])) == Some(Rows3[5])
  {
    var v := [JsString("additions"), JsString("all"), JsString("removals"), JsString("text")];
    assert Properties3[5].1.values == Some(v);
    assert StringValues(v) == ["additions", "all", "removals", "text"];
    assert !SomeBoolean(v);
    assert MapType("tokenlist") == Some(TokenList);
    assert SetOf(["additions", "all", "removals", "text"]) == {"additions", "all", "removals", "text"};
  }

  /** `aria-sort` turns into its row: its string values become the permitted tokens. */
  lemma SortRow()
    ensures TableRow(Convert(Properties4[2])) == Some(Rows4[2])
  {
    var v := [JsString("ascending"), JsString("descending"), JsString("none"), JsString("other")];
    assert Properties4[2].1.values == Some(v);
    assert StringValues(v) == ["ascending", "descending", "none", "other"];
    assert !SomeBoolean(v);
    assert MapType("token") == Some(Token);
    assert SetOf(["ascending", "descending", "none", "other"]) == {"ascending", "descending", "none", "other"};
  }

  /** Properties 0 to 10 turn into rows 0 to 10 of the table, in order. */
  lemma Properties0Agree()
    ensures |Properties0| == |Rows0|
    ensures forall i :: 0 <= i < |Properties0| ==> TableRow(Convert(Properties0[i])) == Some(Rows0[i])
  {
    forall i | 0 <= i < |Properties0|
      ensures TableRow(Convert(Properties0[i])) == Some(Rows0[i])
    {
      if i == 0 {
      } else if i == 1 {
      } else if i == 2 {
        AutocompleteRow();
      } else if i == 3 {
      } else if i == 4 {
      } else if i == 5 {
      } else if i == 6 {
      } else if i == 7 {
      } else if i == 8 {
      } else if i == 9 {
      } else {
        assert i == 10;
      }
    }
  }

  /** Properties 11 to 21 turn into rows 11 to 21 of the table, in order. */
  lemma Properties1Agree()
    ensures |Properties1| == |Rows1|
    ensures forall i :: 0 <= i < |Properties1| ==> TableRow(Convert(Properties1[i])) == Some(Rows1[i])
  {
    forall i | 0 <= i < |Properties1|
      ensures TableRow(Convert(Properties1[i])) == Some(Rows1[i])
    {
      if i == 0 {
        CurrentRow();
      } else if i == 1 {
      } else if i == 2 {
      } else if i == 3 {
      } else if i == 4 {
      } else if i == 5 {
        DropeffectRow();
      } else if i == 6 {
      } else if i == 7 {
      } else if i == 8 {
      } else if i == 9 {
      } else {
        assert i == 10;
        HaspopupRow();
      }
    }
  }

  /** Properties 22 to 32 turn into rows 22 to 32 of the table, in order. */
  lemma Properties2Agree()
    ensures |Properties2| == |Rows2|
    ensures forall i :: 0 <= i < |Properties2| ==> TableRow(Convert(Properties2[i])) == Some(Rows2[i])
  {
    forall i | 0 <= i < |Properties2|
      ensures TableRow(Convert(Properties2[i])) == Some(Rows2[i])
    {
      if i == 0 {
      } else if i == 1 {
        InvalidRow();
      } else if i == 2 {
      } else if i == 3 {
      } else if i == 4 {
      } else if i == 5 {
      } else if i == 6 {
        LiveRow();
      } else if i == 7 {
      } else if i == 8 {
      } else if i == 9 {
      } else {
        assert i == 10;
        OrientationRow();
      }
    }
  }

  /** Properties 33 to 43 turn into rows 33 to 43 of the table, in order. */
  lemma Properties3Agree()
    ensures |Properties3| == |Rows3|
    ensures forall i :: 0 <= i < |Properties3| ==> TableRow(Convert(Properties3[i])) == Some(Rows3[i])
  {
    forall i | 0 <= i < |Properties3|
      ensures TableRow(Convert(Properties3[i])) == Some(Rows3[i])
    {
      if i == 0 {
      } else if i == 1 {
      } else if i == 2 {
      } else if i == 3 {
      } else if i == 4 {
      } else if i == 5 {
        RelevantRow();
      } else if i == 6 {
      } else if i == 7 {
      } else if i == 8 {
      } else if i == 9 {
      } else {
        assert i == 10;
      }
    }
  }

  /** Properties 44 to 50 turn into rows 44 to 50 of the table, in order. */
  lemma Properties4Agree()
    ensures |Properties4| == |Rows4|
    ensures forall i :: 0 <= i < |Properties4| ==> TableRow(Convert(Properties4[i])) == Some(Rows4[i])
  {
    forall i | 0 <= i < |Properties4|
      ensures TableRow(Convert(Properties4[i])) == Some(Rows4[i])
    {
      if i == 0 {
      } else if i == 1 {
      } else if i == 2 {
        SortRow();
      } else if i == 3 {
      } else if i == 4 {
      } else if i == 5 {
      } else {
        assert i == 6;
      }
    }
  }

  /**
   * The generated entries are the table of the lint rule: every property has
   * a known type, and the i-th property becomes the i-th row, with the same
   * name, type, tokens and flags.
   */
  lemma PropertiesAgree()
    ensures |Properties| == |AriaPropTypes| == 51
    ensures forall i :: 0 <= i < |Properties| ==> TableRow(Convert(Properties[i])) == Some(AriaPropTypes[i])
  {
    Properties0Agree();
    Properties1Agree();
    Properties2Agree();
    Properties3Agree();
    Properties4Agree();
    forall i | 0 <= i < |Properties|
      ensures TableRow(Convert(Properties[i])) == Some(AriaPropTypes[i])
    {
      if i < 11 {
        assert Properties[i] == Properties0[i] && AriaPropTypes[i] == Rows0[i];
      } else if i < 22 {
        assert Properties[i] == Properties1[i - 11] && AriaPropTypes[i] == Rows1[i - 11];
      } else if i < 33 {
        assert Properties[i] == Properties2[i - 22] && AriaPropTypes[i] == Rows2[i - 22];
      } else if i < 44 {
        assert Properties[i] == Properties3[i - 33] && AriaPropTypes[i] == Rows3[i - 33];
      } else {
        assert Properties[i] == Properties4[i - 44] && AriaPropTypes[i] == Rows4[i - 44];
      }
    }
  }

  /** The loop over `properties` prints the table of the lint rule, row by row. */
  lemma GeneratedTable(entries: seq<Entry>)
    requires |entries| == |Properties|
    requires forall i :: 0 <= i < |Properties| ==> entries[i] == Convert(Properties[i])
    ensures forall i :: 0 <= i < |entries| ==> TableRow(entries[i]) == Some(AriaPropTypes[i])
  {
    PropertiesAgree();
  }
}
