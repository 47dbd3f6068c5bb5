/**
 * The `aria-proptypes` lint rule of the JSX accessibility plugin: the table of
 * ARIA property types, the check that an attribute value is a boolean, and
 * the guards by which `run` picks the attributes it looks at.
 */
module AriaProptypes {
  import opened Wrappers

  /** The value types an ARIA property can have. */
  datatype AriaPropType = String | Boolean | Id | Tristate | Integer | Number | IdList | Token | TokenList

  /** One row of the table: the type, the permitted tokens, and whether `undefined` and booleans are accepted. */
  datatype AriaPropTypeStruct = AriaPropTypeStruct(
    propType: AriaPropType,
    allowedValues: Option<set<string>>,
    allowUndefined: bool,
    allowBooleanValues: bool)

  // ---------------------------------------------------------------------------
  // The table `ARIA_PROP_TYPES`, as its 51 rows in source order. The rows are
  // declared in five runs of consecutive rows so that the verifier can take
  // them one run at a time.

  /** Rows 0 to 10 of the table (source lines 45 to 55). */
  const Rows0: seq<(string, AriaPropTypeStruct)> := [
    ("aria-activedescendant", AriaPropTypeStruct(Id, None, false, false)),
    ("aria-atomic", AriaPropTypeStruct(Boolean, None, false, false)),
    ("aria-autocomplete", AriaPropTypeStruct(Token, Some({"inline", "list", "both", "none"}), false, false)),
    ("aria-braillelabel", AriaPropTypeStruct(String, None, false, false)),
    ("aria-brailleroledescription", AriaPropTypeStruct(String, None, false, false)),
    ("aria-busy", AriaPropTypeStruct(Boolean, None, false, false)),
    ("aria-checked", AriaPropTypeStruct(Tristate, None, false, false)),
    ("aria-colcount", AriaPropTypeStruct(Integer, None, false, false)),
    ("aria-colindex", AriaPropTypeStruct(Integer, None, false, false)),
    ("aria-colspan", AriaPropTypeStruct(Integer, None, false, false)),
    ("aria-controls", AriaPropTypeStruct(IdList, None, false, false))
  ]

  /** Rows 11 to 21 of the table (source lines 56 to 66). */
  const Rows1: seq<(string, AriaPropTypeStruct)> := [
    ("aria-current", AriaPropTypeStruct(Token, Some({"page", "step", "location", "date", "time"}), false, true)),
    ("aria-describedby", AriaPropTypeStruct(IdList, None, false, false)),
    ("aria-description", AriaPropTypeStruct(String, None, false, false)),
    ("aria-details", AriaPropTypeStruct(Id, None, false, false)),
    ("aria-disabled", AriaPropTypeStruct(Boolean, None, false, false)),
    ("aria-dropeffect", AriaPropTypeStruct(TokenList, Some({"copy", "execute", "link", "move", "none", "popup"}), false, false)),
    ("aria-errormessage", AriaPropTypeStruct(Id, None, false, false)),
    ("aria-expanded", AriaPropTypeStruct(Boolean, None, true, false)),
    ("aria-flowto", AriaPropTypeStruct(IdList, None, false, false)),
    ("aria-grabbed", AriaPropTypeStruct(Boolean, None, true, false)),
    ("aria-haspopup", AriaPropTypeStruct(Token, Some({"menu", "listbox", "tree", "grid", "dialog"}), false, true))
  ]

  /** Rows 22 to 32 of the table (source lines 67 to 77). */
  const Rows2: seq<(string, AriaPropTypeStruct)> := [
    ("aria-hidden", AriaPropTypeStruct(Boolean, None, true, false)),
    ("aria-invalid", AriaPropTypeStruct(Token, Some({"grammar", "spelling"}), false, true)),
    ("aria-keyshortcuts", AriaPropTypeStruct(String, None, false, false)),
    ("aria-label", AriaPropTypeStruct(String, None, false, false)),
    ("aria-labelledby", AriaPropTypeStruct(IdList, None, false, false)),
    ("aria-level", AriaPropTypeStruct(Integer, None, false, false)),
    ("aria-live", AriaPropTypeStruct(Token, Some({"assertive", "off", "polite"}), false, false)),
    ("aria-modal", AriaPropTypeStruct(Boolean, None, false, false)),
    ("aria-multiline", AriaPropTypeStruct(Boolean, None, false, false)),
    ("aria-multiselectable", AriaPropTypeStruct(Boolean, None, false, false)),
    ("aria-orientation", AriaPropTypeStruct(Token, Some({"vertical", "undefined", "horizontal"}), false, false))
  ]

  /** Rows 33 to 43 of the table (source lines 78 to 88). */
  const Rows3: seq<(string, AriaPropTypeStruct)> := [
    ("aria-owns", AriaPropTypeStruct(IdList, None, false, false)),
    ("aria-placeholder", AriaPropTypeStruct(String, None, false, false)),
    ("aria-posinset", AriaPropTypeStruct(Integer, None, false, false)),
    ("aria-pressed", AriaPropTypeStruct(Tristate, None, false, false)),
    ("aria-readonly", AriaPropTypeStruct(Boolean, None, false, false)),
    ("aria-relevant", AriaPropTypeStruct(TokenList, Some({"additions", "all", "removals", "text"}), false, false)),
    ("aria-required", AriaPropTypeStruct(Boolean, None, false, false)),
    ("aria-roledescription", AriaPropTypeStruct(String, None, false, false)),
    ("aria-rowcount", AriaPropTypeStruct(Integer, None, false, false)),
    ("aria-rowindex", AriaPropTypeStruct(Integer, None, false, false)),
    ("aria-rowspan", AriaPropTypeStruct(Integer, None, false, false))
  ]

  /** Rows 44 to 50 of the table (source lines 89 to 95). */
  const Rows4: seq<(string, AriaPropTypeStruct)> := [
    ("aria-selected", AriaPropTypeStruct(Boolean, None, true, false)),
    ("aria-setsize", AriaPropTypeStruct(Integer, None, false, false)),
    ("aria-sort", AriaPropTypeStruct(Token, Some({"ascending", "descending", "none", "other"}), false, false)),
    ("aria-valuemax", AriaPropTypeStruct(Number, None, false, false)),
    ("aria-valuemin", AriaPropTypeStruct(Number, None, false, false)),
    ("aria-valuenow", AriaPropTypeStruct(Number, None, false, false)),
    ("aria-valuetext", AriaPropTypeStruct(String, None, false, false))
  ]

  /** `ARIA_PROP_TYPES`: the 51 rows in source order. */
  const AriaPropTypes: seq<(string, AriaPropTypeStruct)> := Rows0 + Rows1 + Rows2 + Rows3 + Rows4

  /** The row for `name`, if the table has one. */
  function Lookup(entries: seq<(string, AriaPropTypeStruct)>, name: string): (r: Option<AriaPropTypeStruct>)
    ensures r.None? <==> forall i :: 0 <= i < |entries| ==> entries[i].0 != name
    ensures r.Some? ==> exists i :: 0 <= i < |entries| && entries[i] == (name, r.value)
    decreases |entries|
  {
    if entries == [] then None
    else if entries[0].0 == name then Some(entries[0].1)
    else
      var r := Lookup(entries[1..], name);
      if r.Some? then
        ghost var i :| 0 <= i < |entries[1..]| && entries[1..][i] == (name, r.value);
        assert entries[i + 1] == (name, r.value);
        r
      else
        r
  }

  /** `ARIA_PROP_TYPES.get(name)`. */
  function AriaPropTypeOf(name: string): Option<AriaPropTypeStruct> {
    Lookup(AriaPropTypes, name)
  }

  // ---------------------------------------------------------------------------
  // Properties of the table

  /** The properties that also accept a boolean. */
  const BooleanValueProps: set<string> := {"aria-current", "aria-haspopup", "aria-invalid"}

  /** The properties that also accept `undefined`. */
  const UndefinedProps: set<string> := {"aria-expanded", "aria-grabbed", "aria-hidden", "aria-selected"}

  /** What holds of every row. */
  ghost predicate RowFacts(row: (string, AriaPropTypeStruct)) {
    && "aria-" <= row.0
    && (row.1.allowedValues.Some? <==> row.1.propType in {Token, TokenList})
    && (row.1.allowBooleanValues <==> row.0 in BooleanValueProps)
    && (row.1.allowUndefined <==> row.0 in UndefinedProps)
    && (row.1.allowUndefined ==> row.1.propType == Boolean)
  }

  /** The facts hold of rows 0 to 10. */
  lemma Rows0Facts()
    ensures forall i :: 0 <= i < |Rows0| ==> RowFacts(Rows0[i])
  {
  }

  /** The facts hold of rows 11 to 21. */
  lemma Rows1Facts()
    ensures forall i :: 0 <= i < |Rows1| ==> RowFacts(Rows1[i])
  {
  }

  /** The facts hold of rows 22 to 32. */
  lemma Rows2Facts()
    ensures forall i :: 0 <= i < |Rows2| ==> RowFacts(Rows2[i])
  {
  }

  /** The facts hold of rows 33 to 43. */
  lemma Rows3Facts()
    ensures forall i :: 0 <= i < |Rows3| ==> RowFacts(Rows3[i])
  {
  }

  /** The facts hold of rows 44 to 50. */
  lemma Rows4Facts()
    ensures forall i :: 0 <= i < |Rows4| ==> RowFacts(Rows4[i])
  {
  }

  /** The facts hold of every row of the table. */
  lemma TableFacts()
    ensures forall row :: row in AriaPropTypes ==> RowFacts(row)
  {
    Rows0Facts();
    Rows1Facts();
    Rows2Facts();
    Rows3Facts();
    Rows4Facts();
  }

  /** A name the table has a row for is the name of that row. */
  lemma RowOf(name: string)
    requires AriaPropTypeOf(name).Some?
    ensures (name, AriaPropTypeOf(name).value) in AriaPropTypes
  {
  }

  /** The table has rows for the names that accept a boolean or `undefined`. */
  lemma NamedRowsPresent(name: string)
    requires name in BooleanValueProps || name in UndefinedProps
    ensures AriaPropTypeOf(name).Some?
  {
    assert AriaPropTypes[11].0 == "aria-current" && AriaPropTypes[21].0 == "aria-haspopup";
    assert AriaPropTypes[23].0 == "aria-invalid" && AriaPropTypes[18].0 == "aria-expanded";
    assert AriaPropTypes[20].0 == "aria-grabbed" && AriaPropTypes[22].0 == "aria-hidden";
    assert AriaPropTypes[44].0 == "aria-selected";
  }

  /** Every name in the table starts with "aria-". */
  lemma NamesAreAria(name: string)
    ensures AriaPropTypeOf(name).Some? ==> "aria-" <= name
  {
    TableFacts();
    if AriaPropTypeOf(name).Some? {
      RowOf(name);
    }
  }

  /** Permitted tokens are listed exactly for the `Token` and `TokenList` properties. */
  lemma AllowedValuesForTokens(name: string)
    requires AriaPropTypeOf(name).Some?
    ensures AriaPropTypeOf(name).value.allowedValues.Some? <==> AriaPropTypeOf(name).value.propType in {Token, TokenList}
  {
    TableFacts();
    RowOf(name);
  }

  /** Booleans are accepted by aria-current, aria-haspopup and aria-invalid, and by no other property. */
  lemma BooleanValuesExactly(name: string)
    ensures (AriaPropTypeOf(name).Some? && AriaPropTypeOf(name).value.allowBooleanValues) <==> name in BooleanValueProps
  {
    TableFacts();
    if name in BooleanValueProps {
      NamedRowsPresent(name);
    }
    if AriaPropTypeOf(name).Some? {
      RowOf(name);
    }
  }

  /** `undefined` is accepted by aria-expanded, aria-grabbed, aria-hidden and aria-selected, all booleans, and by no other property. */
  lemma UndefinedExactly(name: string)
    ensures (AriaPropTypeOf(name).Some? && AriaPropTypeOf(name).value.allowUndefined) <==> name in UndefinedProps
    ensures name in UndefinedProps ==> AriaPropTypeOf(name).value.propType == Boolean
  {
    TableFacts();
    if name in UndefinedProps {
      NamedRowsPresent(name);
    }
    if AriaPropTypeOf(name).Some? {
      RowOf(name);
    }
  }

  // ---------------------------------------------------------------------------
  // `validate_boolean`

  /** The value of a JSX attribute. */
  datatype JSXAttributeValue =
    | StringLiteral(value: string)
    | ExpressionContainer(expression: JSXExpression)
    | Element
    | Fragment

  /** What a `{...}` container holds: nothing, or an expression. */
  datatype JSXExpression = EmptyExpression | Expr(expression: Expression)

  /** The expressions the check tells apart; the rest are `OtherExpression`. */
  datatype Expression =
    | BooleanLiteral(b: bool)
    | StringLiteral(value: string)
    | NumericLiteral(raw: string)
    | Identifier(name: string)
    | TemplateLiteral
    | UnaryExpression
    | OtherExpression

  /** The text of a string literal passes when it is exactly "true" or "false". */
  predicate IsBooleanText(s: string) {
    s == "true" || s == "false"
  }

  /** `validate_boolean`: whether a value is a boolean, written directly or inside a container. */
  function ValidateBoolean(value: JSXAttributeValue): bool {
    match value
    case StringLiteral(s) => IsBooleanText(s)
    case ExpressionContainer(container) =>
      (match container
       case Expr(BooleanLiteral(_)) => true
       case Expr(StringLiteral(s)) => IsBooleanText(s)
       case _ => false)
    case _ => false
  }

  /** Every value `validate_boolean` accepts. */
  const BooleanValues: set<JSXAttributeValue> := {
    JSXAttributeValue.StringLiteral("true"),
    JSXAttributeValue.StringLiteral("false"),
    ExpressionContainer(Expr(BooleanLiteral(true))),
    ExpressionContainer(Expr(BooleanLiteral(false))),
    ExpressionContainer(Expr(Expression.StringLiteral("true"))),
    ExpressionContainer(Expr(Expression.StringLiteral("false")))
  }

  /** A value is accepted exactly when it is one of the six boolean shapes. */
  lemma ValidateBooleanExactly(value: JSXAttributeValue)
    ensures ValidateBoolean(value) <==> value in BooleanValues
  {
  }

  /** A string inside a container is judged as the same string written directly; the test is case-sensitive. */
  lemma ContainedStringLikeBare(s: string)
    ensures ValidateBoolean(ExpressionContainer(Expr(Expression.StringLiteral(s))))
            == ValidateBoolean(JSXAttributeValue.StringLiteral(s))
    ensures !ValidateBoolean(JSXAttributeValue.StringLiteral("True"))
    ensures !ValidateBoolean(JSXAttributeValue.StringLiteral("FALSE"))
  {
  }

  /** Any boolean literal in a container passes; any other expression, an empty container or an element does not. */
  lemma ValidateBooleanShapes(b: bool, e: Expression, v: JSXAttributeValue)
    ensures ValidateBoolean(ExpressionContainer(Expr(BooleanLiteral(b))))
    ensures !e.BooleanLiteral? && !e.StringLiteral? ==> !ValidateBoolean(ExpressionContainer(Expr(e)))
    ensures !ValidateBoolean(ExpressionContainer(EmptyExpression))
    ensures !v.StringLiteral? && !v.ExpressionContainer? ==> !ValidateBoolean(v)
  {
  }

  // ---------------------------------------------------------------------------
  // `run`

  /** A JSX attribute, or a spread `{...props}`. The name is the attribute's name as written. */
  datatype JSXAttributeItem = Attribute(name: string, value: Option<JSXAttributeValue>) | SpreadAttribute

  /** The node `run` is handed: an attribute item, or any other node. */
  datatype AstNode = JSXAttributeItemNode(item: JSXAttributeItem) | OtherNode

  /**
   * How `run` ends: at one of its early returns, or at the end with the
   * table row of the property (whose `allow_undefined` it prints) and, for
   * a boolean property, the verdict of `validate_boolean`. It reports no
   * diagnostic either way.
   */
  datatype RunOutcome = Ignored | Inspected(row: AriaPropTypeStruct, booleanValid: Option<bool>)

  /** ASCII lower case of one character. */
  function LowerChar(c: char): (r: char)
    ensures 'A' <= c <= 'Z' ==> r as int == c as int + 32
    ensures !('A' <= c <= 'Z') ==> r == c
  {
    if 'A' <= c <= 'Z' then (c as int + 32) as char else c
  }

  /** `to_lowercase`, for ASCII letters. */
  function ToLower(s: string): (r: string)
    ensures |r| == |s|
    ensures forall i :: 0 <= i < |s| ==> r[i] == LowerChar(s[i])
  {
    seq(|s|, i requires 0 <= i < |s| => LowerChar(s[i]))
  }

  /**
   * What lower-casing means: no ASCII capital is left, a string without
   * capitals comes back unchanged, and a character is kept or replaced by
   * its lower-case letter.
   */
  lemma ToLowerFacts(s: string)
    ensures forall i :: 0 <= i < |s| ==> !('A' <= ToLower(s)[i] <= 'Z')
    ensures (forall i :: 0 <= i < |s| ==> !('A' <= s[i] <= 'Z')) ==> ToLower(s) == s
    ensures forall i :: 0 <= i < |s| ==> ToLower(s)[i] == s[i] || ('A' <= s[i] <= 'Z' && ToLower(s)[i] as int == s[i] as int + 32)
  {
  }

  /** Lower-casing twice is lower-casing once. */
  lemma ToLowerIdempotent(s: string)
    ensures ToLower(ToLower(s)) == ToLower(s)
  {
    assert forall i :: 0 <= i < |s| ==> LowerChar(LowerChar(s[i])) == LowerChar(s[i]);
  }

  /**
   * `run`: only an attribute whose lower-cased name starts with "aria-", is
   * a known ARIA property (`validAriaProps`, the global `VALID_ARIA_PROPS`),
   * has a value and has a row in the table gets past the guards; for it, a
   * boolean property's value goes through `validate_boolean`.
   */
  function Run(node: AstNode, validAriaProps: set<string>): (r: RunOutcome)
    ensures r.Inspected? <==>
              && node.JSXAttributeItemNode? && node.item.Attribute?
              && "aria-" <= ToLower(node.item.name) && ToLower(node.item.name) in validAriaProps
              && node.item.value.Some? && AriaPropTypeOf(ToLower(node.item.name)).Some?
    ensures r.Inspected? ==> r.row == AriaPropTypeOf(ToLower(node.item.name)).value
    ensures r.Inspected? ==> (r.booleanValid.Some? <==> r.row.propType == Boolean)
    ensures r.Inspected? && r.booleanValid.Some? ==> r.booleanValid.value == ValidateBoolean(node.item.value.value)
  {
    match node
    case OtherNode => Ignored
    case JSXAttributeItemNode(SpreadAttribute) => Ignored
    case JSXAttributeItemNode(Attribute(rawName, value)) =>
      var name := ToLower(rawName);
      if !("aria-" <= name) || name !in validAriaProps then Ignored
      else if value.None? then Ignored
      else
        match AriaPropTypeOf(name)
        case None => Ignored
        case Some(row) =>
          if row.propType == Boolean then Inspected(row, Some(ValidateBoolean(value.value)))
          else Inspected(row, None)
  }

  /** An attribute whose lower-cased name does not start with "aria-" is left alone, whatever its value. */
  lemma NonAriaIgnored(name: string, value: Option<JSXAttributeValue>, validAriaProps: set<string>)
    requires !("aria-" <= ToLower(name))
    ensures Run(JSXAttributeItemNode(Attribute(name, value)), validAriaProps) == Ignored
  {
  }

  /** `run` does not depend on the case of the attribute's name. */
  lemma RunIgnoresCase(name: string, value: Option<JSXAttributeValue>, validAriaProps: set<string>)
    ensures Run(JSXAttributeItemNode(Attribute(name, value)), validAriaProps)
            == Run(JSXAttributeItemNode(Attribute(ToLower(name), value)), validAriaProps)
  {
    ToLowerIdempotent(name);
  }
}
