/**
 * `ArrayJoin::array_join` for an array expression: every element is converted
 * to a string, and if all conversions succeed the strings are joined with the
 * separator, which defaults to ",".
 *
 * The per-element conversion (`ToJsString`, which includes number-to-string
 * conversion of floating-point values) is not part of this model: it is the
 * parameter `toJsString`.
 */
module ArrayJoin {
  import opened Wrappers

  /**
   * `collect::<Option<Vec<_>>>` over the converted elements: `None` as soon
   * as one conversion fails, otherwise every element's string, in order.
   */
  function Collect<E>(elements: seq<E>, toJsString: E -> Option<string>): (r: Option<seq<string>>)
    ensures r.None? <==> exists i :: 0 <= i < |elements| && toJsString(elements[i]).None?
    ensures r.Some? ==> |r.value| == |elements|
    ensures r.Some? ==> forall i :: 0 <= i < |elements| ==> r.value[i] == toJsString(elements[i]).value
    decreases |elements|
  {
    if elements == [] then Some([])
    else
      match toJsString(elements[0])
      case None => None
      case Some(s) =>
        match Collect(elements[1..], toJsString)
        case None =>
          ghost var i :| 0 <= i < |elements[1..]| && toJsString(elements[1..][i]).None?;
          assert toJsString(elements[i + 1]).None?;
          None
        case Some(rest) => Some([s] + rest)
  }

  /** `[S]::join`: the first string, then the separator and the next string for each further one. */
  function Join(parts: seq<string>, sep: string): string
    decreases |parts|
  {
    if parts == [] then ""
    else if |parts| == 1 then parts[0]
    else parts[0] + sep + Join(parts[1..], sep)
  }

  /**
   * The join of section 23.1.3.18 of ECMA-262 (`Array.prototype.join`),
   * read as a fold from the left: the result so far, then the separator
   * unless this is the first element, then the element's string.
   */
  function SpecJoin(parts: seq<string>, sep: string): string
    decreases |parts|
  {
    if parts == [] then ""
    else
      var r := SpecJoin(parts[..|parts| - 1], sep);
      (if |parts| == 1 then r else r + sep) + parts[|parts| - 1]
  }

  /** The elements' strings, in array order, when every conversion succeeds. */
  function Strings<E>(elements: seq<E>, toJsString: E -> Option<string>): seq<string>
    requires forall i :: 0 <= i < |elements| ==> toJsString(elements[i]).Some?
  {
    seq(|elements|, i requires 0 <= i < |elements| => toJsString(elements[i]).value)
  }

  /** The sum of the lengths of the strings. */
  function TotalLength(parts: seq<string>): nat
    decreases |parts|
  {
    if parts == [] then 0 else |parts[0]| + TotalLength(parts[1..])
  }

  /** The separator the source uses: the one given, or "," when there is none. */
  function Separator(separator: Option<string>): (sep: string)
    ensures separator.Some? ==> sep == separator.value
    ensures separator.None? ==> sep == ","
  {
    match separator
    case Some(s) => s
    case None => ","
  }

  /**
   * `array_join`: `None` exactly when some element cannot be converted;
   * otherwise the join of the converted strings, in array order.
   */
  function ArrayJoin<E>(elements: seq<E>, toJsString: E -> Option<string>, separator: Option<string>): (r: Option<string>)
    ensures r.None? <==> exists i :: 0 <= i < |elements| && toJsString(elements[i]).None?
    ensures r.Some? ==> r.value == Join(Strings(elements, toJsString), Separator(separator))
  {
    match Collect(elements, toJsString)
    case None => None
    case Some(v) =>
      assert v == Strings(elements, toJsString);
      Some(Join(v, Separator(separator)))
  }

  // ---------------------------------------------------------------------------
  // Properties of the join

  /** Joining two non-empty runs puts exactly one separator between them. */
  lemma {:induction false} JoinAppend(a: seq<string>, b: seq<string>, sep: string)
    requires a != [] && b != []
    ensures Join(a + b, sep) == Join(a, sep) + sep + Join(b, sep)
    decreases |a|
  {
    if |a| == 1 {
      assert a + b == [a[0]] + b;
      assert (a + b)[1..] == b;
    } else {
      JoinAppend(a[1..], b, sep);
      assert (a + b)[1..] == a[1..] + b;
    }
  }

  /** Appending one string to a non-empty run adds the separator and that string. */
  lemma JoinSnoc(a: seq<string>, s: string, sep: string)
    requires a != []
    ensures Join(a + [s], sep) == Join(a, sep) + sep + s
  {
    JoinAppend(a, [s], sep);
  }

  /** The source's join and the fold of ECMA-262 agree on every input. */
  lemma {:induction false} JoinIsSpecJoin(parts: seq<string>, sep: string)
    ensures Join(parts, sep) == SpecJoin(parts, sep)
    decreases |parts|
  {
    if |parts| > 1 {
      var init := parts[..|parts| - 1];
      JoinIsSpecJoin(init, sep);
      assert parts == init + [parts[|parts| - 1]];
      JoinSnoc(init, parts[|parts| - 1], sep);
    }
  }

  /** No strings join to the empty string; one string joins to itself. */
  lemma JoinSmall(s: string, sep: string)
    ensures Join([], sep) == ""
    ensures Join([s], sep) == s
  {
  }

  /** A join of n >= 1 strings is as long as the strings together plus n - 1 separators. */
  lemma {:induction false} JoinLength(parts: seq<string>, sep: string)
    requires parts != []
    ensures |Join(parts, sep)| == TotalLength(parts) + (|parts| - 1) * |sep|
    decreases |parts|
  {
    if |parts| > 1 {
      JoinLength(parts[1..], sep);
      assert (|parts| - 1) * |sep| == (|parts[1..]| - 1) * |sep| + |sep|;
    }
  }

  /** With no separator given, the join is the one with ",". */
  lemma DefaultSeparator<E>(elements: seq<E>, toJsString: E -> Option<string>)
    ensures ArrayJoin(elements, toJsString, None) == ArrayJoin(elements, toJsString, Some(","))
  {
  }

  /** An empty array joins to the empty string; a single element to its own string. */
  lemma ArrayJoinSmall<E>(e: E, toJsString: E -> Option<string>, separator: Option<string>)
    ensures ArrayJoin([], toJsString, separator) == Some("")
    ensures toJsString(e).Some? ==> ArrayJoin([e], toJsString, separator) == toJsString(e)
  {
    if toJsString(e).Some? {
      assert Strings([e], toJsString) == [toJsString(e).value];
    }
  }

  // ---------------------------------------------------------------------------
  // The unit test of the source

  /** The array elements the unit test builds. */
  datatype Element =
    | Elision
    | NullLiteral
    | NumericLiteral(raw: string)
    | StringLiteral(value: string)
    | BooleanLiteral(b: bool)
    | BigIntLiteral(raw: string)
    | ArrayExpression(elements: seq<Element>)
    | ObjectExpression

  /** The test's first array: a hole, `null`, `42`, `"foo"`, `true`, `42n`. */
  const TestArray: seq<Element> := [
    Elision, NullLiteral, NumericLiteral("42"), StringLiteral("foo"), BooleanLiteral(true), BigIntLiteral("42n")
  ]

  /** The test's second array: the first, then the first nested, then an empty object. */
  const TestArray2: seq<Element> := TestArray + [ArrayExpression(TestArray), ObjectExpression]

  /** The strings `ToJsString` gives for the elements of `TestArray`. */
  const TestStrings: seq<string> := ["", "", "42", "foo", "true", "42n"]

  /** The strings `ToJsString` gives for the elements of `TestArray2`. */
  const TestStrings2: seq<string> := ["", "", "42", "foo", "true", "42n", ",,42,foo,true,42n", "[object Object]"]

  /** What the unit test takes `ToJsString` to give for the elements it uses. */
  ghost predicate TestConversions(toJsString: Element -> Option<string>) {
    && toJsString(Elision) == Some("") && toJsString(NullLiteral) == Some("")
    && toJsString(NumericLiteral("42")) == Some("42") && toJsString(StringLiteral("foo")) == Some("foo")
    && toJsString(BooleanLiteral(true)) == Some("true") && toJsString(BigIntLiteral("42n")) == Some("42n")
    && toJsString(ArrayExpression(TestArray)) == ArrayJoin(TestArray, toJsString, None)
    && toJsString(ObjectExpression) == Some("[object Object]")
  }

  /** The join of the first array's strings, with any separator. */
  lemma JoinTestStrings(sep: string)
    ensures Join(TestStrings, sep) == sep + sep + "42" + sep + "foo" + sep + "true" + sep + "42n"
  {
    var b := TestStrings;
    assert b[1..][1..] == b[2..] && b[2..][1..] == b[3..] && b[3..][1..] == b[4..] && b[4..][1..] == b[5..];
    assert Join(b, sep) == "" + sep + ("" + sep + ("42" + sep + ("foo" + sep + ("true" + sep + "42n"))));
  }

  /** The nested array's default join, "`,,42,foo,true,42n`". */
  lemma JoinTestNested()
    ensures Join(TestStrings, ",") == ",,42,foo,true,42n"
  {
    JoinTestStrings(",");
  }

  /** The join of the second array's strings, with any separator. */
  lemma JoinTest2Strings(sep: string)
    ensures Join(TestStrings2, sep)
            == sep + sep + "42" + sep + "foo" + sep + "true" + sep + "42n" + sep + ",,42,foo,true,42n" + sep + "[object Object]"
  {
    var tail := [",,42,foo,true,42n", "[object Object]"];
    assert TestStrings2 == TestStrings + tail;
    JoinAppend(TestStrings, tail, sep);
    assert tail[1..] == ["[object Object]"];
    JoinTestStrings(sep);
  }

  /** Under the test's conversions, the nested array converts to its default join. */
  lemma TestNestedConverts(toJsString: Element -> Option<string>)
    requires TestConversions(toJsString)
    ensures toJsString(ArrayExpression(TestArray)) == Some(",,42,foo,true,42n")
  {
    assert Strings(TestArray, toJsString) == TestStrings;
    JoinTestNested();
  }

  /** Under the test's conversions, the elements of the second array convert to `TestStrings2`. */
  lemma TestArraysConvert(toJsString: Element -> Option<string>)
    requires TestConversions(toJsString)
    ensures forall i :: 0 <= i < |TestArray2| ==> toJsString(TestArray2[i]).Some?
    ensures Strings(TestArray2, toJsString) == TestStrings2
  {
    TestNestedConverts(toJsString);
  }

  /**
   * The unit test's two assertions, given what `ToJsString` yields for these
   * elements (the empty string for the hole and `null`, the literal's text
   * for the others, the default join for a nested array and
   * "[object Object]" for an object): with "_" the result is
   * "`__42_foo_true_42n_,,42,foo,true,42n_[object Object]`", and with no
   * separator the same pieces are joined with ",". The expected strings are
   * written piece by piece.
   */
  lemma JoinTest(toJsString: Element -> Option<string>)
    requires TestConversions(toJsString)
    ensures ArrayJoin(TestArray2, toJsString, Some("_"))
            == Some("_" + "_" + "42" + "_" + "foo" + "_" + "true" + "_" + "42n" + "_" + ",,42,foo,true,42n" + "_" + "[object Object]")
    ensures ArrayJoin(TestArray2, toJsString, None)
            == Some("," + "," + "42" + "," + "foo" + "," + "true" + "," + "42n" + "," + ",,42,foo,true,42n" + "," + "[object Object]")
  {
    TestArraysConvert(toJsString);
    JoinTest2Strings("_");
    JoinTest2Strings(",");
  }
}
