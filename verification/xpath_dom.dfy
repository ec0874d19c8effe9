/**
  The XPath expression builder (src/Web/Endpoint/XPathDom.php). An
  expression is a list of parts concatenated at query time; evaluating it
  against the document is a parameter (`Evaluator`), which answers `None`
  for an expression the library rejects.
 */
module XPathDom {
  import opened Wrappers
  import Strings
  import DomUtils

  datatype XPath = XPath(parts: seq<string>)

  /** Evaluating an expression, relative to a context node if given. */
  type Evaluator = (string, Option<DomUtils.Node>) -> Option<seq<DomUtils.Node>>

  /** `implode('', parts)`. */
  function Concat(parts: seq<string>): string {
    Strings.Join("", parts)
  }

  /** Concatenating one more part appends it. */
  lemma {:induction false} ConcatAppend(parts: seq<string>, part: string)
    ensures Concat(parts + [part]) == Concat(parts) + part
    decreases |parts|
  {
    if |parts| == 0 {
      assert parts + [part] == [part];
    } else if |parts| == 1 {
      var ps := parts + [part];
      assert |ps| == 2 && ps[0] == parts[0] && ps[1..] == [part];
      assert Strings.Join("", ps[1..]) == part;
      assert Concat(ps) == parts[0] + "" + part;
      assert parts[0] + "" == parts[0];
    } else {
      ConcatAppend(parts[1..], part);
      assert (parts + [part])[1..] == parts[1..] + [part];
    }
  }

  /** `start`: no parts. */
  function Start(x: XPath): (r: XPath)
    ensures r.parts == [] && Concat(r.parts) == ""
  {
    XPath([])
  }

  /** `with`: one more part. */
  function With(x: XPath, tag: string): (r: XPath)
    ensures r.parts == x.parts + [tag]
    ensures Concat(r.parts) == Concat(x.parts) + tag
  {
    ConcatAppend(x.parts, tag);
    XPath(x.parts + [tag])
  }

  /** `getClassContains`: the test that the class attribute lists `className` as a word. */
  function ClassContains(className: string): string {
    "contains(concat(\" \", normalize-space(@class), \" \"), \" " + className + " \")"
  }

  /** `withClassContains`: one bracketed class test. */
  function WithClassContains(x: XPath, className: string): (r: XPath)
    ensures r.parts == x.parts + ["[" + ClassContains(className) + "]"]
  {
    With(x, "[" + ClassContains(className) + "]")
  }

  /** The class tests of a list of names, in order. */
  function ClassTests(classNames: seq<string>): (r: seq<string>)
    ensures |r| == |classNames| && forall k :: 0 <= k < |r| ==> r[k] == ClassContains(classNames[k])
  {
    seq(|classNames|, k requires 0 <= k < |classNames| => ClassContains(classNames[k]))
  }

  /** `withClassContainsList`: one bracket holding every class test, joined by " and ". */
  function WithClassContainsList(x: XPath, classNames: seq<string>): (r: XPath)
    ensures |r.parts| == |x.parts| + 1 && r.parts[..|x.parts|] == x.parts
    ensures r.parts[|x.parts|] == "[" + Strings.Join(" and ", ClassTests(classNames)) + "]"
  {
    With(x, "[" + Strings.Join(" and ", ClassTests(classNames)) + "]")
  }

  /** A list of one class name is the same as the single test. */
  lemma ClassContainsListOfOne(x: XPath, className: string)
    ensures WithClassContainsList(x, [className]) == WithClassContains(x, className)
  {
    assert ClassTests([className]) == [ClassContains(className)];
  }

  /**
    The expression `query` evaluates: the concatenated parts, with '.'
    put in front when there is a context node and the expression does not
    already start with '.'; no parts (or only empty ones) throws.
   */
  function Expression(x: XPath, hasContext: bool): (r: Result<string>)
    ensures r.Ok? <==> Concat(x.parts) != ""
    ensures r.Err? ==> r.error == "No expression set for xpath"
    ensures r.Ok? && !hasContext ==> r.value == Concat(x.parts)
    ensures r.Ok? && hasContext ==> |r.value| == |Concat(x.parts)| + (if Concat(x.parts)[0] == '.' then 0 else 1)
    ensures r.Ok? && hasContext ==> r.value[0] == '.' && r.value[|r.value| - |Concat(x.parts)|..] == Concat(x.parts)
  {
    var expression := Concat(x.parts);
    if |expression| == 0 then Err("No expression set for xpath")
    else if hasContext && expression[0] != '.' then Ok("." + expression)
    else Ok(expression)
  }

  /** `query`: evaluate the expression; a rejected expression throws. The parts are kept. */
  function Query(x: XPath, context: Option<DomUtils.Node>, evaluate: Evaluator): (r: Result<seq<DomUtils.Node>>)
    ensures r.Ok? ==> Expression(x, context.Some?).Ok? && evaluate(Expression(x, context.Some?).value, context) == Some(r.value)
    ensures Expression(x, context.Some?).Ok? && evaluate(Expression(x, context.Some?).value, context).None? ==>
              r == Err("Invalid xpath expression: " + Expression(x, context.Some?).value)
    ensures Expression(x, context.Some?).Err? ==> r == Err("No expression set for xpath")
  {
    var expression :- Expression(x, context.Some?);
    match evaluate(expression, context)
    case None => Err("Invalid xpath expression: " + expression)
    case Some(nodes) => Ok(nodes)
  }

  /** Because `query` leaves the parts alone, a later `with` extends the expression just queried. */
  lemma WithExtendsExpression(x: XPath, tag: string, hasContext: bool)
    requires Expression(x, hasContext).Ok?
    ensures Expression(With(x, tag), hasContext) == Ok(Expression(x, hasContext).value + tag)
  {
    var e := Concat(x.parts);
    assert Concat(With(x, tag).parts) == e + tag;
    assert (e + tag)[0] == e[0];
    if hasContext && e[0] != '.' {
      assert "." + (e + tag) == ("." + e) + tag;
    }
  }

  /** The expression that finds the element with an id anywhere in the document. */
  function IdExpression(id: string): string {
    "//*[@id=\"" + id + "\"]"
  }

  /**
    `getElementById`: replace the parts by the id expression and query it;
    the node is returned only when exactly one node matches.
   */
  function GetElementById(x: XPath, id: string, context: Option<DomUtils.Node>, evaluate: Evaluator)
    : (r: (XPath, Result<Option<DomUtils.Node>>))
    ensures r.0.parts == [IdExpression(id)]
    ensures r.1.Ok? <==> Query(r.0, context, evaluate).Ok?
    ensures r.1.Ok? ==> (r.1.value.Some? <==> |Query(r.0, context, evaluate).value| == 1)
    ensures r.1.Ok? && r.1.value.Some? ==> r.1.value.value == Query(r.0, context, evaluate).value[0]
  {
    var x' := XPath([IdExpression(id)]);
    match Query(x', context, evaluate)
    case Err(e) => (x', Err(e))
    case Ok(nodes) => (x', Ok(if |nodes| == 1 then Some(nodes[0]) else None))
  }

  /** With a context the id expression is made relative to it. */
  lemma IdExpressionWithContext(id: string)
    ensures Expression(XPath([IdExpression(id)]), true) == Ok("." + IdExpression(id))
    ensures Expression(XPath([IdExpression(id)]), false) == Ok(IdExpression(id))
  {
    assert Concat([IdExpression(id)]) == IdExpression(id);
  }
}
