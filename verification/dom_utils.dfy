/**
  Reading text and attributes from parsed HTML (src/Web/Endpoint/DomUtils.php).
  The document is an abstract tree: elements with attributes and children,
  text nodes, and any other node (comments and the like). Each helper
  throws a message naming what was being read.
 */
module DomUtils {
  import opened Wrappers
  import Strings
  import EndpointUtils

  datatype Node =
    | Element(attributes: seq<(string, string)>, children: seq<Node>)
    | Text(value: string)
    | Other(value: string)

  /** The children of a node; only elements have any. */
  function ChildNodes(n: Node): seq<Node> {
    if n.Element? then n.children else []
  }

  /**
    `textContent` (and `nodeValue` of an element, which PHP gives the same
    way): a text or other node's own data; for an element, the text of its
    descendants in document order, comments and the like left out.
   */
  function TextContent(n: Node): string
    decreases n
  {
    match n
    case Text(v) => v
    case Other(v) => v
    case Element(_, children) =>
      Strings.Join("", seq(|children|, k requires 0 <= k < |children| =>
        if children[k].Other? then "" else TextContent(children[k])))
  }

  /**
    `getElementText`: the trimmed text of a node whose only child is a text
    node; anything else throws "Error getting <type>".
   */
  function GetElementText(node: Node, what: string): (r: Result<string>)
    ensures r.Ok? <==> |ChildNodes(node)| == 1 && ChildNodes(node)[0].Text?
    ensures r.Ok? ==> r.value == Strings.Trim(ChildNodes(node)[0].value)
    ensures r.Err? ==> r.error == "Error getting " + what
  {
    var children := ChildNodes(node);
    if |children| != 1 || !children[0].Text? then Err("Error getting " + what)
    else Ok(Strings.Trim(children[0].value))
  }

  /** The value of the first attribute called `name`, or "" when there is none. */
  function AttributeValue(attributes: seq<(string, string)>, name: string): (v: string)
    ensures (forall k :: 0 <= k < |attributes| ==> attributes[k].0 != name) ==> v == ""
    ensures (exists k :: 0 <= k < |attributes| && attributes[k].0 == name) ==>
              exists k :: 0 <= k < |attributes| && attributes[k] == (name, v)
    decreases |attributes|
  {
    if attributes == [] then ""
    else if attributes[0].0 == name then attributes[0].1
    else
      var v := AttributeValue(attributes[1..], name);
      assert forall k :: 1 <= k < |attributes| ==> attributes[k] == attributes[1..][k - 1];
      v
  }

  /**
    `getAttribute`: the trimmed attribute value of an element (empty when
    it has no such attribute); any other node throws.
   */
  function GetAttribute(node: Node, attr: string, what: string): (r: Result<string>)
    ensures r.Ok? <==> node.Element?
    ensures r.Ok? ==> r.value == Strings.Trim(AttributeValue(node.attributes, attr))
    ensures r.Err? ==> r.error == "Error getting " + attr + " attribute for " + what + "."
  {
    if node.Element? then Ok(Strings.Trim(AttributeValue(node.attributes, attr)))
    else Err("Error getting " + attr + " attribute for " + what + ".")
  }

  /** `getSingleNodeText`: the text of the only node of a list; any other count throws. */
  function GetSingleNodeText(nodes: seq<Node>, what: string): (r: Result<string>)
    ensures r.Ok? <==> |nodes| == 1 && GetElementText(nodes[0], what).Ok?
    ensures |nodes| == 1 ==> r == GetElementText(nodes[0], what)
    ensures r.Err? ==> r.error == "Error getting " + what
  {
    if |nodes| != 1 then Err("Error getting " + what) else GetElementText(nodes[0], what)
  }

  /** The text a helper returns is already trimmed. */
  lemma TextIsTrimmed(nodes: seq<Node>, what: string)
    requires GetSingleNodeText(nodes, what).Ok?
    ensures Strings.Trim(GetSingleNodeText(nodes, what).value) == GetSingleNodeText(nodes, what).value
  {
    Strings.TrimIdempotent(ChildNodes(nodes[0])[0].value);
  }

  /**
    `split`: as `Utils::split`, but a wrong number of pieces throws
    "Error getting <type>: expected <n> values from split, got <m>".
   */
  function Split(delimiter: string, value: string, expected: int, what: string): (r: Result<seq<string>>)
    requires |delimiter| > 0
    ensures r.Ok? <==> EndpointUtils.Split(delimiter, value, expected).Some?
    ensures r.Ok? ==> Some(r.value) == EndpointUtils.Split(delimiter, value, expected)
    ensures r.Err? ==> r.error == "Error getting " + what + ": expected " + Strings.IntToString(expected)
                                 + " values from split, got " + Strings.IntToString(|Strings.Explode(delimiter, value)|)
  {
    var result := EndpointUtils.TrimAll(Strings.Explode(delimiter, value));
    if |result| != expected then
      Err("Error getting " + what + ": expected " + Strings.IntToString(expected)
          + " values from split, got " + Strings.IntToString(|result|))
    else Ok(result)
  }

  /**
    Trimmed pieces free of a one-character delimiter come back from their
    join when as many are expected; any other count throws, naming both.
   */
  lemma SplitJoin(c: char, parts: seq<string>, expected: int, what: string)
    requires |parts| >= 1
    requires forall k :: 0 <= k < |parts| ==> c !in parts[k] && Strings.IsTrimmed(parts[k])
    ensures Split([c], Strings.Join([c], parts), expected, what)
            == if expected == |parts| then Ok(parts)
               else Err("Error getting " + what + ": expected " + Strings.IntToString(expected)
                        + " values from split, got " + Strings.IntToString(|parts|))
  {
    EndpointUtils.SplitJoin(c, parts);
  }
}
