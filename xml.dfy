/**
 * The parts of `System.Xml.Linq` the NFO readers use, over an already parsed
 * tree: element lookup by name, child enumeration by name, attribute lookup and
 * the `Value` of an element (the concatenation of all text beneath it).
 */
module Xml {
  import opened Wrappers

  /** An expanded name; a plain `"title"` in the source is the name with an empty namespace. */
  datatype XName = XName(namespace: string, localName: string)

  /** A node of the tree: a text node or an element with its attributes and children. */
  datatype XNode =
    | Text(text: string)
    | Element(name: XName, attributes: seq<(XName, string)>, children: seq<XNode>)

  type XElement = n: XNode | n.Element? witness Element(XName("", ""), [], [])

  /** The name `XName.Get(local)`, as an implicit conversion from a string yields it. */
  function Plain(local: string): XName {
    XName("", local)
  }

  /** `XElement.Value`: every text node beneath the node, in document order. */
  function Value(n: XNode): string
    decreases n, 1
  {
    match n
    case Text(t) => t
    case Element(_, _, children) => ValueOfAll(children)
  }

  function ValueOfAll(nodes: seq<XNode>): string
    decreases nodes, 0
  {
    if nodes == [] then "" else Value(nodes[0]) + ValueOfAll(nodes[1..])
  }

  /** `Elements(name)`: the child elements called `name`, in document order. */
  function ElementsNamed(e: XElement, name: XName): seq<XElement> {
    ChildrenNamed(e.children, name)
  }

  function ChildrenNamed(nodes: seq<XNode>, name: XName): (r: seq<XElement>)
    ensures |r| <= |nodes|
  {
    if nodes == [] then []
    else
      var rest := ChildrenNamed(nodes[1..], name);
      if nodes[0].Element? && nodes[0].name == name then
        var head: XElement := nodes[0];
        [head] + rest
      else rest
  }

  /** `Elements(name)` yields the children called `name` and only those. */
  lemma {:induction false} ChildrenNamedExactly(nodes: seq<XNode>, name: XName)
    ensures forall i :: 0 <= i < |ChildrenNamed(nodes, name)| ==>
              ChildrenNamed(nodes, name)[i].name == name && ChildrenNamed(nodes, name)[i] in nodes
    ensures forall c :: c in nodes && c.Element? && c.name == name ==> c in ChildrenNamed(nodes, name)
  {
    if nodes != [] {
      ChildrenNamedExactly(nodes[1..], name);
      assert forall c :: c in nodes[1..] ==> c in nodes;
      assert forall c :: c in nodes ==> c == nodes[0] || c in nodes[1..];
    }
  }

  /** `Element(name)`: the first child element called `name`, if any. */
  function ElementNamed(e: XElement, name: XName): (r: Option<XElement>)
    ensures r.Some? <==> |ElementsNamed(e, name)| > 0
    ensures r.Some? ==> r.value == ElementsNamed(e, name)[0]
  {
    var all := ElementsNamed(e, name);
    if |all| == 0 then None else Some(all[0])
  }

  /** `Element(name)?.Value`. */
  function ChildValue(e: XElement, local: string): Option<string> {
    match ElementNamed(e, Plain(local))
    case None => None
    case Some(c) => Some(Value(c))
  }

  /** `(string?)Attribute(name)`: the value of the first attribute called `name`. */
  function AttributeValue(attributes: seq<(XName, string)>, name: XName): (r: Option<string>)
    ensures r.Some? <==> exists i :: 0 <= i < |attributes| && attributes[i].0 == name
  {
    if attributes == [] then None
    else if attributes[0].0 == name then Some(attributes[0].1)
    else
      var r := AttributeValue(attributes[1..], name);
      assert forall i :: 1 <= i < |attributes| ==> attributes[i] == attributes[1..][i - 1];
      r
  }
}
