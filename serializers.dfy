/**
 * The record shapes the marshmallow schemas describe (Graph, GraphLink,
 * GraphNode, Data), and the two counters the bot derives from a graph.
 * Decoding JSON against these schemas is library behaviour and stays outside
 * the model: callers receive it as a `Decoder`.
 */
module Serializers {
  import opened Wrappers

  datatype GraphLink = GraphLink(source: int, target: int, value: string)

  datatype GraphNode = GraphNode(index: int, name: string)

  datatype Graph = Graph(links: seq<GraphLink>, nodes: seq<GraphNode>)

  /**
   * `json.loads` followed by `Graph().load`: `None` when the text is not JSON
   * or does not match the schema.
   */
  type Decoder = string -> Option<Graph>

  /**
   * The persisted record `{'etag', 'liks', 'noms'}`; `None` stands for JSON
   * null, which is what the bot starts from when nothing could be loaded.
   */
  datatype Data = Data(etag: Option<string>, liks: Option<int>, noms: Option<int>)

  const EmptyData: Data := Data(None, None, None)

  /** What the `Data` schema accepts: all three fields present and not null. */
  predicate Complete(d: Data) {
    d.etag.Some? && d.liks.Some? && d.noms.Some?
  }

  /** Every record the bot holds is either complete or entirely empty. */
  predicate Consistent(d: Data) {
    Complete(d) || d == EmptyData
  }

  /** Python's truthiness of the stored etag: `None` and `''` are both false. */
  predicate HasEtag(d: Data) {
    d.etag.Some? && d.etag.value != ""
  }

  /** The values of the links, in order. */
  function Values(links: seq<GraphLink>): (vs: seq<string>)
    ensures |vs| == |links|
    ensures forall i :: 0 <= i < |links| ==> vs[i] == links[i].value
  {
    seq(|links|, i requires 0 <= i < |links| => links[i].value)
  }

  /** `sum(1 for link in links if link['value'] == value)` */
  function CountValue(links: seq<GraphLink>, value: string): nat
    decreases |links|
  {
    if |links| == 0 then 0
    else CountValue(links[..|links| - 1], value) + (if links[|links| - 1].value == value then 1 else 0)
  }

  /** The count is the multiplicity of the value among the links: duplicates count, other values do not. */
  lemma {:induction false} CountValueIsMultiplicity(links: seq<GraphLink>, value: string)
    ensures CountValue(links, value) == multiset(Values(links))[value]
    decreases |links|
  {
    if |links| > 0 {
      var init := links[..|links| - 1];
      CountValueIsMultiplicity(init, value);
      assert Values(links) == Values(init) + [links[|links| - 1].value];
    }
  }

  /** Counting distributes over concatenation of link lists. */
  lemma {:induction false} CountValueAppend(a: seq<GraphLink>, b: seq<GraphLink>, value: string)
    ensures CountValue(a + b, value) == CountValue(a, value) + CountValue(b, value)
    decreases |b|
  {
    if |b| > 0 {
      var init := b[..|b| - 1];
      assert (a + b)[..|a + b| - 1] == a + init;
      CountValueAppend(a, init, value);
    } else {
      assert a + b == a;
    }
  }

  /** Two different values never count more links than there are. */
  lemma {:induction false} CountTwoValuesBounded(links: seq<GraphLink>, v: string, w: string)
    requires v != w
    ensures CountValue(links, v) + CountValue(links, w) <= |links|
    decreases |links|
  {
    if |links| > 0 {
      CountTwoValuesBounded(links[..|links| - 1], v, w);
    }
  }

  /** The record `update_data` writes for a freshly fetched graph. */
  function Counted(etag: string, graph: Graph): (d: Data)
    ensures Complete(d) && d.etag == Some(etag)
  {
    Data(Some(etag), Some(CountValue(graph.links, "lik")), Some(CountValue(graph.links, "nom")))
  }

  /** Links that all carry the value are all counted; links that none carry it count zero. */
  lemma {:induction false} CountValueUniform(links: seq<GraphLink>, value: string)
    ensures (forall i :: 0 <= i < |links| ==> links[i].value == value) ==> CountValue(links, value) == |links|
    ensures (forall i :: 0 <= i < |links| ==> links[i].value != value) ==> CountValue(links, value) == 0
    decreases |links|
  {
    if |links| > 0 {
      CountValueUniform(links[..|links| - 1], value);
    }
  }

  /** The graph of the `update_data` tests: two "lik" links and five "nom" links. */
  lemma CountedExample()
    ensures var links := [
        GraphLink(1, 2, "lik"), GraphLink(2, 3, "lik"), GraphLink(3, 4, "nom"),
        GraphLink(4, 5, "nom"), GraphLink(5, 6, "nom"), GraphLink(6, 7, "nom"),
        GraphLink(7, 8, "nom")];
      Counted("deadbeef", Graph(links, [])) == Data(Some("deadbeef"), Some(2), Some(5))
  {
    var liks := [GraphLink(1, 2, "lik"), GraphLink(2, 3, "lik")];
    var noms := [GraphLink(3, 4, "nom"), GraphLink(4, 5, "nom"), GraphLink(5, 6, "nom"),
                 GraphLink(6, 7, "nom"), GraphLink(7, 8, "nom")];
    assert "lik" != "nom" by { assert "lik"[0] != "nom"[0]; }
    CountValueUniform(liks, "lik");
    CountValueUniform(liks, "nom");
    CountValueUniform(noms, "lik");
    CountValueUniform(noms, "nom");
    CountValueAppend(liks, noms, "lik");
    CountValueAppend(liks, noms, "nom");
    assert liks + noms == [
        GraphLink(1, 2, "lik"), GraphLink(2, 3, "lik"), GraphLink(3, 4, "nom"),
        GraphLink(4, 5, "nom"), GraphLink(5, 6, "nom"), GraphLink(6, 7, "nom"),
        GraphLink(7, 8, "nom")];
  }
}
