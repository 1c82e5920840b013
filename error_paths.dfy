/**
 * Reporting a configuration that fails its schema (mystery_graph_bot.py and
 * `path_to_string` of mystery_graph_bot/util.py): the nested error object of
 * the schema library is walked depth first and every list of messages
 * becomes one line ` - <path> : <messages>`. The lines go to standard error
 * in the source; here they are returned, together with whether the walk
 * raised `ValueError` (after printing the lines before the fault).
 */
module ErrorPaths {
  import opened Wrappers
  import opened Text

  /** One step of an error path: a field name, a list index, or anything else. */
  datatype PathItem = Name(name: string) | Index(index: int) | Other

  /** `item_to_str`: `None` where it raises `ValueError`. */
  function ItemToString(item: PathItem): Option<string> {
    match item
    case Name(n) => Some("." + n)
    case Index(k) => Some("[" + IntToString(k) + "]")
    case Other => None
  }

  /** `''.join(item_to_str(item) for item in path)`; `None` when an item raises. */
  function Rendered(path: seq<PathItem>): Option<string>
    decreases |path|
  {
    if |path| == 0 then
      Some("")
    else
      match (ItemToString(path[0]), Rendered(path[1..]))
      case (Some(head), Some(tail)) => Some(head + tail)
      case _ => None
  }

  /** Every item of the path is a name or an index. */
  predicate Printable(path: seq<PathItem>) {
    forall i :: 0 <= i < |path| ==> !path[i].Other?
  }

  lemma {:induction false} RenderedFailsIff(path: seq<PathItem>)
    ensures Rendered(path).None? <==> !Printable(path)
    decreases |path|
  {
    if |path| > 0 {
      RenderedFailsIff(path[1..]);
      if !Printable(path) && !path[0].Other? {
        var i :| 0 <= i < |path| && path[i].Other?;
        assert path[1..][i - 1] == path[i];
      }
    }
  }

  /**
   * `path_to_string`: the rendered items, without the leading `.` when the
   * path starts with a name; `None` exactly when some item is neither a name
   * nor an index.
   */
  function PathToString(path: seq<PathItem>): (r: Option<string>)
    ensures r.Some? <==> Printable(path)
  {
    RenderedFailsIff(path);
    match Rendered(path)
    case None => None
    case Some(s) =>
      if |path| > 0 && path[0].Name? then
        assert s == "." + path[0].name + Rendered(path[1..]).value;
        Some(s[1..])
      else
        Some(s)
  }

  /** How one item shows in a rendered path; only a leading name has no dot. */
  function Piece(item: PathItem, first: bool): string
    requires !item.Other?
  {
    match item
    case Name(n) => if first then n else "." + n
    case Index(k) => "[" + IntToString(k) + "]"
  }

  lemma {:induction false} RenderedAppend(path: seq<PathItem>, item: PathItem)
    requires Printable(path) && !item.Other?
    ensures Rendered(path).Some?
    ensures Rendered(path + [item]) == Some(Rendered(path).value + ItemToString(item).value)
    decreases |path|
  {
    RenderedFailsIff(path);
    if |path| == 0 {
      assert path + [item] == [item];
      assert [item][1..] == [];
      assert Rendered([item]) == Some(ItemToString(item).value + "");
      assert ItemToString(item).value + "" == ItemToString(item).value;
      assert Rendered(path) == Some("");
      assert "" + ItemToString(item).value == ItemToString(item).value;
    } else {
      assert (path + [item])[1..] == path[1..] + [item];
      assert Printable(path[1..]) by {
        forall i | 0 <= i < |path[1..]| ensures !path[1..][i].Other? {
          assert path[1..][i] == path[i + 1];
        }
      }
      RenderedAppend(path[1..], item);
      var head := ItemToString(path[0]).value;
      var tail := Rendered(path[1..]).value;
      var t := ItemToString(item).value;
      assert (path + [item])[0] == path[0];
      assert Rendered(path + [item]) == Some(head + (tail + t));
      assert Rendered(path) == Some(head + tail);
      assert head + (tail + t) == (head + tail) + t;
    }
  }

  /**
   * Appending an item to a path appends its piece to the rendering: names as
   * `.name` (bare when first), indices as `[n]`, in path order.
   */
  lemma PathToStringAppend(path: seq<PathItem>, item: PathItem)
    requires Printable(path) && !item.Other?
    ensures PathToString(path + [item]) == Some(PathToString(path).value + Piece(item, |path| == 0))
  {
    RenderedAppend(path, item);
    var s := Rendered(path).value;
    var t := ItemToString(item).value;
    if |path| == 0 {
      assert path == [];
      assert PathToString(path) == Some("");
      assert path + [item] == [item];
      assert s + t == t;
      assert Rendered([item]) == Some(t);
      if item.Name? {
        assert t == "." + item.name;
        assert t[1..] == item.name;
        assert PathToString([item]) == Some(item.name);
      } else {
        assert PathToString([item]) == Some(t);
      }
      assert "" + Piece(item, true) == Piece(item, true);
    } else {
      assert (path + [item])[0] == path[0];
      if path[0].Name? {
        assert s == "." + path[0].name + Rendered(path[1..]).value;
        assert (s + t)[1..] == s[1..] + t;
      }
    }
  }

  /** The examples of the path rules: a leading name loses its dot, a leading index keeps its brackets. */
  lemma PathToStringExamples()
    ensures PathToString([]) == Some("")
    ensures PathToString([Name("a"), Index(0), Name("b")]) == Some("a[0].b")
    ensures PathToString([Index(0), Name("a")]) == Some("[0].a")
    ensures PathToString([Name("a"), Other]) == None
  {
    assert IntToString(0) == "0";
    PathToStringAppend([], Name("a"));
    assert [] + [Name("a")] == [Name("a")];
    assert PathToString([]) == Some("");
    assert Piece(Name("a"), true) == "a";
    assert "" + "a" == "a";
    PathToStringAppend([Name("a")], Index(0));
    assert [Name("a")] + [Index(0)] == [Name("a"), Index(0)];
    assert "a" + ("[" + "0" + "]") == "a[0]";
    PathToStringAppend([Name("a"), Index(0)], Name("b"));
    assert [Name("a"), Index(0)] + [Name("b")] == [Name("a"), Index(0), Name("b")];
    PathToStringAppend([], Index(0));
    assert [] + [Index(0)] == [Index(0)];
    assert "" + ("[" + "0" + "]") == "[0]";
    assert "a[0]" + ("." + "b") == "a[0].b";
    assert "[0]" + ("." + "a") == "[0].a";
    PathToStringAppend([Index(0)], Name("a"));
    assert [Index(0)] + [Name("a")] == [Index(0), Name("a")];
    assert !Printable([Name("a"), Other]) by {
      assert [Name("a"), Other][1].Other?;
    }
  }

  /**
   * The error object of the schema library: a list of messages, a dictionary
   * from keys to nested error objects (in its iteration order), or anything
   * else.
   */
  datatype ErrorTree = Messages(msgs: seq<string>) | Fields(entries: seq<(PathItem, ErrorTree)>) | Malformed

  /** What walking an error object prints, and whether it then raised `ValueError`. */
  datatype Report = Report(lines: seq<string>, raised: bool)

  /** `print_marshmallow_error`: one line per list of messages. */
  function Line(path: string, msgs: seq<string>): string {
    " - " + path + " : " + Join(msgs, ' ')
  }

  /** `go_through_marshmallow_errors(path, errors)` */
  function GoThrough(path: seq<PathItem>, t: ErrorTree): Report
    decreases t, 1
  {
    match t
    case Messages(msgs) =>
      var p := PathToString(path);
      if p.None? then Report([], true) else Report([Line(p.value, msgs)], false)
    case Fields(entries) => GoThroughEntries(path, entries, t)
    case Malformed => Report([], true)
  }

  /** The loop over `errors.items()`: stops at the first entry that raises. */
  function GoThroughEntries(path: seq<PathItem>, entries: seq<(PathItem, ErrorTree)>, ghost parent: ErrorTree): Report
    requires forall i :: 0 <= i < |entries| ==> entries[i].1 < parent
    decreases parent, 0, |entries|
  {
    if |entries| == 0 then
      Report([], false)
    else
      var first := GoThrough(path + [entries[0].0], entries[0].1);
      if first.raised then
        first
      else
        var rest := GoThroughEntries(path, entries[1..], parent);
        Report(first.lines + rest.lines, rest.raised)
  }

  /** `print_marshmallow_errors`: the walk starts at the empty path. */
  function PrintMarshmallowErrors(errors: ErrorTree): Report {
    GoThrough([], errors)
  }

  /** A list of messages together with the full path at which it sits. */
  datatype Leaf = Leaf(path: seq<PathItem>, msgs: seq<string>)

  /** The lists of messages of an error object, depth first, in dictionary order. */
  function Leaves(path: seq<PathItem>, t: ErrorTree): seq<Leaf>
    decreases t, 1
  {
    match t
    case Messages(msgs) => [Leaf(path, msgs)]
    case Fields(entries) => EntriesLeaves(path, entries, t)
    case Malformed => []
  }

  function EntriesLeaves(path: seq<PathItem>, entries: seq<(PathItem, ErrorTree)>, ghost parent: ErrorTree): seq<Leaf>
    requires forall i :: 0 <= i < |entries| ==> entries[i].1 < parent
    decreases parent, 0, |entries|
  {
    if |entries| == 0 then []
    else Leaves(path + [entries[0].0], entries[0].1) + EntriesLeaves(path, entries[1..], parent)
  }

  /** Some node of the error object is neither a list nor a dictionary. */
  predicate HasMalformed(t: ErrorTree)
    decreases t, 1
  {
    match t
    case Messages(_) => false
    case Fields(entries) => EntriesHaveMalformed(entries, t)
    case Malformed => true
  }

  predicate EntriesHaveMalformed(entries: seq<(PathItem, ErrorTree)>, ghost parent: ErrorTree)
    requires forall i :: 0 <= i < |entries| ==> entries[i].1 < parent
    decreases parent, 0, |entries|
  {
    |entries| > 0 && (HasMalformed(entries[0].1) || EntriesHaveMalformed(entries[1..], parent))
  }

  /** Some list of messages sits at a path that cannot be rendered. */
  predicate HasUnprintableLeaf(leaves: seq<Leaf>) {
    exists i :: 0 <= i < |leaves| && !Printable(leaves[i].path)
  }

  /** The lines of a walk that does not raise: one per leaf, in order. */
  predicate LinesOf(lines: seq<string>, leaves: seq<Leaf>) {
    && |lines| == |leaves|
    && forall i :: 0 <= i < |leaves| ==>
         Printable(leaves[i].path) && lines[i] == Line(PathToString(leaves[i].path).value, leaves[i].msgs)
  }

  lemma LinesOfAppend(l1: seq<string>, v1: seq<Leaf>, l2: seq<string>, v2: seq<Leaf>)
    requires LinesOf(l1, v1) && LinesOf(l2, v2)
    ensures LinesOf(l1 + l2, v1 + v2)
  {
    forall i | 0 <= i < |v1 + v2|
      ensures Printable((v1 + v2)[i].path)
      ensures (l1 + l2)[i] == Line(PathToString((v1 + v2)[i].path).value, (v1 + v2)[i].msgs)
    {
      if i < |v1| {
        assert (v1 + v2)[i] == v1[i] && (l1 + l2)[i] == l1[i];
      } else {
        assert (v1 + v2)[i] == v2[i - |v1|] && (l1 + l2)[i] == l2[i - |v1|];
      }
    }
  }

  lemma UnprintableAppend(v1: seq<Leaf>, v2: seq<Leaf>)
    ensures HasUnprintableLeaf(v1 + v2) <==> HasUnprintableLeaf(v1) || HasUnprintableLeaf(v2)
  {
    if HasUnprintableLeaf(v1 + v2) {
      var i :| 0 <= i < |v1 + v2| && !Printable((v1 + v2)[i].path);
      if i < |v1| {
        assert (v1 + v2)[i] == v1[i];
      } else {
        assert (v1 + v2)[i] == v2[i - |v1|];
      }
    }
    if HasUnprintableLeaf(v1) {
      var i :| 0 <= i < |v1| && !Printable(v1[i].path);
      assert (v1 + v2)[i] == v1[i];
    }
    if HasUnprintableLeaf(v2) {
      var i :| 0 <= i < |v2| && !Printable(v2[i].path);
      assert (v1 + v2)[|v1| + i] == v2[i];
    }
  }

  /**
   * The walk raises exactly when the error object has a node that is neither
   * a list nor a dictionary, or a list of messages at a path that cannot be
   * rendered; otherwise it prints one line per list of messages, depth first
   * in dictionary order, each ` - <path> : <messages joined by spaces>`.
   */
  lemma {:induction false} GoThroughReports(path: seq<PathItem>, t: ErrorTree)
    ensures var r := GoThrough(path, t);
      && (r.raised <==> HasMalformed(t) || HasUnprintableLeaf(Leaves(path, t)))
      && (!r.raised ==> LinesOf(r.lines, Leaves(path, t)))
    decreases t, 1
  {
    match t
    case Messages(msgs) =>
      assert Leaves(path, t)[0] == Leaf(path, msgs);
      if !Printable(path) {
        assert HasUnprintableLeaf(Leaves(path, t));
      }
    case Fields(entries) =>
      EntriesReport(path, entries, t);
    case Malformed =>
  }

  lemma {:induction false} EntriesReport(path: seq<PathItem>, entries: seq<(PathItem, ErrorTree)>, parent: ErrorTree)
    requires forall i :: 0 <= i < |entries| ==> entries[i].1 < parent
    ensures var r := GoThroughEntries(path, entries, parent);
      && (r.raised <==> EntriesHaveMalformed(entries, parent) || HasUnprintableLeaf(EntriesLeaves(path, entries, parent)))
      && (!r.raised ==> LinesOf(r.lines, EntriesLeaves(path, entries, parent)))
    decreases parent, 0, |entries|
  {
    if |entries| > 0 {
      var p := path + [entries[0].0];
      var sub := entries[0].1;
      GoThroughReports(p, sub);
      EntriesReport(path, entries[1..], parent);
      UnprintableAppend(Leaves(p, sub), EntriesLeaves(path, entries[1..], parent));
      var first := GoThrough(p, sub);
      if !first.raised {
        var rest := GoThroughEntries(path, entries[1..], parent);
        if !rest.raised {
          LinesOfAppend(first.lines, Leaves(p, sub), rest.lines, EntriesLeaves(path, entries[1..], parent));
        }
      }
    }
  }

  /** The number of lines printed is the number of lists of messages in the error object. */
  lemma PrintedLineCount(errors: ErrorTree)
    requires !PrintMarshmallowErrors(errors).raised
    ensures |PrintMarshmallowErrors(errors).lines| == |Leaves([], errors)|
  {
    GoThroughReports([], errors);
  }

  lemma ExamplePaths()
    ensures PathToString([Name("token")]) == Some("token")
    ensures PathToString([Name("chat_whitelist"), Index(0)]) == Some("chat_whitelist[0]")
  {
    assert IntToString(0) == "0";
    PathToStringAppend([], Name("token"));
    assert [] + [Name("token")] == [Name("token")];
    assert "" + "token" == "token";
    PathToStringAppend([], Name("chat_whitelist"));
    assert [] + [Name("chat_whitelist")] == [Name("chat_whitelist")];
    assert "" + "chat_whitelist" == "chat_whitelist";
    PathToStringAppend([Name("chat_whitelist")], Index(0));
    assert [Name("chat_whitelist")] + [Index(0)] == [Name("chat_whitelist"), Index(0)];
    assert "chat_whitelist" + ("[" + "0" + "]") == "chat_whitelist[0]";
  }

  lemma ExampleLineToken()
    ensures Line("token", ["Missing data for required field."]) == " - token : " + "Missing data for required field."
  {
  }

  lemma ExampleLineChat()
    ensures Line("chat_whitelist[0]", ["Not a valid string or integer."])
      == " - chat_whitelist[0] : " + "Not a valid string or integer."
  {
    assert Join(["Not a valid string or integer."], ' ') == "Not a valid string or integer.";
  }

  /**
   * A configuration without a token and with a whitelist whose first chat is
   * neither a string nor an integer: one line per field, in dictionary order.
   */
  lemma PrintExample()
    ensures PrintMarshmallowErrors(Fields([
        (Name("token"), Messages(["Missing data for required field."])),
        (Name("chat_whitelist"), Fields([(Index(0), Messages(["Not a valid string or integer."]))]))
      ])) == Report([
        " - token : " + "Missing data for required field.",
        " - chat_whitelist[0] : " + "Not a valid string or integer."], false)
  {
    var m1 := ["Missing data for required field."];
    var m2 := ["Not a valid string or integer."];
    var inner := Fields([(Index(0), Messages(m2))]);
    var entries := [(Name("token"), Messages(m1)), (Name("chat_whitelist"), inner)];
    var t := Fields(entries);
    ExamplePaths();
    ExampleLineToken();
    ExampleLineChat();
    var line1 := Line("token", m1);
    var line2 := Line("chat_whitelist[0]", m2);
    assert GoThrough([Name("token")], Messages(m1)) == Report([line1], false);
    var innerEntries := [(Index(0), Messages(m2))];
    assert [Name("chat_whitelist")] + [Index(0)] == [Name("chat_whitelist"), Index(0)];
    assert GoThrough([Name("chat_whitelist"), Index(0)], Messages(m2)) == Report([line2], false);
    assert innerEntries[1..] == [];
    assert GoThroughEntries([Name("chat_whitelist")], innerEntries, inner) == Report([line2], false);
    assert GoThrough([Name("chat_whitelist")], inner) == Report([line2], false);
    assert entries[1..][1..] == [];
    assert [] + [Name("token")] == [Name("token")];
    assert [] + [Name("chat_whitelist")] == [Name("chat_whitelist")];
    assert GoThroughEntries([], entries[1..], t) == Report([line2], false);
  }
}
