/**
 * The console dump of a node tree: one numbered line per node, in pre-order,
 * drawn with box-drawing connectors under the parent's indentation.
 *
 * Writing to the console is replaced by returning the lines. The counter is
 * the program's `int` passed by reference; here it goes in as an argument
 * and comes back with the lines.
 */
module TreePrint {
  import opened SceneNode

  /** "└── ", the connector of the last child of a list. */
  const LastConnector: string := "\U{2514}\U{2500}\U{2500} "
  /** "├── ", the connector of every other child. */
  const MidConnector: string := "\U{251C}\U{2500}\U{2500} "
  /** What a last child hands down to its own children's prefix. */
  const LastIndent: string := "    "
  /** "│   ", what any other child hands down. */
  const MidIndent: string := "\U{2502}   "

  /** One printed line: the inherited prefix, the connector and the node's number. */
  datatype Line = Line(prefix: string, connector: string, number: int)

  /** The lines of a subtree and the counter after it. */
  datatype Printed = Printed(lines: seq<Line>, counter: int)

  /** A line with an empty prefix (the root) has no connector. */
  function Connector(prefix: string, isLast: bool): (r: string)
    ensures prefix == [] ==> r == []
    ensures prefix != [] && isLast ==> r == LastConnector
    ensures prefix != [] && !isLast ==> r == MidConnector
    ensures |r| == 0 || |r| == 4
  {
    if prefix == [] then [] else if isLast then LastConnector else MidConnector
  }

  /** The prefix handed to the children of a node. */
  function ChildPrefix(prefix: string, isLast: bool): (r: string)
    ensures |r| == |prefix| + 4
    ensures r[..|prefix|] == prefix
    ensures r != []
  {
    prefix + (if isLast then LastIndent else MidIndent)
  }

  /**
   * Prints `n` and its subtree. `n` gets number `counter`; its children follow
   * in order, each with the extended prefix, and only the final one is flagged last.
   */
  function PrintTree(n: Node, counter: int, prefix: string, isLast: bool): (r: Printed)
    ensures |r.lines| == |PreOrder(n)|
    ensures r.counter == counter + |PreOrder(n)|
    ensures forall j :: 0 <= j < |r.lines| ==> r.lines[j].number == counter + j
    ensures r.lines[0] == Line(prefix, Connector(prefix, isLast), counter)
    ensures forall j :: 0 <= j < |r.lines| ==> prefix <= r.lines[j].prefix
    ensures forall j :: 1 <= j < |r.lines| ==> |r.lines[j].prefix| > |prefix| && r.lines[j].connector != []
    decreases n, 1
  {
    var head := Line(prefix, Connector(prefix, isLast), counter);
    var rest := PrintChildren(n.children, 0, counter + 1, ChildPrefix(prefix, isLast));
    SpanIsForest(n.children, 0, |n.children|);
    assert n.children[0..|n.children|] == n.children;
    PrefixTransitive(prefix, ChildPrefix(prefix, isLast), rest.lines);
    Printed([head] + rest.lines, rest.counter)
  }

  /** Prints the children `cs[i..]` one subtree after another, with a shared prefix. */
  function PrintChildren(cs: seq<Node>, i: nat, counter: int, prefix: string): (r: Printed)
    requires i <= |cs|
    ensures |r.lines| == Span(cs, i, |cs|)
    ensures r.counter == counter + Span(cs, i, |cs|)
    ensures forall j :: 0 <= j < |r.lines| ==> r.lines[j].number == counter + j
    ensures forall j :: 0 <= j < |r.lines| ==> prefix <= r.lines[j].prefix
    ensures prefix != [] ==> forall j :: 0 <= j < |r.lines| ==> r.lines[j].connector != []
    decreases cs, |cs| - i
  {
    if i == |cs| then
      Printed([], counter)
    else
      var p := PrintTree(cs[i], counter, prefix, i == |cs| - 1);
      var q := PrintChildren(cs, i + 1, p.counter, prefix);
      Printed(p.lines + q.lines, q.counter)
  }

  /** The number of nodes in the subtrees of `cs[k..i]`. */
  function Span(cs: seq<Node>, k: nat, i: nat): nat
    requires k <= i <= |cs|
    decreases i - k
  {
    if k == i then 0 else |PreOrder(cs[k])| + Span(cs, k + 1, i)
  }

  lemma {:induction false} SpanIsForest(cs: seq<Node>, k: nat, i: nat)
    requires k <= i <= |cs|
    ensures Span(cs, k, i) == |Forest(cs[k..i])|
    decreases i - k
  {
    if k < i {
      assert cs[k..i][1..] == cs[k + 1..i];
      SpanIsForest(cs, k + 1, i);
    }
  }

  /** Lines that all extend `long`, which extends `short`, all extend `short`. */
  lemma PrefixTransitive(short: string, long: string, lines: seq<Line>)
    requires short <= long
    requires forall j :: 0 <= j < |lines| ==> long <= lines[j].prefix
    ensures forall j :: 0 <= j < |lines| ==> short <= lines[j].prefix && |lines[j].prefix| >= |long|
  {
  }

  /**
   * Where each child's subtree starts in the listing of `cs[k..]`: after all
   * the nodes of the siblings before it. Its first line is the child's own,
   * numbered from there and flagged last exactly when it is the final child.
   */
  lemma {:induction false} ChildHeadLine(cs: seq<Node>, k: nat, i: nat, counter: int, prefix: string)
    requires k <= i < |cs|
    ensures Span(cs, k, i) < |PrintChildren(cs, k, counter, prefix).lines|
    ensures PrintChildren(cs, k, counter, prefix).lines[Span(cs, k, i)]
         == Line(prefix, Connector(prefix, i == |cs| - 1), counter + Span(cs, k, i))
    decreases i - k
  {
    var p := PrintTree(cs[k], counter, prefix, k == |cs| - 1);
    var q := PrintChildren(cs, k + 1, p.counter, prefix);
    var lines := PrintChildren(cs, k, counter, prefix).lines;
    assert lines == p.lines + q.lines;
    if k < i {
      var off := Span(cs, k + 1, i);
      ChildHeadLine(cs, k + 1, i, p.counter, prefix);
      assert Span(cs, k, i) == |p.lines| + off;
      assert lines[|p.lines| + off] == q.lines[off];
    } else {
      assert lines[0] == p.lines[0];
    }
  }

  /**
   * Only the final child of a list is flagged last: the line of child `i`,
   * which comes after the nodes of all earlier siblings, carries the
   * last-child connector exactly when `i` is the final child, and the
   * other-child connector otherwise.
   */
  lemma OnlyFinalChildIsLast(cs: seq<Node>, i: nat, counter: int, prefix: string)
    requires i < |cs| && prefix != []
    ensures var all := PrintChildren(cs, 0, counter, prefix).lines;
            var off := |Forest(cs[..i])|;
            && off < |all|
            && all[off].number == counter + off
            && all[off].prefix == prefix
            && (all[off].connector == LastConnector <==> i == |cs| - 1)
            && (all[off].connector == MidConnector <==> i != |cs| - 1)
  {
    assert cs[0..i] == cs[..i];
    SpanIsForest(cs, 0, i);
    ChildHeadLine(cs, 0, i, counter, prefix);
    assert LastConnector != MidConnector by {
      assert LastConnector[0] != MidConnector[0];
    }
  }

  /**
   * The line of the `i`-th child of `n` in the listing of `n`: it follows `n`'s
   * own line and the subtrees of the earlier children, its prefix is `n`'s
   * prefix extended by the indent `n`'s flag selects, and its connector is
   * the last-child one exactly for the final child.
   */
  lemma ChildLine(n: Node, counter: int, prefix: string, isLast: bool, i: nat)
    requires i < |n.children|
    ensures var lines := PrintTree(n, counter, prefix, isLast).lines;
            var at := 1 + |Forest(n.children[..i])|;
            && at < |lines|
            && lines[at].prefix == prefix + (if isLast then "    " else "\U{2502}   ")
            && lines[at].number == counter + at
            && (lines[at].connector == LastConnector <==> i == |n.children| - 1)
  {
    OnlyFinalChildIsLast(n.children, i, counter + 1, ChildPrefix(prefix, isLast));
  }

  // ---------------------------------------------------------------------
  // Reference definition of the listing: last-flags from the root down
  // ---------------------------------------------------------------------

  /** `b` put in front of every flag path. */
  function PrependFlag(b: bool, fss: seq<seq<bool>>): (r: seq<seq<bool>>)
    ensures |r| == |fss|
    ensures forall i :: 0 <= i < |fss| ==> r[i] == [b] + fss[i]
  {
    seq(|fss|, i requires 0 <= i < |fss| => [b] + fss[i])
  }

  /**
   * For each node of `n`'s subtree, in pre-order, the flags of the nodes on
   * the path from `n` down to it: `isLast` for `n` itself, and for every
   * other node whether it is the final child of its parent.
   */
  function Flags(n: Node, isLast: bool): seq<seq<bool>>
    decreases n, 1
  {
    [[isLast]] + PrependFlag(isLast, ForestFlags(n.children, 0))
  }

  /** The flag paths of the subtrees of `cs[i..]`, one subtree after another. */
  function ForestFlags(cs: seq<Node>, i: nat): seq<seq<bool>>
    requires i <= |cs|
    decreases cs, |cs| - i
  {
    if i == |cs| then [] else Flags(cs[i], i == |cs| - 1) + ForestFlags(cs, i + 1)
  }

  /** One four-character indent per flag: blank under a final child, a bar under any other. */
  function Indents(fs: seq<bool>): string
  {
    if fs == [] then [] else (if fs[0] then LastIndent else MidIndent) + Indents(fs[1..])
  }

  /**
   * The line of the node reached by flag path `fs`: the starting prefix, one
   * indent per ancestor on the path, and the connector the node's own flag picks.
   */
  function LineOf(prefix: string, fs: seq<bool>, number: int): Line
    requires fs != []
  {
    var p := prefix + Indents(fs[..|fs| - 1]);
    Line(p, Connector(p, fs[|fs| - 1]), number)
  }

  /** Line `i` is the line of flag path `i`, numbered from `counter`. */
  ghost predicate FollowsFlags(lines: seq<Line>, flags: seq<seq<bool>>, prefix: string, counter: int)
  {
    && |lines| == |flags|
    && forall i :: 0 <= i < |lines| ==> flags[i] != [] && lines[i] == LineOf(prefix, flags[i], counter + i)
  }

  /** A path that starts with flag `b` is read from the prefix `b` hands down. */
  lemma LineOfCons(prefix: string, b: bool, fs: seq<bool>, number: int)
    requires fs != []
    ensures LineOf(prefix, [b] + fs, number) == LineOf(ChildPrefix(prefix, b), fs, number)
  {
    var q := [b] + fs;
    assert q[..|q| - 1] == [b] + fs[..|fs| - 1];
    assert ([b] + fs[..|fs| - 1])[1..] == fs[..|fs| - 1];
    assert q[|q| - 1] == fs[|fs| - 1];
  }

  /** Two listings side by side, the second numbered on from the first, follow their paths side by side. */
  lemma FollowsFlagsConcat(l1: seq<Line>, f1: seq<seq<bool>>, l2: seq<Line>, f2: seq<seq<bool>>,
                           prefix: string, counter: int)
    requires FollowsFlags(l1, f1, prefix, counter)
    requires FollowsFlags(l2, f2, prefix, counter + |l1|)
    ensures FollowsFlags(l1 + l2, f1 + f2, prefix, counter)
  {
    var l, f := l1 + l2, f1 + f2;
    forall i | 0 <= i < |l|
      ensures f[i] != [] && l[i] == LineOf(prefix, f[i], counter + i)
    {
      if i < |l1| {
        assert l[i] == l1[i] && f[i] == f1[i];
      } else {
        var j := i - |l1|;
        assert l[i] == l2[j] && f[i] == f2[j];
      }
    }
  }

  /**
   * A node's own line in front of its children's listing, which uses the
   * prefix the node hands down, follows the node's flag paths.
   */
  lemma FollowsFlagsPrepend(b: bool, lines: seq<Line>, fss: seq<seq<bool>>, prefix: string, counter: int)
    requires FollowsFlags(lines, fss, ChildPrefix(prefix, b), counter + 1)
    ensures FollowsFlags([Line(prefix, Connector(prefix, b), counter)] + lines, [[b]] + PrependFlag(b, fss), prefix, counter)
  {
    var l, f := [Line(prefix, Connector(prefix, b), counter)] + lines, [[b]] + PrependFlag(b, fss);
    forall i | 0 <= i < |l|
      ensures f[i] != [] && l[i] == LineOf(prefix, f[i], counter + i)
    {
      if i == 0 {
        assert f[0] == [b] && f[0][..0] == [];
        assert prefix + [] == prefix;
      } else {
        assert l[i] == lines[i - 1] && f[i] == [b] + fss[i - 1];
        LineOfCons(prefix, b, fss[i - 1], counter + i);
      }
    }
  }

  /**
   * Every line of a subtree's listing, not only the first levels: line `i`
   * has the given prefix, then one indent for each node above it on its
   * path (blank under a final child, a bar otherwise), then the connector
   * its own last-flag picks, and the number `counter + i`.
   */
  lemma {:induction false} PrintTreeFollowsFlags(n: Node, counter: int, prefix: string, isLast: bool)
    ensures FollowsFlags(PrintTree(n, counter, prefix, isLast).lines, Flags(n, isLast), prefix, counter)
    ensures |Flags(n, isLast)| == |PreOrder(n)|
    decreases n, 1
  {
    var cp := ChildPrefix(prefix, isLast);
    PrintChildrenFollowsFlags(n.children, 0, counter + 1, cp);
    FollowsFlagsPrepend(isLast, PrintChildren(n.children, 0, counter + 1, cp).lines, ForestFlags(n.children, 0), prefix, counter);
  }

  /** The same for a child list: its listing is each child's own listing, in order. */
  lemma {:induction false} PrintChildrenFollowsFlags(cs: seq<Node>, i: nat, counter: int, prefix: string)
    requires i <= |cs|
    ensures FollowsFlags(PrintChildren(cs, i, counter, prefix).lines, ForestFlags(cs, i), prefix, counter)
    decreases cs, |cs| - i
  {
    if i < |cs| {
      var p := PrintTree(cs[i], counter, prefix, i == |cs| - 1);
      PrintTreeFollowsFlags(cs[i], counter, prefix, i == |cs| - 1);
      PrintChildrenFollowsFlags(cs, i + 1, p.counter, prefix);
      FollowsFlagsConcat(p.lines, Flags(cs[i], i == |cs| - 1),
                         PrintChildren(cs, i + 1, p.counter, prefix).lines, ForestFlags(cs, i + 1), prefix, counter);
    }
  }

  // ---------------------------------------------------------------------
  // Text
  // ---------------------------------------------------------------------

  /** The decimal digits of a natural number, most significant first. */
  function Digits(n: nat): (s: string)
    ensures |s| >= 1
    ensures forall k :: 0 <= k < |s| ==> '0' <= s[k] <= '9'
    decreases n
  {
    if n < 10 then [DigitChar(n)] else Digits(n / 10) + [DigitChar(n % 10)]
  }

  function DigitChar(d: nat): (c: char)
    requires d < 10
    ensures '0' <= c <= '9'
  {
    ((d + 48) as char)
  }

  /** The value of a string of decimal digits: reads back what `Digits` writes. */
  function DigitsValue(s: string): nat
    requires forall k :: 0 <= k < |s| ==> '0' <= s[k] <= '9'
    decreases |s|
  {
    if s == [] then 0 else DigitsValue(s[..|s| - 1]) * 10 + ((s[|s| - 1] as int) - 48)
  }

  lemma {:induction false} DigitsRoundTrip(n: nat)
    ensures DigitsValue(Digits(n)) == n
    decreases n
  {
    if n >= 10 {
      var s := Digits(n);
      assert s[..|s| - 1] == Digits(n / 10);
      DigitsRoundTrip(n / 10);
    }
  }

  /** An `int` as the console writes it: a minus sign for negatives, then the digits. */
  function Decimal(n: int): (s: string)
    ensures n >= 0 ==> s == Digits(n)
    ensures n < 0 ==> |s| >= 2 && s[0] == '-' && s[1..] == Digits(-n)
  {
    if n < 0 then "-" + Digits(-n) else Digits(n)
  }

  function Text(l: Line): (s: string)
    ensures |s| == |l.prefix| + |l.connector| + |Decimal(l.number)|
    ensures s[..|l.prefix|] == l.prefix
    ensures s[|l.prefix|..|l.prefix| + |l.connector|] == l.connector
    ensures s[|l.prefix| + |l.connector|..] == Decimal(l.number)
  {
    l.prefix + l.connector + Decimal(l.number)
  }

  /** The whole dump of a tree, numbered from 1 with the root flush left and marked last. */
  function PrintHierarchy(root: Node): (r: seq<string>)
    ensures |r| == |PreOrder(root)|
    ensures r[0] == "1"
  {
    var p := PrintTree(root, 1, "", true);
    assert Text(p.lines[0]) == "1";
    seq(|p.lines|, j requires 0 <= j < |p.lines| => Text(p.lines[j]))
  }

  /** Line `j` of the dump carries number `j + 1`, and every line but the first is indented. */
  lemma HierarchyNumbering(root: Node, j: nat)
    requires j < |PreOrder(root)|
    ensures PrintTree(root, 1, "", true).lines[j].number == j + 1
    ensures PrintHierarchy(root)[j] == Text(PrintTree(root, 1, "", true).lines[j])
    ensures j > 0 ==> |PrintTree(root, 1, "", true).lines[j].prefix| >= 4
  {
  }
}
