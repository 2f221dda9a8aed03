/** The telemetry message: a tree of messages whose leaves are set by dotted signal names,
    through a cache from names to the message that holds the leaf. */
module TelemetryTree {
  import opened Options

  /** A text, or any other scalar by its printed form. */
  datatype Value = Text(chars: string) | Scalar(image: string)

  datatype Label = SINGULAR | REPEATED

  /** What a leaf holds, and what a signal brings. */
  datatype Content = Single(v: Value) | Many(vs: seq<Value>)

  /** What is left in a leaf by a signal it takes. A repeated leaf takes whatever can be iterated
      over: a list by its elements, and a text by its characters. */
  function Stored(leaf: Label, content: Content): Option<Content> {
    match (leaf, content)
    case (SINGULAR, Single(_)) => Some(content)
    case (REPEATED, Many(_)) => Some(content)
    case (REPEATED, Single(Text(chars))) =>
      Some(Many(seq(|chars|, i requires 0 <= i < |chars| => Text([chars[i]]))))
    case _ => None
  }

  // ----- names

  function IndexOfDot(s: string): (i: nat)
    requires '.' in s
    ensures i < |s| && s[i] == '.' && '.' !in s[..i]
  {
    if s[0] == '.' then 0 else
      assert '.' in s[1..];
      var i := 1 + IndexOfDot(s[1..]);
      assert s[..i] == [s[0]] + s[1..][..i - 1];
      i
  }

  function Split(s: string): (parts: seq<string>)
    ensures |parts| >= 1
    decreases |s|
  {
    if '.' in s then
      var i := IndexOfDot(s);
      [s[..i]] + Split(s[i + 1..])
    else [s]
  }

  function Join(parts: seq<string>): string
    requires |parts| >= 1
  {
    if |parts| == 1 then parts[0] else parts[0] + "." + Join(parts[1..])
  }

  lemma JoinCons(head: string, tail: seq<string>)
    requires |tail| >= 1
    ensures Join([head] + tail) == head + "." + Join(tail)
  {
    assert ([head] + tail)[1..] == tail;
  }

  lemma AroundDot(s: string, i: nat)
    requires i < |s| && s[i] == '.'
    ensures s[..i] + "." + s[i + 1..] == s
  {
  }

  /** Splitting loses nothing, so it is injective. */
  lemma {:induction false} JoinSplit(s: string)
    ensures Join(Split(s)) == s
    decreases |s|
  {
    if '.' in s {
      var i := IndexOfDot(s);
      JoinSplit(s[i + 1..]);
      JoinCons(s[..i], Split(s[i + 1..]));
      AroundDot(s, i);
    }
  }

  lemma {:induction false} FirstDotIs(s: string, i: nat)
    requires i < |s| && s[i] == '.' && '.' !in s[..i]
    ensures IndexOfDot(s) == i
  {
    var k := IndexOfDot(s);
    assert forall j :: 0 <= j < i ==> s[..i][j] == s[j];
    assert forall j :: 0 <= j < k ==> s[..k][j] == s[j];
  }

  lemma {:induction false} SplitCons(head: string, tail: string)
    requires '.' !in head
    ensures Split(head + "." + tail) == [head] + Split(tail)
  {
    var s := head + "." + tail;
    assert s[..|head|] == head && s[|head|] == '.' && s[|head| + 1..] == tail;
    FirstDotIs(s, |head|);
  }

  predicate DotFree(s: string) {
    '.' !in s
  }

  lemma HeadAndTail<T>(s: seq<T>)
    requires |s| >= 1
    ensures [s[0]] + s[1..] == s
  {
  }

  /** Parts without dots, joined by dots, are what splitting finds again. */
  lemma {:induction false} SplitJoin(parts: seq<string>)
    requires |parts| >= 1 && forall i :: 0 <= i < |parts| ==> DotFree(parts[i])
    ensures Split(Join(parts)) == parts
    decreases |parts|
  {
    HeadAndTail(parts);
    assert DotFree(parts[0]);
    if |parts| > 1 {
      SplitJoin(parts[1..]);
      SplitCons(parts[0], Join(parts[1..]));
    }
  }

  /** The messages a name passes on its way down; the first component, the root, is skipped. */
  function PathOf(name: string): seq<string> {
    var parts := Split(name);
    if |parts| == 1 then [] else parts[1..|parts| - 1]
  }

  function LeafOf(name: string): string {
    var parts := Split(name);
    parts[|parts| - 1]
  }

  predicate SameLeaf(m: string, n: string) {
    PathOf(m) == PathOf(n) && LeafOf(m) == LeafOf(n)
  }

  /** Two names with at least a root and a leaf address the same leaf exactly when they agree
      behind the root. */
  lemma SameLeafIff(m: string, n: string)
    requires |Split(m)| >= 2 && |Split(n)| >= 2
    ensures SameLeaf(m, n) <==> Split(m)[1..] == Split(n)[1..]
  {
    TailIff(Split(m), Split(n));
  }

  lemma TailIff<T>(p: seq<T>, q: seq<T>)
    requires |p| >= 2 && |q| >= 2
    ensures p[1..|p| - 1] == q[1..|q| - 1] && p[|p| - 1] == q[|q| - 1] <==> p[1..] == q[1..]
  {
    assert p[1..] == p[1..|p| - 1] + [p[|p| - 1]];
    assert q[1..] == q[1..|q| - 1] + [q[|q| - 1]];
    if p[1..] == q[1..] {
      assert |p| == |q|;
      assert p[1..|p| - 1] == p[1..][..|p| - 2];
      assert q[1..|q| - 1] == q[1..][..|q| - 2];
      assert p[|p| - 1] == p[1..][|p| - 2];
      assert q[|q| - 1] == q[1..][|q| - 2];
    }
  }

  predicate HasRoot(name: string, root: string) {
    |Split(name)| >= 2 && Split(name)[0] == root
  }

  /** Under one root the leaf determines the name. */
  lemma OneRootOneName(m: string, n: string, root: string)
    requires HasRoot(m, root) && HasRoot(n, root)
    ensures SameLeaf(m, n) <==> m == n
  {
    SameLeafIff(m, n);
    JoinSplit(m);
    JoinSplit(n);
    if Split(m)[1..] == Split(n)[1..] {
      assert Split(m) == [root] + Split(m)[1..];
      assert Split(n) == [root] + Split(n)[1..];
    }
  }

  // ----- what publishing a signal does

  /** Labels of the leaves, and their contents, by the path of their message. */
  type Schema = map<seq<string>, map<string, Label>>
  type Tree = map<seq<string>, map<string, Content>>

  datatype Call = Call(name: string, content: Content, accepted: bool)

  predicate Known(schema: Schema, name: string) {
    PathOf(name) in schema && LeafOf(name) in schema[PathOf(name)]
  }

  /** What the leaf of a name holds after it has taken `content`. */
  function StoredFor(schema: Schema, name: string, content: Content): Option<Content> {
    if Known(schema, name) then Stored(schema[PathOf(name)][LeafOf(name)], content) else None
  }

  /** The call goes through: the leaf exists, it takes such a value, and the library accepts it. */
  predicate Succeeds(schema: Schema, c: Call) {
    c.accepted && StoredFor(schema, c.name, c.content).Some?
  }

  predicate IsRepeated(schema: Schema, name: string) {
    Known(schema, name) && schema[PathOf(name)][LeafOf(name)] == REPEATED
  }

  /** A repeated leaf is always there, if only empty; a singular one from when it is first set. */
  predicate LeavesFit(labels: map<string, Label>, fields: map<string, Content>) {
    && (forall f :: f in labels && labels[f] == REPEATED ==> f in fields)
    && (forall f :: f in fields ==> f in labels && (fields[f].Many? <==> labels[f] == REPEATED))
  }

  predicate Fits(schema: Schema, tree: Tree) {
    schema.Keys == tree.Keys && forall p :: p in tree ==> LeavesFit(schema[p], tree[p])
  }

  function SetLeaf(tree: Tree, name: string, content: Content): Tree
    requires PathOf(name) in tree
  {
    tree[PathOf(name) := tree[PathOf(name)][LeafOf(name) := content]]
  }

  /** A repeated leaf is emptied before the new values are appended. */
  function Published(schema: Schema, tree: Tree, c: Call): (r: Tree)
    requires schema.Keys == tree.Keys
    ensures r.Keys == tree.Keys
  {
    if Succeeds(schema, c) then SetLeaf(tree, c.name, StoredFor(schema, c.name, c.content).value)
    else if IsRepeated(schema, c.name) then SetLeaf(tree, c.name, Many([]))
    else tree
  }

  /** Publishing replaces the leaves of one message. */
  lemma PublishedAs(schema: Schema, tree: Tree, c: Call, fields: map<string, Content>)
    requires schema.Keys == tree.Keys && Known(schema, c.name)
    requires fields == if Succeeds(schema, c)
                       then tree[PathOf(c.name)][LeafOf(c.name) := StoredFor(schema, c.name, c.content).value]
                       else if IsRepeated(schema, c.name) then tree[PathOf(c.name)][LeafOf(c.name) := Many([])]
                       else tree[PathOf(c.name)]
    ensures tree[PathOf(c.name) := fields] == Published(schema, tree, c)
  {
  }

  lemma PublishedFits(schema: Schema, tree: Tree, c: Call)
    requires Fits(schema, tree)
    ensures Fits(schema, Published(schema, tree, c))
  {
  }

  function PublishedAll(schema: Schema, tree: Tree, calls: seq<Call>): (r: Tree)
    requires schema.Keys == tree.Keys
    ensures r.Keys == tree.Keys
    decreases |calls|
  {
    if calls == [] then tree
    else Published(schema, PublishedAll(schema, tree, calls[..|calls| - 1]), calls[|calls| - 1])
  }

  function ContentAt(tree: Tree, name: string): Option<Content> {
    if PathOf(name) in tree && LeafOf(name) in tree[PathOf(name)]
    then Some(tree[PathOf(name)][LeafOf(name)]) else None
  }

  /** The last content set for a name. */
  function LastFor(calls: seq<Call>, name: string): Option<Content>
    decreases |calls|
  {
    if calls == [] then None
    else if calls[|calls| - 1].name == name then Some(calls[|calls| - 1].content)
    else LastFor(calls[..|calls| - 1], name)
  }

  /** Setting a name changes its own leaf and no other. */
  lemma SetLeafAt(tree: Tree, name: string, content: Content, other: string)
    requires PathOf(name) in tree
    ensures ContentAt(SetLeaf(tree, name, content), other) ==
      if SameLeaf(name, other) then Some(content) else ContentAt(tree, other)
  {
  }

  lemma {:induction false} LeafHoldsStored(schema: Schema, tree: Tree, calls: seq<Call>, name: string, root: string)
    requires schema.Keys == tree.Keys && HasRoot(name, root)
    requires forall i :: 0 <= i < |calls| ==> Succeeds(schema, calls[i]) && HasRoot(calls[i].name, root)
    ensures ContentAt(PublishedAll(schema, tree, calls), name) ==
      match LastFor(calls, name)
      case Some(content) => StoredFor(schema, name, content)
      case None => ContentAt(tree, name)
    ensures LastFor(calls, name).Some? ==> StoredFor(schema, name, LastFor(calls, name).value).Some?
    decreases |calls|
  {
    if calls != [] {
      var n := |calls| - 1;
      var c := calls[n];
      LeafHoldsStored(schema, tree, calls[..n], name, root);
      assert Succeeds(schema, c);
      SetLeafAt(PublishedAll(schema, tree, calls[..n]), c.name, StoredFor(schema, c.name, c.content).value, name);
      OneRootOneName(c.name, name, root);
    }
  }

  /** A list of one-character texts, one for each character. */
  predicate Spells(content: Option<Content>, chars: string) {
    && content.Some? && content.value.Many? && |content.value.vs| == |chars|
    && forall i :: 0 <= i < |chars| ==> content.value.vs[i] == Text([chars[i]])
  }

  /** After successful calls on names under one root every leaf holds the last content set for its
      name, just as it was set; only a text set on a repeated leaf is held as its characters. A name
      that was not set keeps what it had. */
  lemma LeafHoldsLast(schema: Schema, tree: Tree, calls: seq<Call>, name: string, root: string)
    requires schema.Keys == tree.Keys && HasRoot(name, root)
    requires forall i :: 0 <= i < |calls| ==> Succeeds(schema, calls[i]) && HasRoot(calls[i].name, root)
    ensures var held := ContentAt(PublishedAll(schema, tree, calls), name);
      match LastFor(calls, name)
      case Some(Single(Text(chars))) =>
        if IsRepeated(schema, name) then Spells(held, chars) else held == Some(Single(Text(chars)))
      case Some(content) => held == Some(content)
      case None => held == ContentAt(tree, name)
  {
    LeafHoldsStored(schema, tree, calls, name, root);
  }

  /** A call goes through exactly if the library accepts the value, the leaf exists, and it is a single
      value for a singular leaf, or a list or text for a repeated one. */
  lemma SucceedsIff(schema: Schema, c: Call)
    ensures Succeeds(schema, c) <==>
      && c.accepted && PathOf(c.name) in schema && LeafOf(c.name) in schema[PathOf(c.name)]
      && if schema[PathOf(c.name)][LeafOf(c.name)] == REPEATED
         then c.content.Many? || c.content.v.Text? else c.content.Single?
  {
  }

  /** Without a common root a signal can overwrite another one: the root is not looked at. */
  lemma RootsAlias(schema: Schema, tree: Tree, m: string, n: string, content: Content)
    requires schema.Keys == tree.Keys
    requires |Split(m)| >= 2 && |Split(n)| >= 2 && Split(m)[1..] == Split(n)[1..]
    requires Succeeds(schema, Call(m, content, true))
    ensures ContentAt(Published(schema, tree, Call(m, content, true)), n) == StoredFor(schema, m, content)
  {
    SameLeafIff(m, n);
    SetLeafAt(tree, m, StoredFor(schema, m, content).value, n);
  }

  /** A call that fails leaves the tree alone, unless it is for a repeated leaf: that one is
      erased, so the tree survives exactly when the leaf was empty already, as it is until it is
      first set. */
  lemma FailureKeepsTreeIff(schema: Schema, tree: Tree, c: Call)
    requires Fits(schema, tree) && !Succeeds(schema, c)
    ensures Published(schema, tree, c) == tree <==>
      (IsRepeated(schema, c.name) ==> ContentAt(tree, c.name) == Some(Many([])))
  {
    if IsRepeated(schema, c.name) {
      SetLeafAt(tree, c.name, Many([]), c.name);
      var p, f := PathOf(c.name), LeafOf(c.name);
      if ContentAt(tree, c.name) == Some(Many([])) {
        assert tree[p][f := Many([])] == tree[p];
        assert tree[p := tree[p]] == tree;
      }
    }
  }

  /** No leaf has been set. */
  function EmptyLeaves(labels: map<string, Label>): (fields: map<string, Content>)
    ensures LeavesFit(labels, fields)
  {
    map f | f in labels && labels[f] == REPEATED :: Many([])
  }

  function EmptyTree(schema: Schema): (r: Tree)
    ensures Fits(schema, r)
  {
    map p | p in schema :: EmptyLeaves(schema[p])
  }

  /** Failing calls leave a fresh message fresh, however many there are and whatever they are for. */
  lemma {:induction false} FailuresKeepFresh(schema: Schema, calls: seq<Call>)
    requires forall i :: 0 <= i < |calls| ==> !Succeeds(schema, calls[i])
    ensures PublishedAll(schema, EmptyTree(schema), calls) == EmptyTree(schema)
    decreases |calls|
  {
    if calls != [] {
      var n := |calls| - 1;
      FailuresKeepFresh(schema, calls[..n]);
      FailureKeepsTreeIff(schema, EmptyTree(schema), calls[n]);
    }
  }

  /** Erasure is not far away: in every schema, a repeated leaf that has taken a list loses it to the
      next scalar that is set for it. */
  lemma ScalarErasesList(schema: Schema, name: string, v: Value, image: string)
    requires IsRepeated(schema, name)
    ensures var calls := [Call(name, Many([v]), true), Call(name, Single(Scalar(image)), true)];
      && Succeeds(schema, calls[0]) && !Succeeds(schema, calls[1])
      && ContentAt(PublishedAll(schema, EmptyTree(schema), calls[..1]), name) == Some(Many([v]))
      && ContentAt(PublishedAll(schema, EmptyTree(schema), calls), name) == Some(Many([]))
  {
    var tree := EmptyTree(schema);
    var first, second := Call(name, Many([v]), true), Call(name, Single(Scalar(image)), true);
    var calls := [first, second];
    assert calls[..1] == [first] && calls[..1][..0] == [];
    assert PublishedAll(schema, tree, [first]) == Published(schema, tree, first);
    SetLeafAt(tree, name, Many([v]), name);
    SetLeafAt(Published(schema, tree, first), name, Many([]), name);
  }

  // ----- the code

  /** A message: its sub-messages never change, the contents of its leaves do. */
  class Message {
    const children: map<string, Message>
    const labels: map<string, Label>
    var fields: map<string, Content>

    constructor (children: map<string, Message>, labels: map<string, Label>)
      ensures this.children == children && this.labels == labels && fields == EmptyLeaves(labels)
    {
      this.children := children;
      this.labels := labels;
      fields := EmptyLeaves(labels);
    }
  }

  /** The message found by walking down from `m`. */
  ghost function Walk(m: Message, path: seq<string>): Option<Message>
    decreases |path|
  {
    if path == [] then Some(m)
    else if path[0] in m.children then Walk(m.children[path[0]], path[1..])
    else None
  }

  /** `nodeAt` gives the messages below `proto` by their path, and every message has just one. */
  ghost predicate IsTree(proto: Message, nodeAt: map<seq<string>, Message>) {
    && [] in nodeAt && nodeAt[[]] == proto
    && (forall p, c :: p in nodeAt && c in nodeAt[p].children ==>
          p + [c] in nodeAt && nodeAt[p + [c]] == nodeAt[p].children[c])
    && (forall p, c {:trigger p + [c]} :: p + [c] in nodeAt ==> p in nodeAt && c in nodeAt[p].children)
    && (forall p, q :: p in nodeAt && q in nodeAt && nodeAt[p] == nodeAt[q] ==> p == q)
  }

  class Connection {
    const proto: Message
    ghost const nodeAt: map<seq<string>, Message>
    var protoMapping: map<string, Message>
    var deviceState: map<string, Content>
    var needTransmit: bool

    ghost predicate Shape() {
      IsTree(proto, nodeAt)
    }

    /** Every cached message is the one a full walk finds, and the leaves fit the messages. */
    ghost predicate Valid()
      reads this`protoMapping, nodeAt.Values
    {
      && Shape() && Fits(SchemaView(), View())
      && forall n :: n in protoMapping ==> Walk(proto, PathOf(n)) == Some(protoMapping[n])
    }

    ghost function SchemaView(): Schema {
      map p | p in nodeAt :: nodeAt[p].labels
    }

    ghost function View(): Tree
      reads nodeAt.Values
    {
      map p | p in nodeAt :: nodeAt[p].fields
    }

    /** A connection over a message nothing has been set in. */
    constructor (proto: Message, ghost nodeAt: map<seq<string>, Message>)
      requires IsTree(proto, nodeAt)
      requires forall p :: p in nodeAt ==> nodeAt[p].fields == EmptyLeaves(nodeAt[p].labels)
      ensures Valid() && View() == EmptyTree(SchemaView())
      ensures this.proto == proto && this.nodeAt == nodeAt && protoMapping == map[] && deviceState == map[]
      ensures !needTransmit
    {
      this.proto := proto;
      this.nodeAt := nodeAt;
      protoMapping, deviceState, needTransmit := map[], map[], false;
    }

    lemma {:induction false} WalkFrom(p: seq<string>, path: seq<string>)
      requires Shape() && p in nodeAt
      ensures Walk(nodeAt[p], path) == if p + path in nodeAt then Some(nodeAt[p + path]) else None
      decreases |path|
    {
      if path == [] {
        assert p + path == p;
      } else {
        var q := p + [path[0]];
        assert q + path[1..] == p + path;
        if path[0] in nodeAt[p].children {
          WalkFrom(q, path[1..]);
        } else {
          assert q !in nodeAt;
          NoNodeBelow(q, path[1..]);
        }
      }
    }

    lemma {:induction false} NoNodeBelow(p: seq<string>, path: seq<string>)
      requires Shape() && p !in nodeAt
      ensures p + path !in nodeAt
      decreases |path|
    {
      if path == [] {
        assert p + path == p;
      } else {
        var n := |path| - 1;
        NoNodeBelow(p, path[..n]);
        assert (p + path[..n]) + [path[n]] == p + path;
      }
    }

    /** Walks down the path of a name. */
    method FindMessage(path: seq<string>) returns (found: Option<Message>)
      ensures found == Walk(proto, path)
    {
      var node := proto;
      var i := 0;
      while i < |path|
        invariant i <= |path|
        invariant Walk(node, path[i..]) == Walk(proto, path)
      {
        if path[i] !in node.children {
          return None;
        }
        assert path[i..][1..] == path[i + 1..];
        node := node.children[path[i]];
        i := i + 1;
      }
      return Some(node);
    }

    /** The message of a name, from the cache or else by a walk that fills the cache. */
    method Lookup(name: string) returns (found: Option<Message>)
      requires Valid()
      modifies this`protoMapping
      ensures Valid()
      ensures found == Walk(proto, PathOf(name))
      ensures found == if PathOf(name) in nodeAt then Some(nodeAt[PathOf(name)]) else None
      ensures protoMapping == if found.Some? then old(protoMapping)[name := found.value] else old(protoMapping)
    {
      WalkFrom([], PathOf(name));
      assert [] + PathOf(name) == PathOf(name);
      if name !in protoMapping {
        found := FindMessage(PathOf(name));
        if found.Some? {
          protoMapping := protoMapping[name := found.value];
        }
      } else {
        found := Some(protoMapping[name]);
        assert found == Walk(proto, PathOf(name));
        assert protoMapping[name := found.value] == protoMapping;
      }
    }

    /** Finds the message and sets the leaf; every error of the library ends here. */
    method SetByName(name: string, content: Content, accepted: bool) returns (ok: bool)
      requires Valid()
      modifies this`protoMapping, nodeAt.Values
      ensures Valid()
      ensures ok <==> Succeeds(SchemaView(), Call(name, content, accepted))
      ensures View() == Published(SchemaView(), old(View()), Call(name, content, accepted))
    {
      PublishedFits(SchemaView(), View(), Call(name, content, accepted));
      var found := Lookup(name);
      if found.None? || LeafOf(name) !in found.value.labels {
        return false;
      }
      ok := SetSignal(found.value, name, content, accepted);
    }

    method PublishSignal(name: string, content: Content, accepted: bool) returns (ok: bool)
      requires Valid()
      modifies this, nodeAt.Values
      ensures Valid()
      ensures ok <==> Succeeds(SchemaView(), Call(name, content, accepted))
      ensures View() == Published(SchemaView(), old(View()), Call(name, content, accepted))
      ensures deviceState == old(deviceState)[name := content]
      ensures needTransmit == (old(needTransmit) || ok)
    {
      Remember(name, content);
      ok := SetByName(name, content, accepted);
      if ok {
        MarkChanged();
      }
    }

    method Remember(name: string, content: Content)
      requires Valid()
      modifies this`deviceState
      ensures Valid() && View() == old(View())
      ensures deviceState == old(deviceState)[name := content]
    {
      deviceState := deviceState[name := content];
    }

    method MarkChanged()
      requires Valid()
      modifies this`needTransmit
      ensures Valid() && View() == old(View())
      ensures needTransmit
    {
      needTransmit := true;
    }

    /** Sets the leaf of a name in the message of the tree that holds it. */
    method SetSignal(node: Message, name: string, content: Content, accepted: bool) returns (ok: bool)
      requires Shape()
      requires PathOf(name) in nodeAt && nodeAt[PathOf(name)] == node && LeafOf(name) in node.labels
      modifies nodeAt.Values
      ensures ok <==> Succeeds(SchemaView(), Call(name, content, accepted))
      ensures View() == Published(SchemaView(), old(View()), Call(name, content, accepted))
    {
      ghost var path := PathOf(name);
      ghost var before := View();
      ok := SetContent(node, LeafOf(name), content, accepted);
      assert View() == before[path := node.fields] by {
        forall p | p in nodeAt && p != path ensures nodeAt[p] != node {
        }
      }
      PublishedAs(SchemaView(), before, Call(name, content, accepted), node.fields);
    }

    /** Sets one leaf of a message. */
    method SetContent(node: Message, leaf: string, content: Content, accepted: bool) returns (ok: bool)
      requires leaf in node.labels
      modifies node
      ensures ok <==> accepted && Stored(node.labels[leaf], content).Some?
      ensures node.fields == if ok then old(node.fields)[leaf := Stored(node.labels[leaf], content).value]
                             else if node.labels[leaf] == REPEATED then old(node.fields)[leaf := Many([])]
                             else old(node.fields)
    {
      if node.labels[leaf] != REPEATED {
        ok := accepted && content.Single?;
        if ok {
          node.fields := node.fields[leaf := content];
        }
      } else {
        node.fields := node.fields[leaf := Many([])];
        var items := Stored(REPEATED, content);
        ok := accepted && items.Some?;
        if ok {
          node.fields := node.fields[leaf := items.value];
        }
      }
    }
  }
}
